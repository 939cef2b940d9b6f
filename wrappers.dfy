/** Option and Result wrappers, and the exceptions the modelled code can raise. */
module Wrappers {

  /** An optional value; on a numeric column `None` stands for NaN. */
  datatype Option<+T> = None | Some(value: T)

  /** The outcome of an operation that may raise. */
  datatype Result<+T, +E> = Success(value: T) | Failure(error: E)

  /** The Python exceptions the modelled code raises or catches. */
  datatype Error =
    /** `element.find(tag).text` on an element without that child: AttributeError. */
    | MissingElement(tag: string)
    /** An element present without text where a value is needed (`None.year`): AttributeError. */
    | NoText(tag: string)
    /** `pd.to_numeric` meeting a text that is not a number: ValueError. */
    | NotNumeric(text: string)
    /** `pd.concat` of an empty list: ValueError("No objects to concatenate"). */
    | NothingToConcatenate
    /** Selecting a column that the frame does not have: KeyError. */
    | MissingColumn(name: string)
    /** A reference to a name or attribute that the code never defines. */
    | UndefinedName(name: string)
    /** `pd.to_datetime` meeting a text that is not a date. */
    | NotADate(text: string)
    /** An attribute looked up on `None`, such as `None.format`: AttributeError. */
    | NoneAttribute(name: string)

  /**
   * The outcomes of a run of steps taken in order: all the values when every
   * step succeeds, otherwise the error of the first step that fails.
   */
  function Sequence<T, E>(rs: seq<Result<T, E>>): Result<seq<T>, E>
  {
    if rs == [] then Success([])
    else
      match rs[0]
      case Failure(e) => Failure(e)
      case Success(v) =>
        match Sequence(rs[1..])
        case Failure(e) => Failure(e)
        case Success(vs) => Success([v] + vs)
  }

  lemma {:induction false} SequenceFacts<T, E>(rs: seq<Result<T, E>>)
    ensures Sequence(rs).Success? <==> forall i | 0 <= i < |rs| :: rs[i].Success?
    ensures Sequence(rs).Success? ==>
      |Sequence(rs).value| == |rs| && forall i | 0 <= i < |rs| :: Sequence(rs).value[i] == rs[i].value
    ensures Sequence(rs).Failure? ==> exists i | 0 <= i < |rs| ::
      rs[i].Failure? && Sequence(rs).error == rs[i].error && forall j | 0 <= j < i :: rs[j].Success?
    decreases |rs|
  {
    if rs != [] {
      SequenceFacts(rs[1..]);
      assert forall i | 0 <= i < |rs[1..]| :: rs[1..][i] == rs[i + 1];
      if rs[0].Success? && Sequence(rs[1..]).Failure? {
        var i :| 0 <= i < |rs[1..]| && rs[1..][i].Failure? && Sequence(rs[1..]).error == rs[1..][i].error &&
          forall j | 0 <= j < i :: rs[1..][j].Success?;
        assert rs[i + 1].Failure?;
        forall j | 0 <= j < i + 1 ensures rs[j].Success? {
          if j > 0 { assert rs[j] == rs[1..][j - 1]; }
        }
      }
    }
  }

  /** `acc` followed by the values of `r`, or the failure of `r`. */
  function Prepend<T, E>(acc: seq<T>, r: Result<seq<T>, E>): (p: Result<seq<T>, E>)
    ensures r.Success? ==> p == Success(acc + r.value)
    ensures r.Failure? ==> p == r
  {
    match r
    case Failure(e) => Failure(e)
    case Success(vs) => Success(acc + vs)
  }

  /** Prepending twice is prepending the concatenation. */
  lemma PrependTwice<T, E>(a: seq<T>, b: seq<T>, r: Result<seq<T>, E>)
    ensures Prepend(a, Prepend(b, r)) == Prepend(a + b, r)
  {
    if r.Success? {
      assert a + (b + r.value) == (a + b) + r.value;
    }
  }

  /** One step of `Sequence` from position `i`: a failing step ends the run, a successful one is kept. */
  lemma SequenceFrom<T, E>(rs: seq<Result<T, E>>, i: nat)
    requires i < |rs|
    ensures rs[i].Failure? ==> Sequence(rs[i..]) == Failure(rs[i].error)
    ensures rs[i].Success? ==> Sequence(rs[i..]) == Prepend([rs[i].value], Sequence(rs[i + 1..]))
  {
    assert rs[i..][0] == rs[i] && rs[i..][1..] == rs[i + 1..];
  }

  /** A loop that keeps the successes of `rs` so far in `acc` can take one more. */
  lemma SequenceStep<T, E>(rs: seq<Result<T, E>>, acc: seq<T>, i: nat)
    requires i < |rs| && rs[i].Success?
    requires Sequence(rs) == Prepend(acc, Sequence(rs[i..]))
    ensures Sequence(rs) == Prepend(acc + [rs[i].value], Sequence(rs[i + 1..]))
  {
    SequenceFrom(rs, i);
    PrependTwice(acc, [rs[i].value], Sequence(rs[i + 1..]));
  }
}
