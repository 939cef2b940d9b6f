/**
 * The `key=value&key=value` query strings the web-service URLs are built
 * from, with a parser that reads them back.
 */
module Query {
  import opened Wrappers
  import opened Text

  type Param = (string, string)

  /** A key or value that can sit in a query string without escaping. */
  predicate Plain(s: string) { '&' !in s && '=' !in s }

  /** Parameter names are letters only. */
  lemma KeyIsPlain(key: string)
    requires forall i | 0 <= i < |key| :: 'A' <= key[i] <= 'z'
    ensures Plain(key)
  {
  }

  function EncodeParam(p: Param): string { p.0 + "=" + p.1 }

  /** The query string of a parameter list, in list order. */
  function Encode(ps: seq<Param>): string
  {
    Join(seq(|ps|, i requires 0 <= i < |ps| => EncodeParam(ps[i])), '&')
  }

  function ParseParam(s: string): Param
  {
    var parts := Split(s, '=');
    (parts[0], Join(parts[1..], '='))
  }

  /** Splits a query string back into its parameters. */
  function Parse(s: string): seq<Param>
  {
    var fields := Split(s, '&');
    seq(|fields|, i requires 0 <= i < |fields| => ParseParam(fields[i]))
  }

  /** The value of the first parameter named `key`. */
  function Lookup(ps: seq<Param>, key: string): (r: Option<string>)
    ensures r.Some? <==> exists i | 0 <= i < |ps| :: ps[i].0 == key
    ensures r.Some? ==> exists i | 0 <= i < |ps| :: ps[i] == (key, r.value) && forall j | 0 <= j < i :: ps[j].0 != key
  {
    if ps == [] then None
    else if ps[0].0 == key then Some(ps[0].1)
    else
      var r := Lookup(ps[1..], key);
      assert forall i | 0 <= i < |ps[1..]| :: ps[1..][i] == ps[i + 1];
      r
  }

  lemma ParseEncodeParam(p: Param)
    requires Plain(p.0) && Plain(p.1)
    ensures '&' !in EncodeParam(p)
    ensures ParseParam(EncodeParam(p)) == p
  {
    assert EncodeParam(p) == Join([p.0, p.1], '=');
    SplitJoin([p.0, p.1], '=');
  }

  /** Reading an encoded non-empty parameter list gives the list back. */
  lemma ParseEncode(ps: seq<Param>)
    requires |ps| >= 1
    requires forall i | 0 <= i < |ps| :: Plain(ps[i].0) && Plain(ps[i].1)
    ensures Parse(Encode(ps)) == ps
  {
    var fields := seq(|ps|, i requires 0 <= i < |ps| => EncodeParam(ps[i]));
    forall i | 0 <= i < |ps| ensures '&' !in fields[i] && ParseParam(fields[i]) == ps[i] {
      ParseEncodeParam(ps[i]);
    }
    SplitJoin(fields, '&');
  }

  lemma DigitsArePlain(s: string)
    requires AllDigits(s)
    ensures Plain(s)
  {
    assert !IsDigit('&') && !IsDigit('=');
    assert '&' !in s && '=' !in s;
  }

  /** The parameter at position `i` is the one found when no earlier parameter has its name. */
  lemma LookupAt(ps: seq<Param>, i: nat)
    requires i < |ps|
    requires forall j | 0 <= j < i :: ps[j].0 != ps[i].0
    ensures Lookup(ps, ps[i].0) == Some(ps[i].1)
  {
    var r := Lookup(ps, ps[i].0);
    var k :| 0 <= k < |ps| && ps[k] == (ps[i].0, r.value) && forall j | 0 <= j < k :: ps[j].0 != ps[i].0;
    assert !(k < i) && !(i < k);
  }
}
