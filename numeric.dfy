/**
 * `pd.to_numeric` on the texts the ANA and INMET payloads carry: an optional
 * sign, decimal digits and an optional fractional part. A missing text (an
 * XML element without text, a JSON null, `np.nan`) becomes a missing value.
 */
module Numeric {
  import opened Wrappers
  import opened Text

  /** The value of an unsigned decimal text such as `"350"`, `"12.5"` or `".5"`. */
  function Unsigned(s: string): Option<real>
  {
    var parts := Split(s, '.');
    if |parts| == 1 && parts[0] != [] && AllDigits(parts[0]) then
      Some(ValueOf(parts[0]) as real)
    else if |parts| == 2 && AllDigits(parts[0]) && AllDigits(parts[1]) && |parts[0]| + |parts[1]| >= 1 then
      Some(Fraction(parts[0], parts[1]))
    else
      None
  }

  /** The value of `whole.frac`, the digits after the point counting tenths, hundredths, .... */
  function Fraction(whole: string, frac: string): real
    requires AllDigits(whole) && AllDigits(frac)
  {
    ValueOf(whole) as real + ValueOf(frac) as real / Pow10(|frac|) as real
  }

  /** The number a text denotes, or `None` when `pd.to_numeric` would reject it. */
  function ParseNumber(s: string): Option<real>
  {
    if |s| >= 1 && s[0] == '-' then
      match Unsigned(s[1..])
      case Some(v) => Some(-v)
      case None => None
    else if |s| >= 1 && s[0] == '+' then Unsigned(s[1..])
    else Unsigned(s)
  }

  /**
   * The texts `pd.to_numeric` reads, described character by character: only
   * digits and points, at most one point, and at least one digit.
   */
  predicate UnsignedText(s: string)
  {
    (forall i | 0 <= i < |s| :: IsDigit(s[i]) || s[i] == '.') &&
    (forall i, j | 0 <= i < j < |s| :: s[i] != '.' || s[j] != '.') &&
    (exists i | 0 <= i < |s| :: IsDigit(s[i]))
  }

  /** An unsigned number text, optionally after one leading `-` or `+`. */
  predicate NumberText(s: string)
  {
    if |s| >= 1 && (s[0] == '-' || s[0] == '+') then UnsignedText(s[1..]) else UnsignedText(s)
  }

  /** Coerces one cell: no text stays missing, a number is read, anything else raises ValueError. */
  function ToNumber(cell: Option<string>): (r: Result<Option<real>, Error>)
    ensures cell.None? ==> r == Success(None)
    ensures cell.Some? ==> (r.Success? <==> NumberText(cell.value))
    ensures cell.Some? && r.Success? ==> r.value == ParseNumber(cell.value)
    ensures cell.Some? && r.Failure? ==> r.error == NotNumeric(cell.value)
  {
    match cell
    case None => Success(None)
    case Some(t) =>
      ParseNumberDefined(t);
      match ParseNumber(t)
      case Some(v) => Success(Some(v))
      case None => Failure(NotNumeric(t))
  }

  /** The unsigned reading succeeds exactly on the unsigned number texts. */
  lemma UnsignedDefined(s: string)
    ensures Unsigned(s).Some? <==> UnsignedText(s)
  {
    if Unsigned(s).Some? {
      UnsignedShape(s);
    }
    if UnsignedText(s) {
      UnsignedReads(s);
    }
  }

  lemma UnsignedShape(s: string)
    requires Unsigned(s).Some?
    ensures UnsignedText(s)
  {
    var parts := Split(s, '.');
    JoinSplit(s, '.');
    if |parts| == 1 {
      assert s == parts[0];
      assert IsDigit(s[0]);
    } else {
      var p, q := parts[0], parts[1];
      assert parts[1..] == [q];
      assert s == p + ['.'] + q;
      forall i | 0 <= i < |s| ensures (IsDigit(s[i]) && i != |p|) || (s[i] == '.' && i == |p|) {
        if i < |p| { assert s[i] == p[i]; }
        else if i > |p| { assert s[i] == q[i - |p| - 1]; }
      }
      if |p| >= 1 { assert IsDigit(s[0]); } else { assert IsDigit(s[1]); }
    }
  }

  lemma UnsignedReads(s: string)
    requires UnsignedText(s)
    ensures Unsigned(s).Some?
  {
    var d :| 0 <= d < |s| && IsDigit(s[d]);
    if k :| 0 <= k < |s| && s[k] == '.' {
      var p, q := s[..k], s[k + 1..];
      assert '.' !in p by {
        forall i | 0 <= i < |p| ensures p[i] != '.' { assert p[i] == s[i]; }
      }
      assert '.' !in q by {
        forall i | 0 <= i < |q| ensures q[i] != '.' { assert q[i] == s[k + 1 + i]; }
      }
      assert s == p + ['.'] + q;
      SplitCons(p, q, '.');
      SplitFree(q, '.');
      assert Split(s, '.') == [p, q];
      assert AllDigits(p) by {
        forall i | 0 <= i < |p| ensures IsDigit(p[i]) { assert p[i] == s[i]; }
      }
      assert AllDigits(q) by {
        forall i | 0 <= i < |q| ensures IsDigit(q[i]) { assert q[i] == s[k + 1 + i]; }
      }
      assert d != k;
    } else {
      SplitFree(s, '.');
    }
  }

  /** `pd.to_numeric` reads a text exactly when it is a (signed) number text. */
  lemma ParseNumberDefined(s: string)
    ensures ParseNumber(s).Some? <==> NumberText(s)
  {
    if |s| >= 1 && (s[0] == '-' || s[0] == '+') {
      UnsignedDefined(s[1..]);
    } else {
      UnsignedDefined(s);
    }
  }

  /** A run of digits, leading zeros allowed, reads as its value. */
  lemma ParseDigits(p: string)
    requires p != [] && AllDigits(p)
    ensures ParseNumber(p) == Some(ValueOf(p) as real)
  {
    assert '.' !in p by {
      forall i | 0 <= i < |p| ensures p[i] != '.' { assert IsDigit(p[i]); }
    }
    SplitFree(p, '.');
    assert IsDigit(p[0]);
  }

  /** `p.q` reads as p plus q tenths, hundredths, ...; either side may be empty but not both. */
  lemma ParseFraction(p: string, q: string)
    requires AllDigits(p) && AllDigits(q) && |p| + |q| >= 1
    ensures ParseNumber(p + "." + q).Some?
    ensures ParseNumber(p + "." + q).value == ValueOf(p) as real + ValueOf(q) as real / Pow10(|q|) as real
  {
    var s := p + "." + q;
    assert '.' !in p by {
      forall i | 0 <= i < |p| ensures p[i] != '.' { assert IsDigit(p[i]); }
    }
    assert '.' !in q by {
      forall i | 0 <= i < |q| ensures q[i] != '.' { assert IsDigit(q[i]); }
    }
    SplitCons(p, q, '.');
    SplitFree(q, '.');
    assert Split(s, '.') == [p, q];
    if p != [] { assert s[0] == p[0] && IsDigit(p[0]); } else { assert s[0] == '.'; }
    assert ParseNumber(s) == Unsigned(s);
  }

  /** A leading `-` negates the number and a leading `+` keeps it; either way the rest must be a number. */
  lemma ParseSign(t: string)
    requires t == [] || (t[0] != '-' && t[0] != '+')
    ensures ParseNumber("-" + t).Some? <==> ParseNumber(t).Some?
    ensures ParseNumber(t).Some? ==> ParseNumber("-" + t) == Some(-ParseNumber(t).value)
    ensures ParseNumber("+" + t) == ParseNumber(t)
  {
    assert ("-" + t)[1..] == t;
    assert ("+" + t)[1..] == t;
  }

  /** The decimal text of a natural number reads back as that number. */
  lemma ParseDecimal(n: nat)
    ensures ParseNumber(Decimal(n)) == Some(n as real)
  {
    ParseDigits(Decimal(n));
    ValueOfDecimal(n);
  }

  /** `-n` reads as the negated number. */
  lemma ParseNegativeDecimal(n: nat)
    ensures ParseNumber("-" + Decimal(n)) == Some(-(n as real))
  {
    ParseDecimal(n);
    assert IsDigit(Decimal(n)[0]);
    ParseSign(Decimal(n));
  }

  /** `n.d` reads as n plus the fraction the digits `d` denote. */
  lemma ParseDecimalFraction(n: nat, d: string)
    requires AllDigits(d)
    ensures ParseNumber(Decimal(n) + "." + d).Some?
    ensures ParseNumber(Decimal(n) + "." + d).value == n as real + ValueOf(d) as real / Pow10(|d|) as real
  {
    var t := Decimal(n);
    ParseFraction(t, d);
    ValueOfDecimal(n);
  }

  /**
   * A text is rejected when it holds a character other than a digit or a
   * point (a sign counts only in front), two points, or no digit at all:
   * a decimal comma (`"1,5"`), a blank and the empty text all raise.
   */
  lemma ParseRejects(s: string)
    ensures (exists i | 0 <= i < |s| :: !IsDigit(s[i]) && s[i] != '.' && !(i == 0 && (s[i] == '-' || s[i] == '+')))
      ==> ParseNumber(s) == None
    ensures (exists i, j | 0 <= i < j < |s| :: s[i] == '.' && s[j] == '.') ==> ParseNumber(s) == None
    ensures (forall i | 0 <= i < |s| :: !IsDigit(s[i])) ==> ParseNumber(s) == None
  {
    ParseNumberDefined(s);
    if |s| >= 1 && (s[0] == '-' || s[0] == '+') {
      var t := s[1..];
      assert forall i | 0 <= i < |t| :: t[i] == s[i + 1];
      if UnsignedText(t) {
        var d :| 0 <= d < |t| && IsDigit(t[d]);
        assert IsDigit(s[d + 1]);
        forall i | 1 <= i < |s| ensures IsDigit(s[i]) || s[i] == '.' { assert s[i] == t[i - 1]; }
        forall i, j | 1 <= i < j < |s| ensures s[i] != '.' || s[j] != '.' { assert s[i] == t[i - 1] && s[j] == t[j - 1]; }
      }
    }
  }

  /** A cent value divided by 100 gives metres: the raw stage `"350"` is 3.5. */
  lemma StageText350()
    ensures ParseNumber("350") == Some(350.0)
    ensures ParseNumber("350").value / 100.0 == 3.5
  {
    calc {
      Decimal(350);
      Decimal(35) + [DigitChar(0)];
      Decimal(3) + [DigitChar(5)] + [DigitChar(0)];
      "350";
    }
    ParseDecimal(350);
  }
}
