/**
 * The series-cleaning helpers: masking outliers and negative values with
 * NaN in place, and the fraction of missing values of a series.
 *
 * A pandas Series is an array of entries, each an index label and a value
 * (None standing for NaN). Masking goes through `serie.loc[labels]`, so it
 * reaches every entry whose LABEL was selected, not only the positions that
 * were compared.
 */
module Cleaning {
  import opened Wrappers

  type Entry<K> = (K, Option<real>)

  /** The default `limite` of `remover_outliers`. */
  const DefaultLimit: real := 400.0

  /** `serie > limite`: a comparison with NaN is false. */
  predicate Above(v: Option<real>, limite: real) { v.Some? && v.value > limite }

  /** `serie_sem_na < 0`, over the entries that are not NaN. */
  predicate Negative(v: Option<real>) { v.Some? && v.value < 0.0 }

  /** `serie[serie > limite].index`. */
  function OutlierLabels<K(==)>(s: seq<Entry<K>>, limite: real): set<K>
  {
    set i | 0 <= i < |s| && Above(s[i].1, limite) :: s[i].0
  }

  /** `serie_sem_na[serie_sem_na < 0].index`. */
  function NegativeLabels<K(==)>(s: seq<Entry<K>>): set<K>
  {
    set i | 0 <= i < |s| && Negative(s[i].1) :: s[i].0
  }

  /** `serie.loc[labels] = np.nan`. */
  function Masked<K(==)>(s: seq<Entry<K>>, labels: set<K>): (r: seq<Entry<K>>)
    ensures |r| == |s|
  {
    seq(|s|, i requires 0 <= i < |s| => if s[i].0 in labels then (s[i].0, None) else s[i])
  }

  function WithoutOutliers<K(==)>(s: seq<Entry<K>>, limite: real): seq<Entry<K>>
  {
    Masked(s, OutlierLabels(s, limite))
  }

  function WithoutNegatives<K(==)>(s: seq<Entry<K>>): seq<Entry<K>>
  {
    Masked(s, NegativeLabels(s))
  }

  /** `remover_outliers`: masks the outliers of `serie` itself and returns that same series. */
  method RemoverOutliers<K(==)>(serie: array<Entry<K>>, limite: real) returns (r: array<Entry<K>>)
    modifies serie
    ensures r == serie
    ensures serie[..] == WithoutOutliers(old(serie[..]), limite)
  {
    var indice_outliers := OutlierLabels(serie[..], limite);
    forall i | 0 <= i < serie.Length && serie[i].0 in indice_outliers {
      serie[i] := (serie[i].0, None);
    }
    r := serie;
  }

  /** `dropar_negativos`: masks the negative values of `serie` itself and returns that same series. */
  method DroparNegativos<K(==)>(serie: array<Entry<K>>) returns (r: array<Entry<K>>)
    modifies serie
    ensures r == serie
    ensures serie[..] == WithoutNegatives(old(serie[..]))
  {
    var indices_negativos := NegativeLabels(serie[..]);
    forall i | 0 <= i < serie.Length && serie[i].0 in indices_negativos {
      serie[i] := (serie[i].0, None);
    }
    r := serie;
  }

  /** Masking keeps the index and only ever turns values into NaN. */
  lemma MaskedFacts<K>(s: seq<Entry<K>>, labels: set<K>)
    ensures forall i | 0 <= i < |s| :: Masked(s, labels)[i].0 == s[i].0
    ensures forall i | 0 <= i < |s| ::
      Masked(s, labels)[i].1 == s[i].1 || Masked(s, labels)[i].1.None?
  {
  }

  /**
   * After `remover_outliers` no value exceeds the limit; the index and the
   * length stay; the entries whose label no outlier carries are unchanged,
   * and every outlier has become NaN.
   */
  lemma OutliersRemoved<K>(s: seq<Entry<K>>, limite: real)
    ensures |WithoutOutliers(s, limite)| == |s|
    ensures forall i | 0 <= i < |s| :: !Above(WithoutOutliers(s, limite)[i].1, limite)
    ensures forall i | 0 <= i < |s| :: WithoutOutliers(s, limite)[i].0 == s[i].0
    ensures forall i | 0 <= i < |s| && s[i].0 !in OutlierLabels(s, limite) ::
      WithoutOutliers(s, limite)[i] == s[i]
    ensures forall i | 0 <= i < |s| && Above(s[i].1, limite) ::
      WithoutOutliers(s, limite)[i].1.None?
  {
    var r := WithoutOutliers(s, limite);
    forall i | 0 <= i < |s| ensures !Above(r[i].1, limite) {
      if s[i].0 !in OutlierLabels(s, limite) {
        assert !Above(s[i].1, limite);
      }
    }
  }

  /**
   * With distinct labels (a date index without repeats) an entry is changed
   * exactly when its value exceeds the limit: values up to the limit and NaN
   * are kept.
   */
  lemma OutliersExactly<K>(s: seq<Entry<K>>, limite: real)
    requires forall i, j | 0 <= i < j < |s| :: s[i].0 != s[j].0
    ensures forall i | 0 <= i < |s| :: WithoutOutliers(s, limite)[i] == s[i] <==> !Above(s[i].1, limite)
  {
    var r := WithoutOutliers(s, limite);
    forall i | 0 <= i < |s| ensures r[i] == s[i] <==> !Above(s[i].1, limite) {
      if !Above(s[i].1, limite) && s[i].0 in OutlierLabels(s, limite) {
        var j :| 0 <= j < |s| && Above(s[j].1, limite) && s[j].0 == s[i].0;
      }
    }
  }

  /** A label shared with an outlier drags its other entries to NaN as well. */
  lemma SharedLabelMasked()
    ensures WithoutOutliers([(7, Some(500.0)), (7, Some(1.0))], DefaultLimit) == [(7, None), (7, None)]
  {
    var s := [(7, Some(500.0)), (7, Some(1.0))];
    assert Above(s[0].1, DefaultLimit);
    assert 7 in OutlierLabels(s, DefaultLimit);
  }

  /** A second `remover_outliers` finds nothing more to mask. */
  lemma OutliersIdempotent<K>(s: seq<Entry<K>>, limite: real)
    ensures WithoutOutliers(WithoutOutliers(s, limite), limite) == WithoutOutliers(s, limite)
  {
    var r := WithoutOutliers(s, limite);
    OutliersRemoved(s, limite);
    assert OutlierLabels(r, limite) == {};
  }

  /**
   * After `dropar_negativos` no negative value remains; the index stays,
   * entries whose label no negative value carries are unchanged and every
   * negative value has become NaN.
   */
  lemma NegativesDropped<K>(s: seq<Entry<K>>)
    ensures |WithoutNegatives(s)| == |s|
    ensures forall i | 0 <= i < |s| :: !Negative(WithoutNegatives(s)[i].1)
    ensures forall i | 0 <= i < |s| :: WithoutNegatives(s)[i].0 == s[i].0
    ensures forall i | 0 <= i < |s| && s[i].0 !in NegativeLabels(s) :: WithoutNegatives(s)[i] == s[i]
    ensures forall i | 0 <= i < |s| && Negative(s[i].1) :: WithoutNegatives(s)[i].1.None?
  {
    var r := WithoutNegatives(s);
    forall i | 0 <= i < |s| ensures !Negative(r[i].1) {
      if s[i].0 !in NegativeLabels(s) {
        assert !Negative(s[i].1);
      }
    }
  }

  /** With distinct labels an entry is changed exactly when its value is negative. */
  lemma NegativesExactly<K>(s: seq<Entry<K>>)
    requires forall i, j | 0 <= i < j < |s| :: s[i].0 != s[j].0
    ensures forall i | 0 <= i < |s| :: WithoutNegatives(s)[i] == s[i] <==> !Negative(s[i].1)
  {
    var r := WithoutNegatives(s);
    forall i | 0 <= i < |s| ensures r[i] == s[i] <==> !Negative(s[i].1) {
      if !Negative(s[i].1) && s[i].0 in NegativeLabels(s) {
        var j :| 0 <= j < |s| && Negative(s[j].1) && s[j].0 == s[i].0;
      }
    }
  }

  lemma NegativesIdempotent<K>(s: seq<Entry<K>>)
    ensures WithoutNegatives(WithoutNegatives(s)) == WithoutNegatives(s)
  {
    var r := WithoutNegatives(s);
    NegativesDropped(s);
    assert NegativeLabels(r) == {};
  }

  /** `serie.isna().sum()`. */
  function Missing<K(==)>(s: seq<Entry<K>>): (n: nat)
    ensures n <= |s|
    ensures n == 0 <==> forall i | 0 <= i < |s| :: s[i].1.Some?
    ensures n == |s| <==> forall i | 0 <= i < |s| :: s[i].1.None?
  {
    if s == [] then 0
    else
      assert forall i | 0 <= i < |s[1..]| :: s[1..][i] == s[i + 1];
      (if s[0].1.None? then 1 else 0) + Missing(s[1..])
  }

  /**
   * `contabilizar_falhas`: the number of NaN entries over the length, a
   * fraction in [0, 1]; 0 exactly when nothing is missing, 1 exactly when
   * everything is. An empty series divides zero by zero, which numpy
   * answers with NaN.
   */
  function FailureRate<K(==)>(s: seq<Entry<K>>): (r: Option<real>)
    ensures r.None? <==> s == []
    ensures r.Some? ==> 0.0 <= r.value <= 1.0 && r.value * (|s| as real) == Missing(s) as real
    ensures r.Some? ==> (r.value == 0.0 <==> forall i | 0 <= i < |s| :: s[i].1.Some?)
    ensures r.Some? ==> (r.value == 1.0 <==> forall i | 0 <= i < |s| :: s[i].1.None?)
  {
    if |s| == 0 then None
    else
      Fraction(Missing(s), |s|);
      Some(Missing(s) as real / |s| as real)
  }

  lemma Fraction(m: nat, n: nat)
    requires 0 < n && m <= n
    ensures 0.0 <= (m as real) / (n as real) <= 1.0
    ensures ((m as real) / (n as real)) * (n as real) == m as real
    ensures (m as real) / (n as real) == 0.0 <==> m == 0
    ensures (m as real) / (n as real) == 1.0 <==> m == n
  {
  }

  /** Masking never removes a NaN, so it can only add to the count of failures. */
  lemma {:induction false} MaskingAddsMissing<K>(s: seq<Entry<K>>, labels: set<K>)
    ensures Missing(s) <= Missing(Masked(s, labels))
    decreases |s|
  {
    if s != [] {
      MaskingAddsMissing(s[1..], labels);
      assert Masked(s, labels)[1..] == Masked(s[1..], labels);
    }
  }

  lemma FractionMonotone(m: nat, m': nat, n: nat)
    requires 0 < n && m <= m'
    ensures (m as real) / (n as real) <= (m' as real) / (n as real)
  {
  }

  /** Removing outliers or negatives never lowers the fraction of failures. */
  lemma CleaningRaisesFailureRate<K>(s: seq<Entry<K>>, limite: real)
    requires s != []
    ensures FailureRate(s).value <= FailureRate(WithoutOutliers(s, limite)).value
    ensures FailureRate(s).value <= FailureRate(WithoutNegatives(s)).value
  {
    var a, b := WithoutOutliers(s, limite), WithoutNegatives(s);
    MaskingAddsMissing(s, OutlierLabels(s, limite));
    MaskingAddsMissing(s, NegativeLabels(s));
    FractionMonotone(Missing(s), Missing(a), |s|);
    FractionMonotone(Missing(s), Missing(b), |s|);
  }
}
