/**
 * Longitude normalisation of a gridded dataset: the longitude coordinate
 * is moved from [0, 360) to [-180, 180) by `((lon + 180) % 360) - 180` and
 * the dataset is then sorted along that axis.
 *
 * Longitudes are integers in hundredths of a degree, so the constants
 * 180 and 360 of the source appear scaled by `PerDegree`.
 */
module Grade {
  import opened Sorting

  /** Coordinate steps per degree. */
  const PerDegree: int := 100
  const HalfTurn: int := 180 * PerDegree
  const Turn: int := 360 * PerDegree

  /** A longitude in the half-open range the conversion targets. */
  predicate InLimits(lon: int) { -HalfTurn <= lon < HalfTurn }

  /**
   * `((lon + 180) % 360) - 180`. Python's `%` with a positive divisor has
   * the sign of the divisor, as Dafny's does.
   */
  function ToLimits180(lon: int): (r: int)
    ensures InLimits(r)
    ensures (r - lon) % Turn == 0
  {
    ((lon + HalfTurn) % Turn) - HalfTurn
  }

  /** The converted value is the only one in [-180, 180) congruent to the original. */
  lemma ToLimits180Unique(lon: int, other: int)
    requires InLimits(other) && (other - lon) % Turn == 0
    ensures other == ToLimits180(lon)
  {
    var r := ToLimits180(lon);
    assert (other - r) % Turn == 0 by {
      Congruent(other, lon, r);
    }
    assert -Turn < other - r < Turn;
  }

  lemma Congruent(a: int, b: int, c: int)
    requires (a - b) % Turn == 0 && (c - b) % Turn == 0
    ensures (a - c) % Turn == 0
  {
    var k, l := (a - b) / Turn, (c - b) / Turn;
    assert a - c == (k - l) * Turn;
  }

  /** A longitude already in [-180, 180) is left unchanged, so converting twice is converting once. */
  lemma ToLimits180Idempotent(lon: int)
    ensures InLimits(lon) ==> ToLimits180(lon) == lon
    ensures ToLimits180(ToLimits180(lon)) == ToLimits180(lon)
  {
    if InLimits(lon) {
      ToLimits180Unique(lon, lon);
    }
    ToLimits180Unique(ToLimits180(lon), ToLimits180(lon));
  }

  /** On a [0, 360) axis, longitudes below 180 stay and the others lose 360. */
  lemma FromZeroTo360(lon: int)
    requires 0 <= lon < Turn
    ensures lon < HalfTurn ==> ToLimits180(lon) == lon
    ensures lon >= HalfTurn ==> ToLimits180(lon) == lon - Turn
  {
    if lon < HalfTurn {
      ToLimits180Unique(lon, lon);
    } else {
      assert (lon - Turn - lon) % Turn == 0;
      ToLimits180Unique(lon, lon - Turn);
    }
  }

  function Identity(x: int): int { x }

  /** The converted longitude axis: `assign_coords(longitude=...)` followed by `sortby`. */
  function ConvertAxis(lons: seq<int>): seq<int>
  {
    SortByKey(seq(|lons|, i requires 0 <= i < |lons| => ToLimits180(lons[i])), Identity)
  }

  /**
   * The converted axis is ascending, a permutation of the converted
   * coordinates, and every coordinate on it lies in [-180, 180).
   */
  lemma ConvertAxisFacts(lons: seq<int>)
    ensures |ConvertAxis(lons)| == |lons|
    ensures forall i, j | 0 <= i < j < |lons| :: ConvertAxis(lons)[i] <= ConvertAxis(lons)[j]
    ensures multiset(ConvertAxis(lons)) ==
      multiset(seq(|lons|, i requires 0 <= i < |lons| => ToLimits180(lons[i])))
    ensures forall i | 0 <= i < |lons| :: InLimits(ConvertAxis(lons)[i])
  {
    var converted := seq(|lons|, i requires 0 <= i < |lons| => ToLimits180(lons[i]));
    var r := ConvertAxis(lons);
    SortIsSorted(converted, Identity);
    SortIsPermutation(converted, Identity);
    forall i | 0 <= i < |r| ensures InLimits(r[i]) {
      assert r[i] in multiset(converted);
      var j :| 0 <= j < |converted| && converted[j] == r[i];
    }
    forall i, j | 0 <= i < j < |r| ensures r[i] <= r[j] {
      assert Identity(r[i]) <= Identity(r[j]);
    }
  }

  /** An axis already ascending within [-180, 180) comes out as it went in. */
  lemma ConvertAxisKeepsNormalised(lons: seq<int>)
    requires forall i | 0 <= i < |lons| :: InLimits(lons[i])
    requires forall i, j | 0 <= i < j < |lons| :: lons[i] <= lons[j]
    ensures ConvertAxis(lons) == lons
  {
    var converted := seq(|lons|, i requires 0 <= i < |lons| => ToLimits180(lons[i]));
    forall i | 0 <= i < |lons| ensures converted[i] == lons[i] {
      ToLimits180Idempotent(lons[i]);
    }
    assert converted == lons;
    assert SortedBy(lons, Identity);
    SortSortedIsIdentity(lons, Identity);
  }
}
