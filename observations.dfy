/**
  What both summarisers share: a survey record annotated with its distance
  and bearing from the query origin, row selection (pandas boolean masks),
  the inclusive date windows, and the nearest-record lookup (`idxmin` on
  `distance_km`, reported as distance plus compass direction, or a
  "No ... found" message for an empty pool).
*/
module Observations {
  import Compass

  /** One survey record. `species` is the bat detection label or the herp
      scientific name; `distanceKm` (geodesic) and `bearing` (normalised
      initial bearing) are measured from the query origin; `date` is the
      observation day as yyyymmdd; `detail` holds the dataset's own columns. */
  datatype Obs<D> = Obs(
    species: string,
    distanceKm: real,
    bearing: real,
    latitude: real,
    longitude: real,
    date: int,
    detail: D)

  /** The two windows both summaries search, as yyyymmdd bounds, inclusive. */
  const FiveYearStart: int := 20180101
  const TenYearStart: int := 20130101
  const WindowEnd: int := 20231231
  const Suffix2018: string := " for 2018-2023"
  const Suffix2013: string := " for 2013-2023"

  /** `df[mask]`: the rows `keep` accepts, in their original order. */
  function Filter<T(!new)>(s: seq<T>, keep: T -> bool): (r: seq<T>)
    ensures |r| <= |s|
  {
    if |s| == 0 then [] else (if keep(s[0]) then [s[0]] else []) + Filter(s[1..], keep)
  }

  /** The selection keeps exactly the rows `keep` accepts. */
  lemma {:induction false} FilterMembers<T(!new)>(s: seq<T>, keep: T -> bool)
    ensures forall x :: x in Filter(s, keep) <==> x in s && keep(x)
  {
    if |s| > 0 {
      FilterMembers(s[1..], keep);
      assert s == [s[0]] + s[1..];
    }
  }

  /** Selecting rows distributes over concatenation. */
  lemma {:induction false} FilterAppend<T(!new)>(a: seq<T>, b: seq<T>, keep: T -> bool)
    ensures Filter(a + b, keep) == Filter(a, keep) + Filter(b, keep)
  {
    if |a| > 0 {
      assert (a + b)[1..] == a[1..] + b;
      FilterAppend(a[1..], b, keep);
    } else {
      assert a + b == b;
    }
  }

  lemma FilterSnoc<T(!new)>(a: seq<T>, x: T, keep: T -> bool)
    ensures Filter(a + [x], keep) == Filter(a, keep) + (if keep(x) then [x] else [])
  {
    FilterAppend(a, [x], keep);
    assert Filter([x], keep) == (if keep(x) then [x] else []) + Filter([x][1..], keep);
  }

  /** Both selections at once (`mask1 & mask2`). */
  function AndAlso<T>(p: T -> bool, q: T -> bool): T -> bool
  {
    x => p(x) && q(x)
  }

  /** The selection that accepts nothing. */
  function Never<T>(): T -> bool
  {
    x => false
  }

  lemma FilterNever<T(!new)>(s: seq<T>)
    ensures Filter(s, Never()) == []
  {
  }

  /** Selecting twice is selecting by the conjunction. */
  lemma {:induction false} FilterFilter<T(!new)>(s: seq<T>, p: T -> bool, q: T -> bool)
    ensures Filter(Filter(s, p), q) == Filter(s, AndAlso(p, q))
  {
    if |s| > 0 {
      FilterFilter(s[1..], p, q);
      var head := if p(s[0]) then [s[0]] else [];
      FilterAppend(head, Filter(s[1..], p), q);
      assert Filter(head, q) == (if p(s[0]) && q(s[0]) then [s[0]] else []) by {
        if p(s[0]) { FilterSnoc([], s[0], q); assert [] + [s[0]] == [s[0]]; }
      }
    }
  }

  /** Selections by predicates that agree everywhere are the same. */
  lemma {:induction false} FilterExt<T(!new)>(s: seq<T>, p: T -> bool, q: T -> bool)
    requires forall x :: p(x) == q(x)
    ensures Filter(s, p) == Filter(s, q)
  {
    if |s| > 0 {
      FilterExt(s[1..], p, q);
    }
  }

  /** Three selections and two selections that together accept every row
      equally often keep equally many rows in total. */
  lemma {:induction false} FilterCountsAgree<T(!new)>(s: seq<T>, p1: T -> bool, p2: T -> bool, p3: T -> bool, q1: T -> bool, q2: T -> bool)
    requires forall x ::
      (if p1(x) then 1 else 0) + (if p2(x) then 1 else 0) + (if p3(x) then 1 else 0)
      == (if q1(x) then 1 else 0) + (if q2(x) then 1 else 0)
    ensures |Filter(s, p1)| + |Filter(s, p2)| + |Filter(s, p3)| == |Filter(s, q1)| + |Filter(s, q2)|
  {
    if |s| > 0 {
      FilterCountsAgree(s[1..], p1, p2, p3, q1, q2);
    }
  }

  /** A selection that accepts exactly the rows one of two exclusive
      selections accepts keeps as many rows as the two together. */
  lemma {:induction false} FilterDisjointUnion<T(!new)>(s: seq<T>, p: T -> bool, q1: T -> bool, q2: T -> bool)
    requires forall x :: p(x) == (q1(x) || q2(x))
    requires forall x :: !(q1(x) && q2(x))
    ensures |Filter(s, p)| == |Filter(s, q1)| + |Filter(s, q2)|
  {
    if |s| > 0 {
      FilterDisjointUnion(s[1..], p, q1, q2);
    }
  }

  /** A selection every row passes keeps the whole sequence. */
  lemma {:induction false} FilterKeepsAll<T(!new)>(s: seq<T>, keep: T -> bool)
    requires forall x :: x in s ==> keep(x)
    ensures Filter(s, keep) == s
  {
    if |s| > 0 {
      FilterKeepsAll(s[1..], keep);
      assert s == [s[0]] + s[1..];
    }
  }

  /** A selection no row passes keeps nothing. */
  lemma {:induction false} FilterKeepsNone<T(!new)>(s: seq<T>, keep: T -> bool)
    requires forall x :: x in s ==> !keep(x)
    ensures Filter(s, keep) == []
  {
    if |s| > 0 {
      FilterKeepsNone(s[1..], keep);
    }
  }

  /** A weaker selection keeps at least as many rows. */
  lemma {:induction false} FilterWeaker<T(!new)>(s: seq<T>, p: T -> bool, q: T -> bool)
    requires forall x :: p(x) ==> q(x)
    ensures |Filter(s, p)| <= |Filter(s, q)|
  {
    if |s| > 0 {
      FilterWeaker(s[1..], p, q);
    }
  }

  /** A selection and its complement share the rows out between them. */
  lemma {:induction false} FilterSplit<T(!new)>(s: seq<T>, p: T -> bool, q: T -> bool)
    requires forall x :: q(x) == !p(x)
    ensures |Filter(s, p)| + |Filter(s, q)| == |s|
  {
    if |s| > 0 {
      FilterSplit(s[1..], p, q);
    }
  }

  /** Three mutually exclusive selections that all imply `q` together keep no
      more rows than `q` does. */
  lemma {:induction false} FilterDisjointBound<T(!new)>(s: seq<T>, p1: T -> bool, p2: T -> bool, p3: T -> bool, q: T -> bool)
    requires forall x :: (p1(x) || p2(x) || p3(x)) ==> q(x)
    requires forall x :: !(p1(x) && p2(x)) && !(p1(x) && p3(x)) && !(p2(x) && p3(x))
    ensures |Filter(s, p1)| + |Filter(s, p2)| + |Filter(s, p3)| <= |Filter(s, q)|
  {
    if |s| > 0 {
      FilterDisjointBound(s[1..], p1, p2, p3, q);
    }
  }

  /** `distance_km <= radius_km`. */
  function Within<D>(radius: int): Obs<D> -> bool
  {
    (r: Obs<D>) => r.distanceKm <= radius as real
  }

  /** `df[species_column] == name`. */
  function SpeciesIs<D>(name: string): Obs<D> -> bool
  {
    (r: Obs<D>) => r.species == name
  }

  /** `df[species_column] != name`. */
  function SpeciesIsNot<D>(name: string): Obs<D> -> bool
  {
    (r: Obs<D>) => r.species != name
  }

  /** `(date >= from) & (date <= to)`. */
  function DatedWithin<D>(from: int, to: int): Obs<D> -> bool
  {
    (r: Obs<D>) => from <= r.date <= to
  }

  /** The position `idxmin` picks: the first record of least distance. */
  function FirstNearest<D>(s: seq<Obs<D>>): (k: nat)
    requires |s| > 0
    ensures k < |s|
    ensures forall j :: 0 <= j < |s| ==> s[k].distanceKm <= s[j].distanceKm
    ensures forall j :: 0 <= j < k ==> s[j].distanceKm > s[k].distanceKm
  {
    if |s| == 1 then 0
    else
      var k := FirstNearest(s[..|s| - 1]);
      if s[|s| - 1].distanceKm < s[k].distanceKm then |s| - 1 else k
  }

  /** The scan behind `idxmin`: keeps the earliest strictly smaller distance. */
  method IndexOfNearest<D>(s: seq<Obs<D>>) returns (k: nat)
    requires |s| > 0
    ensures k == FirstNearest(s)
  {
    k := 0;
    var i := 1;
    while i < |s|
      invariant 1 <= i <= |s|
      invariant k == FirstNearest(s[..i])
    {
      assert s[..i + 1][..i] == s[..i];
      if s[i].distanceKm < s[k].distanceKm {
        k := i;
      }
      i := i + 1;
    }
    assert s[..i] == s;
  }

  /** One cell of a nearest-record column: `"{distance:.1f} km {direction}"`
      (kept as its two parts; the float rendering is not modelled) or the
      "No records/roosts found" message. */
  datatype NearestInfo =
    | Found(distanceKm: real, direction: Compass.Direction)
    | NotFound(message: string)

  /** The nearest record of `pool`, or "No <noun> found<suffix>" when the pool
      is empty. A reported distance is attained by a record of the pool and is
      at most every distance in it. */
  function NearestOf<D>(pool: seq<Obs<D>>, noun: string, suffix: string): (info: NearestInfo)
    ensures info.NotFound? <==> |pool| == 0
    ensures info.NotFound? ==> info.message == "No " + noun + " found" + suffix
  {
    if |pool| == 0 then NotFound("No " + noun + " found" + suffix)
    else
      var r := pool[FirstNearest(pool)];
      Found(r.distanceKm, Compass.CalculateDirection(r.bearing))
  }

  /** A reported distance is attained by a record of the pool, whose
      direction is reported, and is at most every distance in the pool. */
  lemma NearestOfIsNearest<D>(pool: seq<Obs<D>>, noun: string, suffix: string)
    ensures var info := NearestOf(pool, noun, suffix);
      info.Found? ==> exists r :: r in pool && r.distanceKm == info.distanceKm
                                  && info.direction == Compass.CalculateDirection(r.bearing)
    ensures var info := NearestOf(pool, noun, suffix);
      info.Found? ==> forall r :: r in pool ==> info.distanceKm <= r.distanceKm
  {
    if |pool| > 0 {
      var k := FirstNearest(pool);
      assert pool[k] in pool;
    }
  }

  /** The nearest-record lookup as the summarisers run it. */
  method FindNearest<D>(pool: seq<Obs<D>>, noun: string, suffix: string) returns (info: NearestInfo)
    ensures info == NearestOf(pool, noun, suffix)
  {
    if |pool| == 0 {
      info := NotFound("No " + noun + " found" + suffix);
    } else {
      var k := IndexOfNearest(pool);
      info := Found(pool[k].distanceKm, Compass.CalculateDirection(pool[k].bearing));
    }
  }

  /** Widening the radius keeps every record the narrower radius kept, so no
      count taken over the in-radius rows can drop. */
  lemma {:induction false} WiderRadiusKeepsMore<D(!new)>(s: seq<Obs<D>>, r1: int, r2: int, keep: Obs<D> -> bool)
    requires r1 <= r2
    ensures forall x :: x in Filter(s, Within(r1)) ==> x in Filter(s, Within(r2))
    ensures |Filter(Filter(s, Within(r1)), keep)| <= |Filter(Filter(s, Within(r2)), keep)|
  {
    FilterMembers(s, Within(r1));
    FilterMembers(s, Within(r2));
    FilterFilter(s, Within(r1), keep);
    FilterFilter(s, Within(r2), keep);
    FilterWeaker(s, AndAlso(Within(r1), keep), AndAlso(Within(r2), keep));
  }

  /** Searching a larger pool never reports a farther record, and finds one
      whenever the smaller pool does. */
  lemma NearerInLargerPool<D>(small: seq<Obs<D>>, large: seq<Obs<D>>, noun: string, s1: string, s2: string)
    requires forall r :: r in small ==> r in large
    ensures NearestOf(small, noun, s1).Found? ==> NearestOf(large, noun, s2).Found?
    ensures NearestOf(small, noun, s1).Found? ==>
      NearestOf(large, noun, s2).distanceKm <= NearestOf(small, noun, s1).distanceKm
  {
    var a := NearestOf(small, noun, s1);
    NearestOfIsNearest(small, noun, s1);
    NearestOfIsNearest(large, noun, s2);
    if a.Found? {
      var r :| r in small && r.distanceKm == a.distanceKm;
      assert r in large;
    }
  }

  /** The 2018-2023 window lies inside the 2013-2023 window, which lies inside
      the whole pool; so the nearest distances can only shrink as the window
      widens, and a record found in a narrower window is found in the wider. */
  lemma {:induction false} WindowsNest<D(!new)>(pool: seq<Obs<D>>, noun: string)
    ensures var all := NearestOf(pool, noun, "");
            var ten := NearestOf(Filter(pool, DatedWithin(TenYearStart, WindowEnd)), noun, Suffix2013);
            var five := NearestOf(Filter(pool, DatedWithin(FiveYearStart, WindowEnd)), noun, Suffix2018);
            && (five.Found? ==> ten.Found? && ten.distanceKm <= five.distanceKm)
            && (ten.Found? ==> all.Found? && all.distanceKm <= ten.distanceKm)
  {
    var tenPool := Filter(pool, DatedWithin(TenYearStart, WindowEnd));
    var fivePool := Filter(pool, DatedWithin(FiveYearStart, WindowEnd));
    FilterMembers(pool, DatedWithin(TenYearStart, WindowEnd));
    FilterMembers(pool, DatedWithin(FiveYearStart, WindowEnd));
    assert forall r :: r in fivePool ==> r in tenPool by {
      forall r | r in fivePool ensures r in tenPool {
        assert DatedWithin<D>(FiveYearStart, WindowEnd)(r);
        assert DatedWithin<D>(TenYearStart, WindowEnd)(r);
      }
    }
    NearerInLargerPool(fivePool, tenPool, noun, Suffix2018, Suffix2013);
    NearerInLargerPool(tenPool, pool, noun, Suffix2013, "");
  }
}
