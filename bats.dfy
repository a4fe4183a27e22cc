/**
  The bat summariser (`process_bat_data`): radius-scoped event counts over the
  "Both species detected" expansion, and the per-species nearest record and
  nearest roost table over the whole, un-expanded dataset in three pools
  (all time, 2013-2023, 2018-2023).
*/
module Bats {
  import opened Observations
  import Compass

  const LongTailed: string := "Chalinolobus tuberculatus"
  const ShortTailed: string := "Mystacina tuberculata"
  const BothSpecies: string := "Both species detected"
  const UnknownBat: string := "Unknown bat species"
  const NoBat: string := "No bat species detected"

  /** The bat dataset's own columns. `roost` is the integer the loader
      coerces the column to (a missing value becomes 0); the other columns
      are carried through to the export as their text. */
  datatype BatDetail = BatDetail(
    roost: int,
    locationName: string,
    passes: string,
    detectorType: string,
    nightsOut: string,
    surveyMethod: string)

  type BatObs = Obs<BatDetail>

  /** `roost == 1`. */
  function IsRoost(): BatObs -> bool
  {
    (r: BatObs) => r.detail.roost == 1
  }

  /** `(batspecies == name) & (roost == 1)`. */
  function RoostOf(name: string): BatObs -> bool
  {
    (r: BatObs) => r.species == name && r.detail.roost == 1
  }

  /** A copy of `rows` with the species column set to `name`. */
  function Relabel(rows: seq<BatObs>, name: string): (r: seq<BatObs>)
    ensures |r| == |rows|
    ensures forall i :: 0 <= i < |rows| ==> r[i] == rows[i].(species := name)
  {
    if |rows| == 0 then [] else [rows[0].(species := name)] + Relabel(rows[1..], name)
  }

  /** `pd.concat([df[~both], both as long-tailed, both as short-tailed])`. */
  function ExpandParts(df: seq<BatObs>): seq<BatObs>
  {
    var both := Filter(df, SpeciesIs(BothSpecies));
    Filter(df, SpeciesIsNot(BothSpecies)) + Relabel(both, LongTailed) + Relabel(both, ShortTailed)
  }

  /** The counting view: each "Both species detected" record is replaced by one
      long-tailed and one short-tailed copy; without such records the data set
      is used as it is. */
  function Expand(df: seq<BatObs>): seq<BatObs>
  {
    if |Filter(df, SpeciesIs(BothSpecies))| > 0 then ExpandParts(df) else df
  }

  /** Both branches of the expansion agree: with no "Both" record the
      concatenation is the data set itself. */
  lemma {:induction false} ExpandWithoutBoth(df: seq<BatObs>)
    requires |Filter(df, SpeciesIs(BothSpecies))| == 0
    ensures ExpandParts(df) == df
  {
    if |df| > 0 {
      ExpandWithoutBoth(df[1..]);
      assert df == [df[0]] + df[1..];
    }
  }

  /** The expansion has one extra record per "Both" record, none of its
      records is labelled "Both", and it holds exactly one long-tailed and one
      short-tailed copy of each "Both" record. */
  lemma ExpandShape(df: seq<BatObs>)
    ensures |Expand(df)| == |df| + |Filter(df, SpeciesIs(BothSpecies))|
    ensures forall r :: r in Expand(df) ==> r.species != BothSpecies
    ensures forall r :: r in df && r.species != BothSpecies ==> r in Expand(df)
    ensures forall r :: r in df && r.species == BothSpecies ==>
      r.(species := LongTailed) in Expand(df) && r.(species := ShortTailed) in Expand(df)
  {
    if |Filter(df, SpeciesIs(BothSpecies))| > 0 {
      FilterSplit(df, SpeciesIsNot(BothSpecies), SpeciesIs(BothSpecies));
      ExpandPartsCopies(df);
      ExpandPartsLabels(df);
    }
  }

  lemma ExpandPartsCopies(df: seq<BatObs>)
    ensures forall r :: r in df && r.species == BothSpecies ==>
      r.(species := LongTailed) in ExpandParts(df) && r.(species := ShortTailed) in ExpandParts(df)
  {
    var both := Filter(df, SpeciesIs(BothSpecies));
    var a, b, c := Filter(df, SpeciesIsNot(BothSpecies)), Relabel(both, LongTailed), Relabel(both, ShortTailed);
    assert ExpandParts(df) == a + b + c;
    FilterMembers(df, SpeciesIs(BothSpecies));
    forall r | r in df && r.species == BothSpecies
      ensures r.(species := LongTailed) in ExpandParts(df) && r.(species := ShortTailed) in ExpandParts(df)
    {
      assert r in both;
      var i :| 0 <= i < |both| && both[i] == r;
      assert b[i] == r.(species := LongTailed);
      assert c[i] == r.(species := ShortTailed);
    }
  }

  lemma ExpandPartsLabels(df: seq<BatObs>)
    ensures forall r :: r in ExpandParts(df) ==> r.species != BothSpecies
    ensures forall r :: r in df && r.species != BothSpecies ==> r in ExpandParts(df)
  {
    var both := Filter(df, SpeciesIs(BothSpecies));
    var a, b, c := Filter(df, SpeciesIsNot(BothSpecies)), Relabel(both, LongTailed), Relabel(both, ShortTailed);
    assert ExpandParts(df) == a + b + c;
    FilterMembers(df, SpeciesIsNot(BothSpecies));
    forall r | r in ExpandParts(df) ensures r.species != BothSpecies {
      assert r in a || r in b || r in c;
    }
    forall r | r in df && r.species != BothSpecies ensures r in ExpandParts(df) {
      assert r in a;
    }
  }

  /** A "Both" record whose copy under the species `name` `keep` accepts. */
  function AsCopy(name: string, keep: BatObs -> bool): BatObs -> bool
  {
    (r: BatObs) => r.species == BothSpecies && keep(r.(species := name))
  }

  lemma {:induction false} RelabelledCount(df: seq<BatObs>, name: string, keep: BatObs -> bool)
    ensures |Filter(Relabel(Filter(df, SpeciesIs(BothSpecies)), name), keep)| == |Filter(df, AsCopy(name, keep))|
  {
    if |df| > 0 {
      var x, rest := df[0], df[1..];
      RelabelledCount(rest, name, keep);
      var b' := Filter(rest, SpeciesIs(BothSpecies));
      var copy := AsCopy(name, keep);
      assert Filter(df, copy) == (if copy(x) then [x] else []) + Filter(rest, copy);
      if x.species == BothSpecies {
        assert Filter(df, SpeciesIs(BothSpecies)) == [x] + b';
        var copies := Relabel([x] + b', name);
        assert copies[1..] == Relabel(b', name);
        assert Filter(copies, keep) == (if keep(copies[0]) then [copies[0]] else []) + Filter(copies[1..], keep);
        assert copy(x) == keep(copies[0]);
      } else {
        assert Filter(df, SpeciesIs(BothSpecies)) == b';
      }
    }
  }

  /** How many of the records that `r` expands into `keep` accepts. */
  function ExpandedWeight(r: BatObs, keep: BatObs -> bool): nat
  {
    if r.species == BothSpecies then
      (if keep(r.(species := LongTailed)) then 1 else 0) + (if keep(r.(species := ShortTailed)) then 1 else 0)
    else if keep(r) then 1 else 0
  }

  /** Counting `keep` over the expansion, when each record contributes as
      much as `k1` and `k2` together accept of it. */
  lemma ExpandedCount(df: seq<BatObs>, keep: BatObs -> bool, k1: BatObs -> bool, k2: BatObs -> bool)
    requires forall r :: ExpandedWeight(r, keep) == (if k1(r) then 1 else 0) + (if k2(r) then 1 else 0)
    ensures |Filter(Expand(df), keep)| == |Filter(df, k1)| + |Filter(df, k2)|
  {
    if |Filter(df, SpeciesIs(BothSpecies))| == 0 {
      ExpandWithoutBoth(df);
    }
    var notBoth, both := Filter(df, SpeciesIsNot(BothSpecies)), Filter(df, SpeciesIs(BothSpecies));
    FilterAppend(notBoth + Relabel(both, LongTailed), Relabel(both, ShortTailed), keep);
    FilterAppend(notBoth, Relabel(both, LongTailed), keep);
    FilterFilter(df, SpeciesIsNot(BothSpecies), keep);
    RelabelledCount(df, LongTailed, keep);
    RelabelledCount(df, ShortTailed, keep);
    FilterCountsAgree(df, AndAlso(SpeciesIsNot(BothSpecies), keep), AsCopy(LongTailed, keep), AsCopy(ShortTailed, keep), k1, k2);
  }

  /** The radius-scoped counts of `process_bat_data`. */
  datatype BatCounts = BatCounts(
    totalEvents: nat,
    positiveDetections: nat,
    longTailed: nat,
    shortTailed: nat,
    unknownSpecies: nat,
    longTailedRoosts: nat,
    shortTailedRoosts: nat)

  /** The counts over a (counting-view) record sequence, as the source takes
      them from `radius_df`. */
  function CountsOf(rows: seq<BatObs>, radius: int): BatCounts
  {
    var inRadius := Filter(rows, Within(radius));
    BatCounts(
      |inRadius|,
      |Filter(inRadius, SpeciesIsNot(NoBat))|,
      |Filter(inRadius, SpeciesIs(LongTailed))|,
      |Filter(inRadius, SpeciesIs(ShortTailed))|,
      |Filter(inRadius, SpeciesIs(UnknownBat))|,
      |Filter(inRadius, RoostOf(LongTailed))|,
      |Filter(inRadius, RoostOf(ShortTailed))|)
  }

  /** One more record changes each count by whether it is in radius and
      carries that count's label. */
  lemma CountsOfSnoc(rows: seq<BatObs>, r: BatObs, radius: int)
    ensures var c, c' := CountsOf(rows, radius), CountsOf(rows + [r], radius);
      if r.distanceKm <= radius as real then
        && c'.totalEvents == c.totalEvents + 1
        && c'.positiveDetections == c.positiveDetections + (if r.species != NoBat then 1 else 0)
        && c'.longTailed == c.longTailed + (if r.species == LongTailed then 1 else 0)
        && c'.shortTailed == c.shortTailed + (if r.species == ShortTailed then 1 else 0)
        && c'.unknownSpecies == c.unknownSpecies + (if r.species == UnknownBat then 1 else 0)
        && c'.longTailedRoosts == c.longTailedRoosts + (if r.species == LongTailed && r.detail.roost == 1 then 1 else 0)
        && c'.shortTailedRoosts == c.shortTailedRoosts + (if r.species == ShortTailed && r.detail.roost == 1 then 1 else 0)
      else c' == c
  {
    var inRadius := Filter(rows, Within(radius));
    FilterSnoc(rows, r, Within(radius));
    if r.distanceKm <= radius as real {
      FilterSnoc(inRadius, r, SpeciesIsNot(NoBat));
      FilterSnoc(inRadius, r, SpeciesIs(LongTailed));
      FilterSnoc(inRadius, r, SpeciesIs(ShortTailed));
      FilterSnoc(inRadius, r, SpeciesIs(UnknownBat));
      FilterSnoc(inRadius, r, RoostOf(LongTailed));
      FilterSnoc(inRadius, r, RoostOf(ShortTailed));
    } else {
      assert Filter(rows + [r], Within(radius)) == inRadius;
    }
  }

  /** The counting pass: one scan of the expanded records. */
  method CountBatEvents(expanded: seq<BatObs>, radius: int) returns (c: BatCounts)
    ensures c == CountsOf(expanded, radius)
  {
    var total, positive, longTailed, shortTailed, unknown, longRoosts, shortRoosts := 0, 0, 0, 0, 0, 0, 0;
    for i := 0 to |expanded|
      invariant BatCounts(total, positive, longTailed, shortTailed, unknown, longRoosts, shortRoosts)
                == CountsOf(expanded[..i], radius)
    {
      var r := expanded[i];
      CountsOfSnoc(expanded[..i], r, radius);
      assert expanded[..i + 1] == expanded[..i] + [r];
      if r.distanceKm <= radius as real {
        total := total + 1;
        if r.species != NoBat {
          positive := positive + 1;
        }
        if r.species == LongTailed {
          longTailed := longTailed + 1;
          if r.detail.roost == 1 {
            longRoosts := longRoosts + 1;
          }
        } else if r.species == ShortTailed {
          shortTailed := shortTailed + 1;
          if r.detail.roost == 1 {
            shortRoosts := shortRoosts + 1;
          }
        } else if r.species == UnknownBat {
          unknown := unknown + 1;
        }
      }
    }
    assert expanded[..|expanded|] == expanded;
    c := BatCounts(total, positive, longTailed, shortTailed, unknown, longRoosts, shortRoosts);
  }

  /** The counts of the expanded view, stated over the un-expanded records in
      radius: a "Both" record counts twice as an event and as a positive
      detection, once for each species, and its roost flag once per species. */
  lemma CountsOfExpansion(df: seq<BatObs>, radius: int)
    ensures var c, inRadius := CountsOf(Expand(df), radius), Filter(df, Within(radius));
      var both := |Filter(inRadius, SpeciesIs(BothSpecies))|;
      && c.totalEvents == |inRadius| + both
      && c.positiveDetections == |Filter(inRadius, SpeciesIsNot(NoBat))| + both
      && c.positiveDetections == c.totalEvents - |Filter(inRadius, SpeciesIs(NoBat))|
      && c.longTailed == |Filter(inRadius, SpeciesIs(LongTailed))| + both
      && c.shortTailed == |Filter(inRadius, SpeciesIs(ShortTailed))| + both
      && c.unknownSpecies == |Filter(inRadius, SpeciesIs(UnknownBat))|
      && c.longTailedRoosts == |Filter(inRadius, RoostOf(LongTailed))| + |Filter(inRadius, RoostOf(BothSpecies))|
      && c.shortTailedRoosts == |Filter(inRadius, RoostOf(ShortTailed))| + |Filter(inRadius, RoostOf(BothSpecies))|
  {
    var inRadius := Filter(df, Within(radius));
    TotalThroughExpansion(df, radius);
    CountThroughExpansion(df, radius, SpeciesIsNot(NoBat), SpeciesIs(BothSpecies));
    CountThroughExpansion(df, radius, SpeciesIs(LongTailed), SpeciesIs(BothSpecies));
    CountThroughExpansion(df, radius, SpeciesIs(ShortTailed), SpeciesIs(BothSpecies));
    CountThroughExpansion(df, radius, SpeciesIs(UnknownBat), Never());
    FilterNever(inRadius);
    CountThroughExpansion(df, radius, RoostOf(LongTailed), RoostOf(BothSpecies));
    CountThroughExpansion(df, radius, RoostOf(ShortTailed), RoostOf(BothSpecies));
    FilterSplit(inRadius, SpeciesIsNot(NoBat), SpeciesIs(NoBat));
  }

  lemma TotalThroughExpansion(df: seq<BatObs>, radius: int)
    ensures |Filter(Expand(df), Within(radius))|
      == |Filter(df, Within(radius))| + |Filter(Filter(df, Within(radius)), SpeciesIs(BothSpecies))|
  {
    var w: BatObs -> bool := Within(radius);
    ExpandedCount(df, w, w, AndAlso(w, SpeciesIs(BothSpecies)));
    FilterFilter(df, w, SpeciesIs(BothSpecies));
  }

  /** Counting `select` in radius over the expansion, when the two copies of a
      "Both" record contribute as `select` and `both` do on the original and
      `both` accepts only "Both" records. */
  lemma CountThroughExpansion(df: seq<BatObs>, radius: int, select: BatObs -> bool, both: BatObs -> bool)
    requires forall r: BatObs :: r.species != BothSpecies ==> !both(r)
    requires forall r: BatObs :: r.species == BothSpecies ==>
      (if select(r.(species := LongTailed)) then 1 else 0) + (if select(r.(species := ShortTailed)) then 1 else 0)
      == (if select(r) then 1 else 0) + (if both(r) then 1 else 0)
    ensures |Filter(Filter(Expand(df), Within(radius)), select)|
      == |Filter(Filter(df, Within(radius)), select)| + |Filter(Filter(df, Within(radius)), both)|
  {
    var w: BatObs -> bool := Within(radius);
    forall r: BatObs
      ensures ExpandedWeight(r, AndAlso(w, select))
              == (if AndAlso(w, select)(r) then 1 else 0) + (if AndAlso(w, both)(r) then 1 else 0)
    {
      assert w(r.(species := LongTailed)) == w(r) && w(r.(species := ShortTailed)) == w(r);
    }
    FilterFilter(Expand(df), w, select);
    ExpandedCount(df, AndAlso(w, select), AndAlso(w, select), AndAlso(w, both));
    FilterFilter(df, w, select);
    FilterFilter(df, w, both);
  }

  /** Bounds between the counts: a roost count never exceeds its species
      count, the three species counts together never exceed the positive
      detections, and those never exceed the events. */
  lemma CountBounds(rows: seq<BatObs>, radius: int)
    ensures var c := CountsOf(rows, radius);
      && c.longTailedRoosts <= c.longTailed
      && c.shortTailedRoosts <= c.shortTailed
      && c.longTailed + c.shortTailed + c.unknownSpecies <= c.positiveDetections
      && c.positiveDetections <= c.totalEvents
  {
    var inRadius := Filter(rows, Within(radius));
    FilterWeaker(inRadius, RoostOf(LongTailed), SpeciesIs(LongTailed));
    FilterWeaker(inRadius, RoostOf(ShortTailed), SpeciesIs(ShortTailed));
    FilterDisjointBound(inRadius, SpeciesIs(LongTailed), SpeciesIs(ShortTailed), SpeciesIs(UnknownBat), SpeciesIsNot(NoBat));
  }

  /** A wider radius never lowers any of the counts. */
  lemma CountsGrowWithRadius(rows: seq<BatObs>, r1: int, r2: int)
    requires r1 <= r2
    ensures var c1, c2 := CountsOf(rows, r1), CountsOf(rows, r2);
      && c1.totalEvents <= c2.totalEvents
      && c1.positiveDetections <= c2.positiveDetections
      && c1.longTailed <= c2.longTailed
      && c1.shortTailed <= c2.shortTailed
      && c1.unknownSpecies <= c2.unknownSpecies
      && c1.longTailedRoosts <= c2.longTailedRoosts
      && c1.shortTailedRoosts <= c2.shortTailedRoosts
  {
    FilterWeaker(rows, Within(r1), Within(r2));
    WiderRadiusKeepsMore(rows, r1, r2, SpeciesIsNot(NoBat));
    WiderRadiusKeepsMore(rows, r1, r2, SpeciesIs(LongTailed));
    WiderRadiusKeepsMore(rows, r1, r2, SpeciesIs(ShortTailed));
    WiderRadiusKeepsMore(rows, r1, r2, SpeciesIs(UnknownBat));
    WiderRadiusKeepsMore(rows, r1, r2, RoostOf(LongTailed));
    WiderRadiusKeepsMore(rows, r1, r2, RoostOf(ShortTailed));
  }

  /** One more single-label record in radius adds one event, and one to the
      count of its own label (and of its roosts, when it is a long- or
      short-tailed roost) and to no other. */
  lemma SingleLabelRecordCountsOnce(df: seq<BatObs>, r: BatObs, radius: int)
    requires r.species != BothSpecies && r.distanceKm <= radius as real
    ensures var before, after := CountsOf(Expand(df), radius), CountsOf(Expand(df + [r]), radius);
      var roost := r.detail.roost == 1;
      && after.totalEvents == before.totalEvents + 1
      && after.positiveDetections == before.positiveDetections + (if r.species != NoBat then 1 else 0)
      && after.longTailed == before.longTailed + (if r.species == LongTailed then 1 else 0)
      && after.shortTailed == before.shortTailed + (if r.species == ShortTailed then 1 else 0)
      && after.unknownSpecies == before.unknownSpecies + (if r.species == UnknownBat then 1 else 0)
      && after.longTailedRoosts == before.longTailedRoosts + (if r.species == LongTailed && roost then 1 else 0)
      && after.shortTailedRoosts == before.shortTailedRoosts + (if r.species == ShortTailed && roost then 1 else 0)
  {
    CountsOfExpansion(df, radius);
    CountsOfExpansion(df + [r], radius);
    var inRadius := Filter(df, Within(radius));
    FilterSnoc(df, r, Within(radius));
    FilterSnoc(inRadius, r, SpeciesIs(BothSpecies));
    FilterSnoc(inRadius, r, SpeciesIsNot(NoBat));
    FilterSnoc(inRadius, r, SpeciesIs(LongTailed));
    FilterSnoc(inRadius, r, SpeciesIs(ShortTailed));
    FilterSnoc(inRadius, r, SpeciesIs(UnknownBat));
    FilterSnoc(inRadius, r, RoostOf(LongTailed));
    FilterSnoc(inRadius, r, RoostOf(ShortTailed));
    FilterSnoc(inRadius, r, RoostOf(BothSpecies));
  }

  /** One more "Both species detected" record in radius adds two events and
      two positive detections, one to each species count and, when it is a
      roost, one to each roost count; the unknown-species count is unchanged. */
  lemma BothRecordCountsTwice(df: seq<BatObs>, r: BatObs, radius: int)
    requires r.species == BothSpecies && r.distanceKm <= radius as real
    ensures var before, after := CountsOf(Expand(df), radius), CountsOf(Expand(df + [r]), radius);
      var roost := if r.detail.roost == 1 then 1 else 0;
      && after.totalEvents == before.totalEvents + 2
      && after.positiveDetections == before.positiveDetections + 2
      && after.longTailed == before.longTailed + 1
      && after.shortTailed == before.shortTailed + 1
      && after.unknownSpecies == before.unknownSpecies
      && after.longTailedRoosts == before.longTailedRoosts + roost
      && after.shortTailedRoosts == before.shortTailedRoosts + roost
  {
    CountsOfExpansion(df, radius);
    CountsOfExpansion(df + [r], radius);
    var inRadius := Filter(df, Within(radius));
    FilterSnoc(df, r, Within(radius));
    FilterSnoc(inRadius, r, SpeciesIs(BothSpecies));
    FilterSnoc(inRadius, r, SpeciesIsNot(NoBat));
    FilterSnoc(inRadius, r, SpeciesIs(LongTailed));
    FilterSnoc(inRadius, r, SpeciesIs(ShortTailed));
    FilterSnoc(inRadius, r, SpeciesIs(UnknownBat));
    FilterSnoc(inRadius, r, RoostOf(LongTailed));
    FilterSnoc(inRadius, r, RoostOf(ShortTailed));
    FilterSnoc(inRadius, r, RoostOf(BothSpecies));
  }

  /** One row of the nearest-record table, in the export's column order. */
  datatype BatRow = BatRow(
    species: string,
    allTimeRecord: NearestInfo,
    record2013: NearestInfo,
    record2018: NearestInfo,
    allTimeRoost: NearestInfo,
    roost2013: NearestInfo,
    roost2018: NearestInfo)

  /** `get_nearest_info`: the nearest record of the pool, or of its roosts. */
  function BatNearestInfo(pool: seq<BatObs>, isRoost: bool, suffix: string): NearestInfo
  {
    if isRoost then NearestOf(Filter(pool, IsRoost()), "roosts", suffix)
    else NearestOf(pool, "records", suffix)
  }

  /** The table row for one species label, searched over the whole
      un-expanded data set. */
  function BatRowFor(df: seq<BatObs>, species: string): (row: BatRow)
    ensures row.species == species
  {
    var full := Filter(df, SpeciesIs(species));
    var fiveYears := Filter(full, DatedWithin(FiveYearStart, WindowEnd));
    var tenYears := Filter(full, DatedWithin(TenYearStart, WindowEnd));
    BatRow(
      species,
      BatNearestInfo(full, false, ""),
      BatNearestInfo(tenYears, false, Suffix2013),
      BatNearestInfo(fiveYears, false, Suffix2018),
      BatNearestInfo(full, true, ""),
      BatNearestInfo(tenYears, true, Suffix2013),
      BatNearestInfo(fiveYears, true, Suffix2018))
  }

  /** The labels the table has rows for. */
  function TableSpecies(counts: BatCounts): seq<string>
  {
    [LongTailed, ShortTailed] + (if counts.unknownSpecies > 0 then [UnknownBat] else [])
  }

  /** What `process_bat_data` returns (`summary_df` is the same table). */
  datatype BatSummary = BatSummary(counts: BatCounts, summaryTable: seq<BatRow>)

  function BatSummaryOf(df: seq<BatObs>, radius: int): BatSummary
  {
    var counts := CountsOf(Expand(df), radius);
    BatSummary(counts, RowsFor(df, TableSpecies(counts)))
  }

  /** One table row per label, in the order of the labels. */
  function RowsFor(df: seq<BatObs>, names: seq<string>): (t: seq<BatRow>)
    ensures |t| == |names|
    ensures forall i :: 0 <= i < |names| ==> t[i].species == names[i]
  {
    seq(|names|, i requires 0 <= i < |names| => BatRowFor(df, names[i]))
  }

  /** `get_nearest_info` as run: drops non-roosts first when asked to. */
  method GetNearestInfo(pool: seq<BatObs>, isRoost: bool, suffix: string) returns (info: NearestInfo)
    ensures info == BatNearestInfo(pool, isRoost, suffix)
  {
    var subset := pool;
    if isRoost {
      subset := Filter(subset, IsRoost());
      info := FindNearest(subset, "roosts", suffix);
    } else {
      info := FindNearest(subset, "records", suffix);
    }
  }

  /** One pass of the per-species loop. */
  method BuildBatRow(df: seq<BatObs>, species: string) returns (row: BatRow)
    ensures row == BatRowFor(df, species)
  {
    var full := Filter(df, SpeciesIs(species));
    var allTime := GetNearestInfo(full, false, "");
    var allTimeRoost := GetNearestInfo(full, true, "");
    var fiveYears := Filter(full, DatedWithin(FiveYearStart, WindowEnd));
    var record2018 := GetNearestInfo(fiveYears, false, Suffix2018);
    var roost2018 := GetNearestInfo(fiveYears, true, Suffix2018);
    var tenYears := Filter(full, DatedWithin(TenYearStart, WindowEnd));
    var record2013 := GetNearestInfo(tenYears, false, Suffix2013);
    var roost2013 := GetNearestInfo(tenYears, true, Suffix2013);
    row := BatRow(species, allTime, record2013, record2018, allTimeRoost, roost2013, roost2018);
  }

  /** The per-species loop: one row per label, appended in order. */
  method BuildTable(df: seq<BatObs>, names: seq<string>) returns (table: seq<BatRow>)
    ensures table == RowsFor(df, names)
  {
    table := [];
    for i := 0 to |names|
      invariant |table| == i
      invariant forall k :: 0 <= k < i ==> table[k] == BatRowFor(df, names[k])
    {
      var row := BuildBatRow(df, names[i]);
      TableExtend(df, names, table, row);
      table := table + [row];
    }
  }

  lemma TableExtend(df: seq<BatObs>, names: seq<string>, table: seq<BatRow>, row: BatRow)
    requires |table| < |names|
    requires forall k :: 0 <= k < |table| ==> table[k] == BatRowFor(df, names[k])
    requires row == BatRowFor(df, names[|table|])
    ensures forall k :: 0 <= k < |table| + 1 ==> (table + [row])[k] == BatRowFor(df, names[k])
  {
    forall k | 0 <= k < |table| + 1 ensures (table + [row])[k] == BatRowFor(df, names[k]) {
      if k < |table| {
        assert (table + [row])[k] == table[k];
      }
    }
  }

  /** `process_bat_data` on records already annotated with distance and
      bearing: the counts of the expanded view, then the table. */
  method ProcessBatData(df: seq<BatObs>, radius: int) returns (result: BatSummary)
    ensures result == BatSummaryOf(df, radius)
  {
    var counts := CountBatEvents(Expand(df), radius);
    var names := [LongTailed, ShortTailed];
    if counts.unknownSpecies > 0 {
      names := names + [UnknownBat];
    }
    assert names == TableSpecies(counts);
    var table := BuildTable(df, names);
    result := BatSummary(counts, table);
  }

  /** The table has a long-tailed row, then a short-tailed row, then an
      unknown-species row exactly when that species was counted in radius;
      each row's nearest records carry its own label, so "Both species
      detected" records never feed the table. */
  lemma TableRows(df: seq<BatObs>, radius: int)
    ensures var t := BatSummaryOf(df, radius).summaryTable;
      && 2 <= |t| <= 3
      && t[0] == BatRowFor(df, LongTailed) && t[1] == BatRowFor(df, ShortTailed)
      && (|t| == 3 <==> BatSummaryOf(df, radius).counts.unknownSpecies > 0)
      && (|t| == 3 ==> t[2] == BatRowFor(df, UnknownBat))
  {
    var names := TableSpecies(BatSummaryOf(df, radius).counts);
    assert names[0] == LongTailed && names[1] == ShortTailed;
    assert |names| == 3 ==> names[2] == UnknownBat;
  }

  /** A single short-tailed record at the origin, dated 2020-06-01 and not a
      roost, queried with a 25 km radius: it is the one event and the one
      short-tailed detection, it is the nearest record both all time and for
      2018-2023, and the roost columns say no roost was found. */
  lemma SingleShortTailedRecord(r: BatObs)
    requires r.species == ShortTailed && r.distanceKm == 0.0 && r.date == 20200601 && r.detail.roost == 0
    ensures var s := BatSummaryOf([r], 25);
      var row := s.summaryTable[1];
      && s.counts.totalEvents == 1 && s.counts.positiveDetections == 1
      && s.counts.shortTailed == 1 && s.counts.longTailed == 0 && s.counts.unknownSpecies == 0
      && |s.summaryTable| == 2 && row.species == ShortTailed
      && row.allTimeRecord.Found? && row.allTimeRecord.distanceKm == 0.0
      && row.record2013.Found? && row.record2013.distanceKm == 0.0
      && row.record2018.Found? && row.record2018.distanceKm == 0.0
      && row.allTimeRoost == NotFound("No roosts found")
      && row.roost2013 == NotFound("No roosts found for 2013-2023")
      && row.roost2018 == NotFound("No roosts found for 2018-2023")
  {
    var df := [r];
    FilterKeepsNone(df, SpeciesIs(BothSpecies));
    assert Expand(df) == df;
    var counts := CountsOf(df, 25);
    assert counts.totalEvents == 1 && counts.positiveDetections == 1 by {
      FilterKeepsAll(df, Within(25));
      FilterKeepsAll(df, SpeciesIsNot(NoBat));
    }
    assert counts.shortTailed == 1 by {
      FilterKeepsAll(df, Within(25));
      FilterKeepsAll(df, SpeciesIs(ShortTailed));
    }
    assert counts.longTailed == 0 && counts.unknownSpecies == 0 by {
      FilterKeepsAll(df, Within(25));
      FilterKeepsNone(df, SpeciesIs(LongTailed));
      FilterKeepsNone(df, SpeciesIs(UnknownBat));
    }
    TableRows(df, 25);
    ShortTailedRowOfSingleRecord(r);
  }

  lemma ShortTailedRowOfSingleRecord(r: BatObs)
    requires r.species == ShortTailed && r.distanceKm == 0.0 && r.date == 20200601 && r.detail.roost == 0
    ensures var row := BatRowFor([r], ShortTailed);
      && row.allTimeRecord.Found? && row.allTimeRecord.distanceKm == 0.0
      && row.record2013.Found? && row.record2013.distanceKm == 0.0
      && row.record2018.Found? && row.record2018.distanceKm == 0.0
      && row.allTimeRoost == NotFound("No roosts found")
      && row.roost2013 == NotFound("No roosts found for 2013-2023")
      && row.roost2018 == NotFound("No roosts found for 2018-2023")
  {
    var df := [r];
    FilterKeepsAll(df, SpeciesIs(ShortTailed));
    FilterKeepsAll(df, DatedWithin(TenYearStart, WindowEnd));
    FilterKeepsAll(df, DatedWithin(FiveYearStart, WindowEnd));
    SingleRecordCells(r);
  }

  /** The nearest-record cells of a pool holding one non-roost record at the
      origin: found at 0 km, and no roost in any window. */
  lemma SingleRecordCells(r: BatObs)
    requires r.distanceKm == 0.0 && r.detail.roost == 0
    ensures var df := [r];
      && BatNearestInfo(df, false, "").Found? && BatNearestInfo(df, false, "").distanceKm == 0.0
      && BatNearestInfo(df, false, Suffix2013).Found? && BatNearestInfo(df, false, Suffix2013).distanceKm == 0.0
      && BatNearestInfo(df, false, Suffix2018).Found? && BatNearestInfo(df, false, Suffix2018).distanceKm == 0.0
      && BatNearestInfo(df, true, "") == NotFound("No roosts found")
      && BatNearestInfo(df, true, Suffix2013) == NotFound("No roosts found for 2013-2023")
      && BatNearestInfo(df, true, Suffix2018) == NotFound("No roosts found for 2018-2023")
  {
    var df := [r];
    assert FirstNearest(df) == 0;
    FilterKeepsNone(df, IsRoost());
    NoRoostMessages();
  }

  lemma NoRoostMessages()
    ensures NearestOf<BatDetail>([], "roosts", "") == NotFound("No roosts found")
    ensures NearestOf<BatDetail>([], "roosts", Suffix2013) == NotFound("No roosts found for 2013-2023")
    ensures NearestOf<BatDetail>([], "roosts", Suffix2018) == NotFound("No roosts found for 2018-2023")
  {
    var stem := "No " + "roosts" + " found";
    assert stem == "No roosts found";
    assert stem + Suffix2013 == "No roosts found for 2013-2023";
    assert stem + Suffix2018 == "No roosts found for 2018-2023";
  }

  /** The row for any label other than "Both species detected" is the same
      whether or not the "Both" records are in the data set. */
  lemma IgnoresOtherLabels(df: seq<BatObs>, species: string)
    requires species != BothSpecies
    ensures BatRowFor(df, species) == BatRowFor(Filter(df, SpeciesIsNot(BothSpecies)), species)
  {
    FilterFilter(df, SpeciesIsNot(BothSpecies), SpeciesIs(species));
    FilterExt(df, AndAlso(SpeciesIsNot(BothSpecies), SpeciesIs(species)), SpeciesIs(species));
  }

  /** Within a row, the dated windows can only report records at least as far
      as the wider window does, and roosts are records: the nearest roost is
      never nearer than the nearest record. */
  lemma {:induction false} RowWindowsNest(df: seq<BatObs>, species: string)
    ensures var row := BatRowFor(df, species);
      && (row.record2018.Found? ==> row.record2013.Found? && row.record2013.distanceKm <= row.record2018.distanceKm)
      && (row.record2013.Found? ==> row.allTimeRecord.Found? && row.allTimeRecord.distanceKm <= row.record2013.distanceKm)
      && (row.roost2018.Found? ==> row.roost2013.Found? && row.roost2013.distanceKm <= row.roost2018.distanceKm)
      && (row.roost2013.Found? ==> row.allTimeRoost.Found? && row.allTimeRoost.distanceKm <= row.roost2013.distanceKm)
      && (row.allTimeRoost.Found? ==> row.allTimeRecord.Found? && row.allTimeRecord.distanceKm <= row.allTimeRoost.distanceKm)
  {
    var full := Filter(df, SpeciesIs(species));
    WindowsNest(full, "records");
    var roosts := Filter(full, IsRoost());
    var five, ten := DatedWithin<BatDetail>(FiveYearStart, WindowEnd), DatedWithin<BatDetail>(TenYearStart, WindowEnd);
    // the roosts of a window are the window of the roosts
    FilterFilter(full, five, IsRoost());
    FilterFilter(full, IsRoost(), five);
    FilterExt(full, AndAlso(five, IsRoost()), AndAlso(IsRoost(), five));
    FilterFilter(full, ten, IsRoost());
    FilterFilter(full, IsRoost(), ten);
    FilterExt(full, AndAlso(ten, IsRoost()), AndAlso(IsRoost(), ten));
    WindowsNest(roosts, "roosts");
    FilterMembers(full, IsRoost());
    NearerInLargerPool(roosts, full, "roosts", "", "");
    assert NearestOf(full, "roosts", "").Found? == NearestOf(full, "records", "").Found?;
  }
}
