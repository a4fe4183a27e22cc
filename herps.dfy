/**
  The herpetofauna summariser (`process_herpetofauna_data`): the sorted
  distinct species seen within the radius, and for each of them a summary row
  joined to the threat register, with the rows ordered by taxa group, threat
  category, threat status and name.
*/
module Herps {
  import opened Wrappers
  import opened Text
  import opened Ordering
  import opened Observations

  /** The herpetofauna dataset's own columns (`common_name`, `recordveri`,
      `placename`, `sightingty`, `numberofin`, `identifica`, `ageinyears`).
      `sightingType` is never missing: the loader turns the column into
      text. */
  datatype HerpDetail = HerpDetail(
    commonName: string,
    recordVerified: int,
    placeName: string,
    sightingType: string,
    numberOfIndividuals: string,
    identification: string,
    ageInYears: string)

  type HerpObs = Obs<HerpDetail>

  const TaxaOrder: seq<string> := ["Amphibian", "Reptile", "unknown"]
  const CategoryOrder: seq<string> := [
    "Threatened", "At Risk", "Not Threatened", "Non-resident Native",
    "Introduced and Naturalised", "Extinct", "unknown"]
  const StatusOrder: seq<string> := [
    "Nationally Critical", "Nationally Endangered", "Nationally Vulnerable",
    "Nationally Increasing", "Declining", "Relict", "Uncommon", "Recovering",
    "Migrant", "Vagrant", "Coloniser", "Introduced and Naturalised", "Extinct", "unknown"]

  // ---------------------------------------------------------------- threat register

  /** One row of the threat register: `Current Species Name`, `Taxa`,
      `Category`, `Status`. */
  datatype ThreatEntry = ThreatEntry(name: string, taxa: string, category: string, status: string)

  /** Position of the first register row for `name`, or the register's length
      when there is none. */
  function EntryIndex(register: seq<ThreatEntry>, name: string): (i: nat)
    ensures i <= |register|
    ensures forall j :: 0 <= j < i ==> register[j].name != name
    ensures i < |register| ==> register[i].name == name
  {
    if |register| == 0 then 0
    else if register[0].name == name then 0
    else 1 + EntryIndex(register[1..], name)
  }

  /** The four threat values a summary row carries. */
  datatype Threat = Threat(taxa: string, display: string, category: string, status: string)

  const UnknownThreat: Threat := Threat("unknown", "unknown", "unknown", "unknown")

  /** The threat status shown: the category alone when it equals the status,
      otherwise "category - status". */
  function ThreatDisplay(category: string, status: string): (d: string)
    ensures d == category <==> category == status
    ensures |d| >= |category| && d[..|category|] == category
    ensures category != status ==> d[|category|..] == " - " + status
  {
    if category == status then category else category + " - " + status
  }

  /** The register join: the first row with exactly this name decides; a
      species the register lacks gets "unknown" throughout. */
  function ThreatOf(register: seq<ThreatEntry>, name: string): (t: Threat)
    ensures (forall k :: 0 <= k < |register| ==> register[k].name != name) ==> t == UnknownThreat
    ensures forall k :: 0 <= k < |register| && register[k].name == name
                        && (forall j :: 0 <= j < k ==> register[j].name != name) ==>
      var e := register[k];
      t == Threat(e.taxa, ThreatDisplay(e.category, e.status), e.category, e.status)
  {
    var i := EntryIndex(register, name);
    if i == |register| then UnknownThreat
    else
      var e := register[i];
      Threat(e.taxa, ThreatDisplay(e.category, e.status), e.category, e.status)
  }

  // ---------------------------------------------------------------- observation-type tally

  /** One entry of `value_counts()`: a sighting type and how often it occurs. */
  datatype TypeCount = TypeCount(sightingType: string, count: nat)

  /** `sightingty == t`. */
  function SightingIs(t: string): HerpObs -> bool
  {
    (r: HerpObs) => r.detail.sightingType == t
  }

  /** `sightingty` is one of `types`. */
  function SightingIn(types: seq<string>): HerpObs -> bool
  {
    (r: HerpObs) => r.detail.sightingType in types
  }

  function TypeOf(): TypeCount -> string
  {
    (c: TypeCount) => c.sightingType
  }

  /** The order `value_counts` lists its entries in: most frequent first. */
  function MoreFrequent(): (TypeCount, TypeCount) -> bool
  {
    (a: TypeCount, b: TypeCount) => a.count >= b.count
  }

  function Types(t: seq<TypeCount>): (types: seq<string>)
    ensures |types| == |t|
    ensures forall i :: 0 <= i < |t| ==> types[i] == t[i].sightingType
  {
    seq(|t|, i requires 0 <= i < |t| => t[i].sightingType)
  }

  function Sum(t: seq<TypeCount>): nat
  {
    if |t| == 0 then 0 else Sum(t[..|t| - 1]) + t[|t| - 1].count
  }

  /** Each entry's count is the number of rows of its type, and is positive. */
  predicate CountsMatch(t: seq<TypeCount>, rows: seq<HerpObs>)
  {
    forall k :: 0 <= k < |t| ==> t[k].count == |Filter(rows, SightingIs(t[k].sightingType))| && t[k].count > 0
  }

  /** `t` is a `value_counts()` of the rows' sighting types: one entry per type
      that occurs, with its number of occurrences, most frequent first. The
      order among equally frequent types is not fixed. */
  predicate IsTallyOf(t: seq<TypeCount>, rows: seq<HerpObs>)
  {
    && DistinctBy(t, TypeOf())
    && CountsMatch(t, rows)
    && Covers(t, rows)
    && SortedBy(t, MoreFrequent())
  }

  /** Adding a new type to the list adds exactly the rows of that type, and
      no row was of that type already. */
  lemma SightingInSnoc(types: seq<string>, x: string)
    requires x !in types
    ensures forall r: HerpObs :: SightingIn(types + [x])(r) == (SightingIn(types)(r) || SightingIs(x)(r))
    ensures forall r: HerpObs :: !(SightingIn(types)(r) && SightingIs(x)(r))
  {
    forall r: HerpObs ensures SightingIn(types + [x])(r) == (SightingIn(types)(r) || SightingIs(x)(r)) {
      var t := r.detail.sightingType;
      assert t in types + [x] <==> t in types || t == x;
    }
  }

  lemma {:induction false} TallyPartition(t: seq<TypeCount>, rows: seq<HerpObs>)
    requires DistinctBy(t, TypeOf())
    requires forall k :: 0 <= k < |t| ==> t[k].count == |Filter(rows, SightingIs(t[k].sightingType))|
    ensures Sum(t) == |Filter(rows, SightingIn(Types(t)))|
  {
    if |t| == 0 {
      FilterExt(rows, SightingIn(Types(t)), Never());
      FilterNever(rows);
    } else {
      var init, last := t[..|t| - 1], t[|t| - 1];
      assert DistinctBy(init, TypeOf()) by {
        forall i, j | 0 <= i < j < |init| ensures init[i].sightingType != init[j].sightingType {
          assert init[i] == t[i] && init[j] == t[j];
        }
      }
      TallyPartition(init, rows);
      assert Types(t) == Types(init) + [last.sightingType];
      assert last.sightingType !in Types(init) by {
        forall k | 0 <= k < |init| ensures Types(init)[k] != last.sightingType {
          assert init[k] == t[k];
        }
      }
      SightingInSnoc(Types(init), last.sightingType);
      FilterDisjointUnion(rows, SightingIn(Types(t)), SightingIn(Types(init)), SightingIs(last.sightingType));
    }
  }

  /** The tally's counts add up to the number of rows it was taken over. */
  lemma TallySumsToTotal(t: seq<TypeCount>, rows: seq<HerpObs>)
    requires IsTallyOf(t, rows)
    ensures Sum(t) == |rows|
  {
    TallyPartition(t, rows);
    FilterKeepsAll(rows, SightingIn(Types(t)));
  }

  /** Every row's type has an entry. */
  predicate Covers(t: seq<TypeCount>, rows: seq<HerpObs>)
  {
    forall r :: r in rows ==> r.detail.sightingType in Types(t)
  }

  /** The position of the entry for sighting type `x`, or the length of the
      list when there is none. */
  method FindType(counts: seq<TypeCount>, x: string) returns (j: nat)
    ensures j <= |counts|
    ensures forall k :: 0 <= k < j ==> counts[k].sightingType != x
    ensures j < |counts| ==> counts[j].sightingType == x
  {
    j := 0;
    while j < |counts| && counts[j].sightingType != x
      invariant j <= |counts|
      invariant forall k :: 0 <= k < j ==> counts[k].sightingType != x
    {
      j := j + 1;
    }
  }

  /** Counting one more row: the entry of its type goes up by one, or the
      type is added with a count of one. */
  method CountRow(counts: seq<TypeCount>, seen: seq<HerpObs>, r: HerpObs) returns (counts': seq<TypeCount>)
    requires DistinctBy(counts, TypeOf()) && CountsMatch(counts, seen) && Covers(counts, seen)
    ensures DistinctBy(counts', TypeOf()) && CountsMatch(counts', seen + [r]) && Covers(counts', seen + [r])
  {
    var x := r.detail.sightingType;
    var j := FindType(counts, x);
    if j < |counts| {
      counts' := counts[j := TypeCount(x, counts[j].count + 1)];
      CountedAgain(counts, counts', seen, r, j);
    } else {
      counts' := counts + [TypeCount(x, 1)];
      CountedFirst(counts, counts', seen, r);
    }
  }

  lemma CountedAgain(counts: seq<TypeCount>, counts': seq<TypeCount>, seen: seq<HerpObs>, r: HerpObs, j: nat)
    requires DistinctBy(counts, TypeOf()) && CountsMatch(counts, seen) && Covers(counts, seen)
    requires j < |counts| && counts[j].sightingType == r.detail.sightingType
    requires counts' == counts[j := TypeCount(r.detail.sightingType, counts[j].count + 1)]
    ensures DistinctBy(counts', TypeOf()) && CountsMatch(counts', seen + [r]) && Covers(counts', seen + [r])
  {
    assert Types(counts') == Types(counts);
    forall k | 0 <= k < |counts'|
      ensures counts'[k].count == |Filter(seen + [r], SightingIs(counts'[k].sightingType))| && counts'[k].count > 0
    {
      FilterSnoc(seen, r, SightingIs(counts[k].sightingType));
    }
  }

  lemma CountedFirst(counts: seq<TypeCount>, counts': seq<TypeCount>, seen: seq<HerpObs>, r: HerpObs)
    requires DistinctBy(counts, TypeOf()) && CountsMatch(counts, seen) && Covers(counts, seen)
    requires forall k :: 0 <= k < |counts| ==> counts[k].sightingType != r.detail.sightingType
    requires counts' == counts + [TypeCount(r.detail.sightingType, 1)]
    ensures DistinctBy(counts', TypeOf()) && CountsMatch(counts', seen + [r]) && Covers(counts', seen + [r])
  {
    var x := r.detail.sightingType;
    assert Types(counts') == Types(counts) + [x];
    forall k | 0 <= k < |counts'|
      ensures counts'[k].count == |Filter(seen + [r], SightingIs(counts'[k].sightingType))| && counts'[k].count > 0
    {
      FilterSnoc(seen, r, SightingIs(counts'[k].sightingType));
      if k == |counts| {
        assert x !in Types(counts);
        FilterKeepsNone(seen, SightingIs(x));
      }
    }
  }

  /** Reordering the gathered counts keeps them a tally of the same rows. */
  lemma TallyRearranged(counts: seq<TypeCount>, tally: seq<TypeCount>, rows: seq<HerpObs>)
    requires DistinctBy(counts, TypeOf()) && CountsMatch(counts, rows) && Covers(counts, rows)
    requires multiset(tally) == multiset(counts) && SortedBy(tally, MoreFrequent())
    ensures IsTallyOf(tally, rows)
  {
    PermutationKeepsDistinct(counts, tally, TypeOf());
    forall k | 0 <= k < |tally|
      ensures tally[k].count == |Filter(rows, SightingIs(tally[k].sightingType))| && tally[k].count > 0
    {
      assert tally[k] in multiset(counts);
    }
    forall r | r in rows ensures r.detail.sightingType in Types(tally) {
      var k :| 0 <= k < |counts| && counts[k].sightingType == r.detail.sightingType;
      assert counts[k] in multiset(tally);
    }
  }

  /** `value_counts()` over the sighting types: counts gathered in one pass,
      then ordered most frequent first. */
  method TallySightingTypes(rows: seq<HerpObs>) returns (tally: seq<TypeCount>)
    ensures IsTallyOf(tally, rows)
  {
    var counts: seq<TypeCount> := [];
    for i := 0 to |rows|
      invariant DistinctBy(counts, TypeOf()) && CountsMatch(counts, rows[..i]) && Covers(counts, rows[..i])
    {
      counts := CountRow(counts, rows[..i], rows[i]);
      assert rows[..i + 1] == rows[..i] + [rows[i]];
    }
    assert rows[..|rows|] == rows;
    tally := SortBy(counts, MoreFrequent());
    TallyRearranged(counts, tally, rows);
  }

  /** `f"{sighting_type} ({count})"`. */
  function TallyPart(c: TypeCount): string
  {
    c.sightingType + " (" + NatToDecimal(c.count) + ")"
  }

  function TallyParts(t: seq<TypeCount>): seq<string>
  {
    seq(|t|, i requires 0 <= i < |t| => TallyPart(t[i]))
  }

  /** `f"<b>Total</b> ({n})"`. */
  function TotalLabel(n: nat): string
  {
    "<b>Total</b> (" + NatToDecimal(n) + ")"
  }

  /** The CSV observation-type summary: the tally parts joined by ", ". */
  function CsvSummary(t: seq<TypeCount>): string
  {
    Join(", ", TallyParts(t))
  }

  /** The HTML observation-type summary: the CSV text, a blank line and the
      total; or the total alone for an empty tally. */
  function HtmlSummary(t: seq<TypeCount>, total: nat): string
  {
    if |t| == 0 then TotalLabel(total) else CsvSummary(t) + "<br>&nbsp;<br>" + TotalLabel(total)
  }

  // ---------------------------------------------------------------- one species

  /** `date.max()`: the latest date, or nothing for no rows. */
  function LatestDate(rows: seq<HerpObs>): (d: Option<int>)
    ensures d.None? <==> |rows| == 0
    ensures d.Some? ==> exists r :: r in rows && r.date == d.value
    ensures d.Some? ==> forall r :: r in rows ==> r.date <= d.value
  {
    if |rows| == 0 then None
    else
      var rest := LatestDate(rows[..|rows| - 1]);
      var last := rows[|rows| - 1];
      assert rows == rows[..|rows| - 1] + [last];
      if rest.None? || rest.value < last.date then Some(last.date) else rest
  }

  /** One summary row. The three ordering fields are held as the sort sees
      them, as ordered Categoricals: a value outside its priority list is a
      missing value. `mostRecent` is the date the display formats, and the
      three nearest-record fields are the values the display formats. */
  datatype HerpRow = HerpRow(
    species: string,
    commonName: string,
    taxaGroup: Option<string>,
    threatDisplay: string,
    categoryForSort: Option<string>,
    statusForSort: Option<string>,
    htmlSummary: string,
    csvSummary: string,
    total: nat,
    mostRecent: Option<int>,
    allTime: NearestInfo,
    past5Years: NearestInfo,
    past10Years: NearestInfo)

  /** The rows of `species` within the radius, in data set order. */
  function InRadius(df: seq<HerpObs>, radius: int, species: string): seq<HerpObs>
  {
    Filter(Filter(df, Within(radius)), SpeciesIs(species))
  }

  /** What the loop body computes for `species`: the in-radius rows give the
      common name (from the first of them), the total, the tally, the latest
      date and the all-time nearest record; the dated nearest records come
      from the species' rows in the whole data set, inside or outside the
      radius. */
  ghost predicate IsRowFor(row: HerpRow, df: seq<HerpObs>, register: seq<ThreatEntry>, radius: int, species: string)
  {
    var inRadius := InRadius(df, radius, species);
    && row.species == species
    && RowThreat(row, ThreatOf(register, species))
    && RowCounts(row, inRadius)
    && RowNearest(row, inRadius, Filter(df, SpeciesIs(species)))
  }

  /** The register's values, as the Categoricals hold them. */
  predicate RowThreat(row: HerpRow, threat: Threat)
  {
    && row.taxaGroup == Categorize(TaxaOrder, threat.taxa)
    && row.threatDisplay == threat.display
    && row.categoryForSort == Categorize(CategoryOrder, threat.category)
    && row.statusForSort == Categorize(StatusOrder, threat.status)
  }

  /** The values taken from the species' rows within the radius. */
  ghost predicate RowCounts(row: HerpRow, inRadius: seq<HerpObs>)
  {
    && row.commonName == (if |inRadius| > 0 then inRadius[0].detail.commonName else "")
    && row.total == |inRadius|
    && row.mostRecent == LatestDate(inRadius)
    && exists t :: IsTallyOf(t, inRadius) && row.htmlSummary == HtmlSummary(t, |inRadius|) && row.csvSummary == CsvSummary(t)
  }

  /** The nearest records: all time within the radius, the dated windows over
      the species' rows in the whole data set. */
  predicate RowNearest(row: HerpRow, inRadius: seq<HerpObs>, full: seq<HerpObs>)
  {
    && row.allTime == NearestOf(inRadius, "records", "")
    && row.past5Years == NearestOf(Filter(full, DatedWithin(FiveYearStart, WindowEnd)), "records", Suffix2018)
    && row.past10Years == NearestOf(Filter(full, DatedWithin(TenYearStart, WindowEnd)), "records", Suffix2013)
  }

  /** The loop body for one species. */
  method BuildHerpRow(df: seq<HerpObs>, radiusRows: seq<HerpObs>, register: seq<ThreatEntry>, radius: int, species: string)
    returns (row: HerpRow)
    requires radiusRows == Filter(df, Within(radius))
    ensures IsRowFor(row, df, register, radius, species)
  {
    var inRadius := Filter(radiusRows, SpeciesIs(species));
    var commonName := if |inRadius| > 0 then inRadius[0].detail.commonName else "";
    var total := |inRadius|;
    var threat := ThreatOf(register, species);
    var tally := TallySightingTypes(inRadius);
    var html := HtmlSummary(tally, total);
    var csv := CsvSummary(tally);
    var allTime := FindNearest(inRadius, "records", "");
    var latest := LatestDate(inRadius);
    var full := Filter(df, SpeciesIs(species));
    var past5 := FindNearest(Filter(full, DatedWithin(FiveYearStart, WindowEnd)), "records", Suffix2018);
    var past10 := FindNearest(Filter(full, DatedWithin(TenYearStart, WindowEnd)), "records", Suffix2013);
    row := HerpRow(species, commonName,
      Categorize(TaxaOrder, threat.taxa), threat.display,
      Categorize(CategoryOrder, threat.category), Categorize(StatusOrder, threat.status),
      html, csv, total, latest, allTime, past5, past10);
    assert IsTallyOf(tally, inRadius) && row.htmlSummary == HtmlSummary(tally, |inRadius|) && row.csvSummary == CsvSummary(tally);
    assert RowCounts(row, inRadius);
    assert RowNearest(row, inRadius, full);
  }

  /** A row's observation-type summaries come from a tally whose counts add up
      to the row's total, and the HTML summary ends with that total. */
  lemma RowTallyAddsUp(row: HerpRow, df: seq<HerpObs>, register: seq<ThreatEntry>, radius: int, species: string)
    requires IsRowFor(row, df, register, radius, species)
    ensures exists t :: Sum(t) == row.total && row.csvSummary == CsvSummary(t)
                        && row.htmlSummary == HtmlSummary(t, Sum(t))
  {
    var t :| IsTallyOf(t, InRadius(df, radius, species))
             && row.htmlSummary == HtmlSummary(t, row.total) && row.csvSummary == CsvSummary(t);
    TallySumsToTotal(t, InRadius(df, radius, species));
  }

  /** For a species seen within the radius, the all-time nearest record
      searched within the radius is as near as the nearest record of the
      whole data set: the radius never hides the nearest one. */
  lemma AllTimeMatchesWholeDataset(df: seq<HerpObs>, radius: int, species: string)
    requires |InRadius(df, radius, species)| > 0
    ensures var inRadius := NearestOf(InRadius(df, radius, species), "records", "");
            var whole := NearestOf(Filter(df, SpeciesIs(species)), "records", "");
            inRadius.Found? && whole.Found? && inRadius.distanceKm == whole.distanceKm
  {
    var radiusRows := Filter(df, Within(radius));
    var inRadius := Filter(radiusRows, SpeciesIs(species));
    var full := Filter(df, SpeciesIs(species));
    FilterMembers(df, Within(radius));
    FilterMembers(radiusRows, SpeciesIs(species));
    FilterMembers(df, SpeciesIs(species));
    NearestOfIsNearest(full, "records", "");
    forall q | q in inRadius ensures q in full {
      assert q in radiusRows && SpeciesIs<HerpDetail>(species)(q);
    }
    NearerInLargerPool(inRadius, full, "records", "", "");
    var whole := NearestOf(full, "records", "");
    var r :| r in full && r.distanceKm == whole.distanceKm;
    var s := inRadius[0];
    assert s in radiusRows && s in full;
    assert Within<HerpDetail>(radius)(r) by {
      assert whole.distanceKm <= s.distanceKm && Within<HerpDetail>(radius)(s);
    }
    assert r in radiusRows;
    assert r in inRadius;
  }

  /** In a row of a species seen within the radius, the nearest distances can
      only shrink from the 2018-2023 window to the 2013-2023 window to all
      time, and a record found in a narrower window is found in the wider. */
  lemma RowWindowsNest(row: HerpRow, df: seq<HerpObs>, register: seq<ThreatEntry>, radius: int, species: string)
    requires IsRowFor(row, df, register, radius, species)
    requires |InRadius(df, radius, species)| > 0
    ensures row.allTime.Found?
    ensures row.past5Years.Found? ==> row.past10Years.Found? && row.past10Years.distanceKm <= row.past5Years.distanceKm
    ensures row.past10Years.Found? ==> row.allTime.distanceKm <= row.past10Years.distanceKm
  {
    WindowsNest(Filter(df, SpeciesIs(species)), "records");
    AllTimeMatchesWholeDataset(df, radius, species);
  }

  // ---------------------------------------------------------------- species list

  function SpeciesOf(rows: seq<HerpObs>): set<string>
  {
    set r | r in rows :: r.species
  }

  predicate StrictlyAscending(names: seq<string>)
  {
    forall i, j :: 0 <= i < j < |names| ==> StrLt(names[i], names[j])
  }

  /** `sorted(radius_df['scientific_name'].unique())`. */
  ghost predicate IsSpeciesList(names: seq<string>, rows: seq<HerpObs>)
  {
    StrictlyAscending(names) && forall x :: x in names <==> x in SpeciesOf(rows)
  }

  function StrOrder(): (string, string) -> bool
  {
    (a: string, b: string) => StrLe(a, b)
  }

  function Itself(): string -> string
  {
    (x: string) => x
  }

  /** The distinct species of the rows in first-seen order, then sorted. */
  method SortedSpecies(rows: seq<HerpObs>) returns (names: seq<string>)
    ensures IsSpeciesList(names, rows)
  {
    var unique: seq<string> := [];
    for i := 0 to |rows|
      invariant DistinctBy(unique, Itself())
      invariant forall x :: x in unique <==> x in SpeciesOf(rows[..i])
    {
      assert rows[..i + 1] == rows[..i] + [rows[i]];
      if rows[i].species !in unique {
        unique := unique + [rows[i].species];
      }
    }
    assert rows[..|rows|] == rows;
    StrLeIsTotalOrder();
    names := SortBy(unique, StrOrder());
    PermutationKeepsDistinct(unique, names, Itself());
    forall x ensures x in names <==> x in unique {
      assert x in names <==> x in multiset(names);
    }
    forall i, j | 0 <= i < j < |names| ensures StrLt(names[i], names[j]) {
      assert Itself()(names[i]) != Itself()(names[j]);
    }
  }

  lemma {:induction false} AscendingUnique(a: seq<string>, b: seq<string>)
    requires StrictlyAscending(a) && StrictlyAscending(b)
    requires forall x :: x in a <==> x in b
    ensures a == b
  {
    assert |a| == 0 <==> |b| == 0 by {
      if |a| > 0 { assert a[0] in b; }
      if |b| > 0 { assert b[0] in a; }
    }
    if |a| > 0 {
      assert a[0] in b && b[0] in a;
      var m :| 0 <= m < |a| && a[m] == b[0];
      var k :| 0 <= k < |b| && b[k] == a[0];
      if m > 0 { assert StrLe(a[0], a[m]); } else { StrLeReflexive(a[0]); }
      if k > 0 { assert StrLe(b[0], b[k]); } else { StrLeReflexive(b[0]); }
      StrLeAntisymmetric(a[0], b[0]);
      assert a == [a[0]] + a[1..] && b == [b[0]] + b[1..];
      forall x ensures x in a[1..] <==> x in b[1..] {
        if x in a[1..] {
          var i :| 1 <= i < |a| && a[i] == x;
          assert StrLt(a[0], a[i]);
          assert x in a;
          var k :| 0 <= k < |b| && b[k] == x;
          assert k != 0 && b[1..][k - 1] == x;
        }
        if x in b[1..] {
          var i :| 1 <= i < |b| && b[i] == x;
          assert StrLt(b[0], b[i]);
          assert x in b;
          var k :| 0 <= k < |a| && a[k] == x;
          assert k != 0 && a[1..][k - 1] == x;
        }
      }
      AscendingUnique(a[1..], b[1..]);
    }
  }

  /** The species list is determined by the rows: any two lists that are
      sorted without repeats and hold exactly the species seen are equal. */
  lemma SpeciesListUnique(a: seq<string>, b: seq<string>, rows: seq<HerpObs>)
    requires IsSpeciesList(a, rows) && IsSpeciesList(b, rows)
    ensures a == b
  {
    AscendingUnique(a, b);
  }

  /** No species are listed exactly when there are no rows. */
  lemma SpeciesListEmpty(names: seq<string>, rows: seq<HerpObs>)
    requires IsSpeciesList(names, rows)
    ensures |names| == 0 <==> |rows| == 0
  {
    if |rows| > 0 { assert rows[0].species in SpeciesOf(rows); }
    if |names| > 0 { assert names[0] in SpeciesOf(rows); }
  }

  /** A wider radius never drops a species from the list. */
  lemma SpeciesGrowWithRadius(df: seq<HerpObs>, r1: int, r2: int, a: seq<string>, b: seq<string>)
    requires r1 <= r2
    requires IsSpeciesList(a, Filter(df, Within(r1))) && IsSpeciesList(b, Filter(df, Within(r2)))
    ensures forall x :: x in a ==> x in b
  {
    FilterMembers(df, Within(r1));
    FilterMembers(df, Within(r2));
    forall x | x in a ensures x in b {
      assert x in SpeciesOf(Filter(df, Within(r1)));
      var r :| r in Filter(df, Within(r1)) && r.species == x;
      assert Within<HerpDetail>(r2)(r);
      assert r in Filter(df, Within(r2));
      assert x in SpeciesOf(Filter(df, Within(r2)));
    }
  }

  // ---------------------------------------------------------------- row order

  /** `sort_values(by=[taxa_group, category_for_sort, status_for_sort,
      species])` on the ordered Categoricals. */
  predicate RowLe(a: HerpRow, b: HerpRow)
  {
    var ta, tb := Rank(TaxaOrder, a.taxaGroup), Rank(TaxaOrder, b.taxaGroup);
    var ca, cb := Rank(CategoryOrder, a.categoryForSort), Rank(CategoryOrder, b.categoryForSort);
    var sa, sb := Rank(StatusOrder, a.statusForSort), Rank(StatusOrder, b.statusForSort);
    ta < tb || (ta == tb && (ca < cb || (ca == cb && (sa < sb || (sa == sb && StrLe(a.species, b.species))))))
  }

  function RowOrder(): (HerpRow, HerpRow) -> bool
  {
    (a: HerpRow, b: HerpRow) => RowLe(a, b)
  }

  /** The composite key is a total preorder, so the sort is well defined. */
  lemma RowOrderIsTotalPreorder()
    ensures Total(RowOrder()) && Transitive(RowOrder())
  {
    forall a: HerpRow, b: HerpRow ensures RowLe(a, b) || RowLe(b, a) {
      StrLeTotal(a.species, b.species);
    }
    forall a: HerpRow, b: HerpRow, c: HerpRow | RowLe(a, b) && RowLe(b, c) ensures RowLe(a, c) {
      if StrLe(a.species, b.species) && StrLe(b.species, c.species) {
        StrLeTransitive(a.species, b.species, c.species);
      }
    }
  }

  /** In the sorted rows the taxa group ranks never decrease; so a species
      missing from the register (taxa "unknown") or with an unlisted taxa
      group comes after every amphibian and reptile. */
  lemma SortedByTaxaFirst(rows: seq<HerpRow>)
    requires SortedBy(rows, RowOrder())
    ensures forall i, j :: 0 <= i < j < |rows| ==>
      Rank(TaxaOrder, rows[i].taxaGroup) <= Rank(TaxaOrder, rows[j].taxaGroup)
  {
    forall i, j | 0 <= i < j < |rows|
      ensures Rank(TaxaOrder, rows[i].taxaGroup) <= Rank(TaxaOrder, rows[j].taxaGroup)
    {
      assert RowOrder()(rows[i], rows[j]);
    }
  }

  /** A species the register lacks ranks after any amphibian or reptile. */
  lemma UnregisteredRanksAfterListedTaxa(register: seq<ThreatEntry>, name: string, taxa: string)
    requires forall k :: 0 <= k < |register| ==> register[k].name != name
    requires taxa == "Amphibian" || taxa == "Reptile"
    ensures Rank(TaxaOrder, Categorize(TaxaOrder, taxa)) < Rank(TaxaOrder, Categorize(TaxaOrder, ThreatOf(register, name).taxa))
  {
    assert TaxaOrder[0] == "Amphibian" && TaxaOrder[1] == "Reptile" && TaxaOrder[2] == "unknown";
  }

  /** A species the register lacks sorts strictly after every amphibian or
      reptile, and after every species of taxa group "unknown" whose category
      is a listed one other than "unknown". */
  lemma UnregisteredSortsAfterRegistered(a: HerpRow, b: HerpRow)
    requires RowThreat(b, UnknownThreat)
    requires || a.taxaGroup == Some("Amphibian") || a.taxaGroup == Some("Reptile")
             || (&& a.taxaGroup == Some("unknown") && a.categoryForSort.Some?
                 && a.categoryForSort.value in CategoryOrder && a.categoryForSort.value != "unknown")
    ensures RowLe(a, b) && !RowLe(b, a)
  {
    assert TaxaOrder[0] == "Amphibian" && TaxaOrder[1] == "Reptile" && TaxaOrder[2] == "unknown";
    assert Rank(TaxaOrder, b.taxaGroup) == 2;
    if a.taxaGroup == Some("unknown") {
      assert CategoryOrder[6] == "unknown";
      assert Rank(CategoryOrder, b.categoryForSort) == 6;
      assert Rank(CategoryOrder, a.categoryForSort) < 6;
    }
  }

  /** The sort is by taxa group first: a registered species whose taxa group
      is outside the list sorts after a species the register lacks, whatever
      its category. */
  lemma UnlistedTaxaSortsAfterUnregistered(a: HerpRow, b: HerpRow)
    requires RowThreat(b, UnknownThreat)
    requires a.taxaGroup.None?
    ensures RowLe(b, a) && !RowLe(a, b)
  {
    assert TaxaOrder[2] == "unknown";
    assert Rank(TaxaOrder, b.taxaGroup) == 2;
  }

  // ---------------------------------------------------------------- the summariser

  /** What `process_herpetofauna_data` returns: the message result, or the
      sorted rows with the number of distinct species. */
  datatype HerpResult =
    | NoRecords(message: string, uniqueSpeciesCount: nat)
    | Summary(results: seq<HerpRow>, uniqueSpeciesCount: nat)

  function NoRecordsMessage(radius: int): string
  {
    "No herpetofauna records found within " + IntToDecimal(radius) + " km."
  }

  /** The per-species loop: one row per species, appended in order. */
  method BuildRows(df: seq<HerpObs>, radiusRows: seq<HerpObs>, register: seq<ThreatEntry>, radius: int, species: seq<string>)
    returns (rows: seq<HerpRow>)
    requires radiusRows == Filter(df, Within(radius))
    ensures |rows| == |species|
    ensures forall k :: 0 <= k < |rows| ==> IsRowFor(rows[k], df, register, radius, species[k])
  {
    rows := [];
    for i := 0 to |species|
      invariant |rows| == i
      invariant forall k :: 0 <= k < i ==> IsRowFor(rows[k], df, register, radius, species[k])
    {
      var row := BuildHerpRow(df, radiusRows, register, radius, species[i]);
      RowsExtend(rows, row, df, register, radius, species);
      rows := rows + [row];
    }
  }

  lemma RowsExtend(rows: seq<HerpRow>, row: HerpRow, df: seq<HerpObs>, register: seq<ThreatEntry>, radius: int, species: seq<string>)
    requires |rows| < |species|
    requires forall k :: 0 <= k < |rows| ==> IsRowFor(rows[k], df, register, radius, species[k])
    requires IsRowFor(row, df, register, radius, species[|rows|])
    ensures forall k :: 0 <= k < |rows| + 1 ==> IsRowFor((rows + [row])[k], df, register, radius, species[k])
  {
    forall k | 0 <= k < |rows| + 1 ensures IsRowFor((rows + [row])[k], df, register, radius, species[k]) {
      if k < |rows| {
        assert (rows + [row])[k] == rows[k];
      } else {
        assert (rows + [row])[k] == row;
      }
    }
  }

  /** What `process_herpetofauna_data` promises of a summary result, given
      the species list and the per-species rows before sorting: the rows
      sorted by the composite key, with the number of distinct species. */
  ghost predicate IsHerpSummary(result: HerpResult, species: seq<string>, rows: seq<HerpRow>,
                                df: seq<HerpObs>, register: seq<ThreatEntry>, radius: int)
  {
    && IsSpeciesList(species, Filter(df, Within(radius)))
    && (result.Summary? ==>
      && result.uniqueSpeciesCount == |species| == |rows| == |result.results|
      && (forall i :: 0 <= i < |rows| ==> IsRowFor(rows[i], df, register, radius, species[i]))
      && multiset(result.results) == multiset(rows)
      && SortedBy(result.results, RowOrder()))
  }

  /** `process_herpetofauna_data` on records already annotated with distance
      and bearing. `species` and `rows` name the species list and the rows
      before sorting. */
  method ProcessHerpetofaunaData(df: seq<HerpObs>, register: seq<ThreatEntry>, radius: int)
    returns (result: HerpResult, ghost species: seq<string>, ghost rows: seq<HerpRow>)
    ensures result.NoRecords? <==> |Filter(df, Within(radius))| == 0
    ensures result.NoRecords? ==> result == NoRecords(NoRecordsMessage(radius), 0)
    ensures IsHerpSummary(result, species, rows, df, register, radius)
  {
    var radiusRows := Filter(df, Within(radius));
    var unique := SortedSpecies(radiusRows);
    species := unique;
    var herpResults := BuildRows(df, radiusRows, register, radius, unique);
    rows := herpResults;
    SpeciesListEmpty(unique, radiusRows);
    if |herpResults| == 0 {
      result := NoRecords(NoRecordsMessage(radius), 0);
    } else {
      RowOrderIsTotalPreorder();
      var sorted := SortBy(herpResults, RowOrder());
      assert |sorted| == |multiset(sorted)| == |multiset(herpResults)| == |herpResults|;
      result := Summary(sorted, |unique|);
    }
  }
}
