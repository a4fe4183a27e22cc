/**
  What the display and the CSV downloads make of the summaries: the
  threat-cell highlight class, the two occurrence exports (rows within the
  radius, in a fixed order, with 0/1 flags spelled out) and the two summary
  downloads. Number and date formatting and the CSV text itself are not
  modelled; a row is the sequence of its cells' values.
*/
module Reports {
  import opened Wrappers
  import opened Text
  import opened Ordering
  import opened Observations
  import Compass
  import Bats
  import Herps

  // ---------------------------------------------------------------- threat highlight

  /** `CSS_CLASSES_FOR_THREAT_STATUS`. */
  const ThreatClasses: map<string, string> := map[
    "Threatened" := "threatened-bg",
    "At Risk" := "at-risk-bg",
    "Not Threatened" := "not-threatened-bg",
    "Non-resident Native" := "non-resident-native-bg",
    "Extinct" := "extinct-text-color",
    "Unknown" := "unknown-text-color"]

  /** The highlight class of a threat-status cell, chosen from the row's
      category as the sort left it (a missing value for a category outside
      the priority list): the class table's entry, none for "Introduced and
      Naturalised", and the grey text class for "unknown". */
  function ThreatHighlight(category: Option<string>): (cls: string)
    ensures cls != "" <==> category.Some? && category.value != "Introduced and Naturalised"
                           && (category.value in ThreatClasses || category.value == "unknown")
    ensures cls == "" || cls in ThreatClasses.Values
    ensures category == Some("unknown") ==> cls == "unknown-text-color"
    ensures category.Some? && category.value in ThreatClasses && category.value != "Introduced and Naturalised"
            ==> cls == ThreatClasses[category.value]
  {
    match category
    case None => ""
    case Some(c) =>
      var looked := if c in ThreatClasses then ThreatClasses[c] else "";
      if c == "Introduced and Naturalised" then ""
      else if c == "unknown" then ThreatClasses["Unknown"]
      else looked
  }

  /** The `class` attribute of the cell: the base class, plus the highlight
      class when there is one. */
  function CellClassAttr(cls: string): (attr: string)
    ensures cls == "" ==> attr == " class=\"threat-status-cell\""
    ensures cls != "" ==> attr == " class=\"threat-status-cell " + cls + "\""
  {
    if cls != "" then " class=\"threat-status-cell " + cls + "\"" else " class=\"threat-status-cell\""
  }

  /** A species missing from the register is shown in grey, and every
      category of the priority list but "Introduced and Naturalised" gets a
      class. */
  lemma HighlightOfRegister(register: seq<Herps.ThreatEntry>, name: string)
    ensures (forall k :: 0 <= k < |register| ==> register[k].name != name) ==>
      ThreatHighlight(Categorize(Herps.CategoryOrder, Herps.ThreatOf(register, name).category)) == "unknown-text-color"
    ensures forall c :: c in Herps.CategoryOrder ==>
      (ThreatHighlight(Categorize(Herps.CategoryOrder, c)) == "" <==> c == "Introduced and Naturalised")
  {
    assert "unknown" in Herps.CategoryOrder by {
      assert Herps.CategoryOrder[6] == "unknown";
    }
  }

  // ---------------------------------------------------------------- 0/1 flags

  /** `map({0: 'False', 1: 'True'})`: any other value becomes a blank cell. */
  function FlagCell(v: int): (cell: Option<string>)
    ensures cell == Some("True") <==> v == 1
    ensures cell == Some("False") <==> v == 0
    ensures cell.None? <==> v != 0 && v != 1
  {
    if v == 0 then Some("False") else if v == 1 then Some("True") else None
  }

  // ---------------------------------------------------------------- bat occurrences

  /** The label order of the bat export. */
  const BatSpeciesOrder: seq<string> := [Bats.BothSpecies, Bats.LongTailed, Bats.ShortTailed, Bats.UnknownBat, Bats.NoBat]

  /** One line of the bat occurrence CSV, in column order (the combined
      "lat, lon" column is the two coordinates formatted together). */
  datatype BatLine = BatLine(
    species: Option<string>,
    locationName: string,
    roost: Option<string>,
    date: int,
    passes: string,
    detectorType: string,
    nightsOut: string,
    surveyMethod: string,
    longitude: real,
    latitude: real,
    distanceKm: real,
    direction: Compass.Direction)

  function BatLineOf(r: Bats.BatObs): BatLine
  {
    BatLine(Categorize(BatSpeciesOrder, r.species), r.detail.locationName, FlagCell(r.detail.roost),
      r.date, r.detail.passes, r.detail.detectorType, r.detail.nightsOut, r.detail.surveyMethod,
      r.longitude, r.latitude, r.distanceKm, Compass.CalculateDirection(r.bearing))
  }

  function BatLines(rows: seq<Bats.BatObs>): (lines: seq<BatLine>)
    ensures |lines| == |rows|
    ensures forall i :: 0 <= i < |rows| ==> lines[i] == BatLineOf(rows[i])
  {
    seq(|rows|, i requires 0 <= i < |rows| => BatLineOf(rows[i]))
  }

  /** `sort_values(by=['batspecies', 'distance_km'])` with the label order
      as an ordered Categorical. */
  predicate BatLineLe(a: BatLine, b: BatLine)
  {
    var ra, rb := Rank(BatSpeciesOrder, a.species), Rank(BatSpeciesOrder, b.species);
    ra < rb || (ra == rb && a.distanceKm <= b.distanceKm)
  }

  function BatLineOrder(): (BatLine, BatLine) -> bool
  {
    (a: BatLine, b: BatLine) => BatLineLe(a, b)
  }

  lemma BatLineOrderIsTotalPreorder()
    ensures Total(BatLineOrder()) && Transitive(BatLineOrder())
  {
  }

  /** `download_bat_data` without the transport: the records within the
      radius as CSV lines, by label order then distance. */
  method ExportBatOccurrences(df: seq<Bats.BatObs>, radius: int) returns (lines: seq<BatLine>)
    ensures SortedBy(lines, BatLineOrder())
    ensures multiset(lines) == multiset(BatLines(Filter(df, Within(radius))))
  {
    var inRadius := Filter(df, Within(radius));
    var projected := BatLines(inRadius);
    BatLineOrderIsTotalPreorder();
    lines := SortBy(projected, BatLineOrder());
  }

  /** The export holds one line per record within the radius and nothing
      from outside it; "Both species detected" lines come first and lines
      with a label outside the list (a blank species cell) come last. */
  lemma BatExportContents(df: seq<Bats.BatObs>, radius: int, lines: seq<BatLine>)
    requires SortedBy(lines, BatLineOrder())
    requires multiset(lines) == multiset(BatLines(Filter(df, Within(radius))))
    ensures |lines| == |Filter(df, Within(radius))|
    ensures forall e :: e in lines ==> e.distanceKm <= radius as real
    ensures forall e :: e in lines ==> exists r :: r in df && e == BatLineOf(r)
    ensures forall i, j :: 0 <= i < j < |lines| ==>
      Rank(BatSpeciesOrder, lines[i].species) <= Rank(BatSpeciesOrder, lines[j].species)
  {
    var inRadius := Filter(df, Within(radius));
    FilterMembers(df, Within(radius));
    assert |lines| == |multiset(lines)| == |multiset(BatLines(inRadius))| == |inRadius|;
    forall e | e in lines ensures e.distanceKm <= radius as real && exists r :: r in df && e == BatLineOf(r) {
      assert e in multiset(BatLines(inRadius));
      var k :| 0 <= k < |inRadius| && BatLines(inRadius)[k] == e;
      assert inRadius[k] in inRadius;
    }
    forall i, j | 0 <= i < j < |lines|
      ensures Rank(BatSpeciesOrder, lines[i].species) <= Rank(BatSpeciesOrder, lines[j].species)
    {
      assert BatLineOrder()(lines[i], lines[j]);
    }
  }

  // ---------------------------------------------------------------- herpetofauna occurrences

  /** One line of the herpetofauna occurrence CSV, in column order. */
  datatype HerpLine = HerpLine(
    scientificName: string,
    commonName: string,
    recordVerified: Option<string>,
    date: int,
    placeName: string,
    sightingType: string,
    numberOfIndividuals: string,
    identification: string,
    ageInYears: string,
    longitude: real,
    latitude: real,
    distanceKm: real,
    direction: Compass.Direction)

  function HerpLineOf(r: Herps.HerpObs): HerpLine
  {
    HerpLine(r.species, r.detail.commonName, FlagCell(r.detail.recordVerified), r.date,
      r.detail.placeName, r.detail.sightingType, r.detail.numberOfIndividuals,
      r.detail.identification, r.detail.ageInYears,
      r.longitude, r.latitude, r.distanceKm, Compass.CalculateDirection(r.bearing))
  }

  function HerpLines(rows: seq<Herps.HerpObs>): (lines: seq<HerpLine>)
    ensures |lines| == |rows|
    ensures forall i :: 0 <= i < |rows| ==> lines[i] == HerpLineOf(rows[i])
  {
    seq(|rows|, i requires 0 <= i < |rows| => HerpLineOf(rows[i]))
  }

  /** `sort_values(by=['scientific_name', 'distance_km'])`. */
  predicate HerpLineLe(a: HerpLine, b: HerpLine)
  {
    StrLt(a.scientificName, b.scientificName)
    || (a.scientificName == b.scientificName && a.distanceKm <= b.distanceKm)
  }

  function HerpLineOrder(): (HerpLine, HerpLine) -> bool
  {
    (a: HerpLine, b: HerpLine) => HerpLineLe(a, b)
  }

  lemma HerpLineOrderIsTotalPreorder()
    ensures Total(HerpLineOrder()) && Transitive(HerpLineOrder())
  {
    forall a: HerpLine, b: HerpLine ensures HerpLineLe(a, b) || HerpLineLe(b, a) {
      StrLeTotal(a.scientificName, b.scientificName);
    }
    forall a: HerpLine, b: HerpLine, c: HerpLine | HerpLineLe(a, b) && HerpLineLe(b, c)
      ensures HerpLineLe(a, c)
    {
      if StrLt(a.scientificName, b.scientificName) && StrLt(b.scientificName, c.scientificName) {
        StrLeTransitive(a.scientificName, b.scientificName, c.scientificName);
        if a.scientificName == c.scientificName {
          StrLeAntisymmetric(a.scientificName, b.scientificName);
        }
      }
    }
  }

  /** `download_herp_data` without the transport: the records within the
      radius as CSV lines, by scientific name then distance. */
  method ExportHerpOccurrences(df: seq<Herps.HerpObs>, radius: int) returns (lines: seq<HerpLine>)
    ensures SortedBy(lines, HerpLineOrder())
    ensures multiset(lines) == multiset(HerpLines(Filter(df, Within(radius))))
  {
    var inRadius := Filter(df, Within(radius));
    var projected := HerpLines(inRadius);
    HerpLineOrderIsTotalPreorder();
    lines := SortBy(projected, HerpLineOrder());
  }

  /** In the herpetofauna export the lines of one species are contiguous:
      between two lines of the same species only lines of that species
      appear. */
  lemma HerpExportGroupsSpecies(lines: seq<HerpLine>)
    requires SortedBy(lines, HerpLineOrder())
    ensures forall i, j, k :: 0 <= i < j < k < |lines| && lines[i].scientificName == lines[k].scientificName ==>
      lines[j].scientificName == lines[i].scientificName
  {
    forall i, j, k | 0 <= i < j < k < |lines| && lines[i].scientificName == lines[k].scientificName
      ensures lines[j].scientificName == lines[i].scientificName
    {
      assert HerpLineOrder()(lines[i], lines[j]) && HerpLineOrder()(lines[j], lines[k]);
      var a, b := lines[i].scientificName, lines[j].scientificName;
      if a != b {
        StrLeAntisymmetric(a, b);
      }
    }
  }

  // ---------------------------------------------------------------- summary downloads

  const NoHerpSummary: string := "No herpetofauna summary data available to download."
  const NoBatSummary: string := "No bat summary data available to download."

  /** The herpetofauna summary CSV's header, in column order. */
  function HerpSummaryHeader(radius: int): (h: seq<string>)
    ensures |h| == 10
    ensures h[6] == "Most recent sighting within " + IntToDecimal(radius) + " km"
  {
    ["Taxa Group", "Species", "Common Name", "Threat Status", "Observation Type Summary",
     "Total Observations", "Most recent sighting within " + IntToDecimal(radius) + " km",
     "Nearest Record (all time)", "Nearest Record 2013 to 2023", "Nearest Record 2018 to 2023"]
  }

  /** One line of the herpetofauna summary CSV, in column order: the CSV
      observation-type summary (without HTML), and the 2013-2023 record
      before the 2018-2023 one. */
  datatype HerpSummaryLine = HerpSummaryLine(
    taxaGroup: Option<string>,
    species: string,
    commonName: string,
    threatStatus: string,
    observationTypes: string,
    totalObservations: nat,
    mostRecent: Option<int>,
    allTime: NearestInfo,
    past10Years: NearestInfo,
    past5Years: NearestInfo)

  function SummaryLineOf(row: Herps.HerpRow): HerpSummaryLine
  {
    HerpSummaryLine(row.taxaGroup, row.species, row.commonName, row.threatDisplay, row.csvSummary,
      row.total, row.mostRecent, row.allTime, row.past10Years, row.past5Years)
  }

  datatype Table<L> = Table(header: seq<string>, lines: seq<L>)

  /** `download_herp_summary_data` on a summariser result: an error when there
      are no result rows, otherwise one line per row in the rows' order. */
  function HerpSummaryCsv(result: Herps.HerpResult, radius: int): (t: Result<Table<HerpSummaryLine>>)
    ensures t.Failure? <==> result.NoRecords? || |result.results| == 0
    ensures t.Failure? ==> t.error == NoHerpSummary
    ensures t.Success? ==> t.value.header == HerpSummaryHeader(radius) && |t.value.lines| == |result.results|
    ensures t.Success? ==> forall i :: 0 <= i < |result.results| ==>
      && t.value.lines[i] == SummaryLineOf(result.results[i])
      && t.value.lines[i].species == result.results[i].species
      && t.value.lines[i].observationTypes == result.results[i].csvSummary
      && t.value.lines[i].past10Years == result.results[i].past10Years
      && t.value.lines[i].past5Years == result.results[i].past5Years
  {
    var rows := if result.Summary? then result.results else [];
    if |rows| == 0 then Failure(NoHerpSummary)
    else Success(Table(HerpSummaryHeader(radius), seq(|rows|, i requires 0 <= i < |rows| => SummaryLineOf(rows[i]))))
  }

  /** The summary download fails exactly when no record lies within the
      radius; otherwise it has one line per row of the summariser's sorted
      result, in that order. `result`, `species` and `rows` name the
      summariser's result, species list and unsorted rows. */
  method DownloadHerpSummary(df: seq<Herps.HerpObs>, register: seq<Herps.ThreatEntry>, radius: int)
    returns (t: Result<Table<HerpSummaryLine>>, ghost result: Herps.HerpResult,
             ghost species: seq<string>, ghost rows: seq<Herps.HerpRow>)
    ensures Herps.IsHerpSummary(result, species, rows, df, register, radius)
    ensures t == HerpSummaryCsv(result, radius)
    ensures t.Failure? <==> |Filter(df, Within(radius))| == 0
    ensures t.Failure? ==> t.error == NoHerpSummary
    ensures t.Success? ==>
      && result.Summary? && |t.value.lines| == |result.results|
      && forall i :: 0 <= i < |result.results| ==> t.value.lines[i] == SummaryLineOf(result.results[i])
  {
    var summary;
    summary, species, rows := Herps.ProcessHerpetofaunaData(df, register, radius);
    result := summary;
    if summary.Summary? {
      Herps.SpeciesListEmpty(species, Filter(df, Within(radius)));
    }
    t := HerpSummaryCsv(summary, radius);
  }

  /** The bat summary CSV's header, in column order. */
  const BatSummaryHeader: seq<string> := [
    "Species", "All time nearest record", "Nearest record 2013 to 2023", "Nearest record 2018 to 2023",
    "All time nearest roost", "Nearest roost 2013 to 2023", "Nearest roost 2018 to 2023"]

  /** `download_bat_summary_data` on a summariser result: an error for an
      empty table, otherwise the table's rows. */
  function BatSummaryCsv(summary: Bats.BatSummary): (t: Result<Table<Bats.BatRow>>)
    ensures t.Failure? <==> |summary.summaryTable| == 0
    ensures t.Failure? ==> t.error == NoBatSummary
    ensures t.Success? ==> t.value == Table(BatSummaryHeader, summary.summaryTable)
  {
    if |summary.summaryTable| == 0 then Failure(NoBatSummary) else Success(Table(BatSummaryHeader, summary.summaryTable))
  }

  /** The bat summary download never fails: it is the summariser's table
      under the seven-column header, which always has the two named
      species' rows. */
  method DownloadBatSummary(df: seq<Bats.BatObs>, radius: int) returns (t: Result<Table<Bats.BatRow>>)
    ensures t == BatSummaryCsv(Bats.BatSummaryOf(df, radius))
    ensures t.Success?
    ensures t.value == Table(BatSummaryHeader, Bats.BatSummaryOf(df, radius).summaryTable)
    ensures 2 <= |t.value.lines| <= 3
    ensures t.value.lines[0].species == Bats.LongTailed && t.value.lines[1].species == Bats.ShortTailed
  {
    var summary := Bats.ProcessBatData(df, radius);
    Bats.TableRows(df, radius);
    t := BatSummaryCsv(summary);
  }
}
