/** Damage reports (ArgosDashboard/frontend/src/pages/ReportsPage.jsx): the
    type/location filter over the damage records, the report metadata, the
    report history capped at 20 entries, and the PDF export layout. */
module Reports {
  import opened Wrappers
  import opened Text

  datatype DamageRecord = DamageRecord(
    id: string,
    uldType: string,
    damageDate: string,
    location: string,
    damageType: string,
    status: string,
    statusTone: string,
    repairCost: string)

  /** The page's fixed record set. */
  const ReportRows: seq<DamageRecord> := [
    DamageRecord("AKE12345DL", "AKE", "2023-11-05", "JFK", "Forklift Puncture", "Damaged", "red", "$450.00"),
    DamageRecord("PMC67890AA", "PMC", "2023-11-03", "LAX", "Corner Cap Bent", "Repair Pending", "yellow", "$120.00"),
    DamageRecord("PAG54321UA", "PAG", "2023-10-28", "ORD", "Door Latch Broken", "Repaired", "green", "$275.50"),
    DamageRecord("AKE98765SW", "AKE", "2023-10-25", "JFK", "Panel Dent", "Damaged", "red", "$85.00"),
    DamageRecord("AKE11223BA", "AKE", "2023-10-22", "LAX", "Tear in Cover", "Repaired", "green", "$150.00")
  ]

  const TypeOptions: seq<string> := ["all", "AKE", "PMC", "PAG"]
  const LocationOptions: seq<string> := ["all", "JFK", "LAX", "ORD", "SFO"]
  const HistoryCap: nat := 20

  /** The filter form. The date range is captured but never applied. */
  datatype Filters = Filters(dateFrom: string, dateTo: string, uldType: string, location: string)

  datatype FilterField = DateFrom | DateTo | UldType | Location

  datatype Parameters = Parameters(uldType: string, location: string)

  datatype ReportMeta = ReportMeta(id: string, generatedAt: string, parameters: Parameters, total: nat)

  // ---------------------------------------------------------------- the report filter

  predicate RowMatches(row: DamageRecord, f: Filters) {
    && (f.uldType == "all" || row.uldType == f.uldType)
    && (f.location == "all" || row.location == f.location)
  }

  /** `REPORT_ROWS.filter(...)`: the matching rows in record order. */
  function FilterRows(rows: seq<DamageRecord>, f: Filters): (r: seq<DamageRecord>)
    ensures |r| <= |rows|
    ensures forall k :: 0 <= k < |r| ==> RowMatches(r[k], f)
  {
    if rows == [] then []
    else (if RowMatches(rows[0], f) then [rows[0]] else []) + FilterRows(rows[1..], f)
  }

  function Shift(idx: seq<nat>): (r: seq<nat>)
    ensures |r| == |idx| && forall k :: 0 <= k < |idx| ==> r[k] == idx[k] + 1
  {
    seq(|idx|, k requires 0 <= k < |idx| => idx[k] + 1)
  }

  /** The positions of the matching records, ascending. */
  function MatchingPositions(rows: seq<DamageRecord>, f: Filters): seq<nat>
  {
    if rows == [] then []
    else (if RowMatches(rows[0], f) then [0] else []) + Shift(MatchingPositions(rows[1..], f))
  }

  /** One step of `FilterRowsAtPositions`: a head row taken or skipped in
      front of a tail whose positions already read back its rows. */
  lemma {:induction false} PositionsStep(rows: seq<DamageRecord>, tail: seq<nat>, rest: seq<DamageRecord>, taken: bool)
    requires rows != [] && |tail| == |rest|
    requires forall k :: 0 <= k < |rest| ==> tail[k] < |rows| - 1 && rest[k] == rows[1..][tail[k]]
    ensures var pos := (if taken then [0] else []) + Shift(tail);
      var r := (if taken then [rows[0]] else []) + rest;
      |pos| == |r| && forall k :: 0 <= k < |r| ==> pos[k] < |rows| && r[k] == rows[pos[k]]
  {
    var h := if taken then 1 else 0;
    var pos := (if taken then [0] else []) + Shift(tail);
    var r := (if taken then [rows[0]] else []) + rest;
    forall k | 0 <= k < |r| ensures pos[k] < |rows| && r[k] == rows[pos[k]] {
      if k >= h {
        assert pos[k] == tail[k - h] + 1 && r[k] == rest[k - h];
      }
    }
  }

  /** The positions of the matching records, read back from the report, are
      the records the report holds, in order. */
  lemma {:induction false} FilterRowsAtPositions(rows: seq<DamageRecord>, f: Filters)
    ensures |MatchingPositions(rows, f)| == |FilterRows(rows, f)|
    ensures forall k :: 0 <= k < |FilterRows(rows, f)| ==>
      MatchingPositions(rows, f)[k] < |rows| && FilterRows(rows, f)[k] == rows[MatchingPositions(rows, f)[k]]
  {
    if rows != [] {
      FilterRowsAtPositions(rows[1..], f);
      PositionsStep(rows, MatchingPositions(rows[1..], f), FilterRows(rows[1..], f), RowMatches(rows[0], f));
    }
  }

  /** The positions are strictly ascending, so the report keeps record order. */
  lemma {:induction false} MatchingPositionsAscending(rows: seq<DamageRecord>, f: Filters)
    ensures forall k, l :: 0 <= k < l < |MatchingPositions(rows, f)| ==>
      MatchingPositions(rows, f)[k] < MatchingPositions(rows, f)[l]
  {
    if rows != [] {
      MatchingPositionsAscending(rows[1..], f);
      var tail := MatchingPositions(rows[1..], f);
      var head: seq<nat> := if RowMatches(rows[0], f) then [0] else [];
      var pos := MatchingPositions(rows, f);
      assert pos == head + Shift(tail);
      forall k, l | 0 <= k < l < |pos| ensures pos[k] < pos[l] {
        assert pos[l] == tail[l - |head|] + 1;
        if k >= |head| {
          assert pos[k] == tail[k - |head|] + 1;
        }
      }
    }
  }

  /** A position is taken exactly when its record matches both filters: the
      report drops no matching record and admits no other. */
  lemma {:induction false} MatchingPositionsExact(rows: seq<DamageRecord>, f: Filters)
    ensures forall i :: 0 <= i < |rows| ==> (i in MatchingPositions(rows, f) <==> RowMatches(rows[i], f))
  {
    if rows != [] {
      MatchingPositionsExact(rows[1..], f);
      ExactStep(rows, f, MatchingPositions(rows[1..], f));
    }
  }

  /** One step of `MatchingPositionsExact`: position 0 is taken by its own
      match, the others by the tail's positions shifted by one. */
  lemma {:induction false} ExactStep(rows: seq<DamageRecord>, f: Filters, tail: seq<nat>)
    requires rows != []
    requires forall i :: 0 <= i < |rows| - 1 ==> (i in tail <==> RowMatches(rows[1..][i], f))
    ensures var pos := (if RowMatches(rows[0], f) then [0] else []) + Shift(tail);
      forall i :: 0 <= i < |rows| ==> (i in pos <==> RowMatches(rows[i], f))
  {
    var pos := (if RowMatches(rows[0], f) then [0] else []) + Shift(tail);
    forall i | 0 <= i < |rows| ensures (i in pos <==> RowMatches(rows[i], f)) {
      if i == 0 {
        assert 0 !in Shift(tail);
      } else {
        assert rows[i] == rows[1..][i - 1];
        if i - 1 in tail {
          var k :| 0 <= k < |tail| && tail[k] == i - 1;
          assert Shift(tail)[k] == i;
        }
        if i in Shift(tail) {
          var k :| 0 <= k < |Shift(tail)| && Shift(tail)[k] == i;
          assert tail[k] == i - 1;
        }
      }
    }
  }

  /** With both filters at "all" the report is the full record list. */
  lemma {:induction false} FilterAllIsIdentity(rows: seq<DamageRecord>, f: Filters)
    requires f.uldType == "all" && f.location == "all"
    ensures FilterRows(rows, f) == rows
  {
    if rows != [] {
      FilterAllIsIdentity(rows[1..], f);
      assert rows == [rows[0]] + rows[1..];
    }
  }

  /** Filtering the page's records by type "AKE" and any location keeps the
      three AKE records in their order. */
  lemma AkeReport()
    ensures FilterRows(ReportRows, Filters("", "", "AKE", "all")) == [ReportRows[0], ReportRows[3], ReportRows[4]]
  {
    var f := Filters("", "", "AKE", "all");
    assert FilterRows(ReportRows[4..], f) == [ReportRows[4]];
    assert FilterRows(ReportRows[3..], f) == [ReportRows[3], ReportRows[4]];
    assert FilterRows(ReportRows[2..], f) == [ReportRows[3], ReportRows[4]];
    assert FilterRows(ReportRows[1..], f) == [ReportRows[3], ReportRows[4]];
  }

  // ---------------------------------------------------------------- metadata and history

  /** The metadata of a report generated at `nowMillis` (`Date.now()`), whose
      ISO time is `isoNow`. */
  function MakeMeta(results: seq<DamageRecord>, f: Filters, nowMillis: int, isoNow: string): (m: ReportMeta)
    ensures m.total == |results|
    ensures m.parameters.uldType == f.uldType && m.parameters.location == f.location
    ensures StartsWith(m.id, "RPT-")
  {
    ReportMeta("RPT-" + IntToString(nowMillis), isoNow, Parameters(f.uldType, f.location), |results|)
  }

  /** `[meta, ...prev].slice(0, 20)` */
  function PushHistory(meta: ReportMeta, history: seq<ReportMeta>): (r: seq<ReportMeta>)
    ensures 1 <= |r| <= HistoryCap && r[0] == meta
  {
    var next := [meta] + history;
    if |next| <= HistoryCap then next else next[..HistoryCap]
  }

  /** The newest report comes first, the length grows by one up to the cap of
      20, and what follows is the previous history less its oldest entries. */
  lemma PushHistoryShape(meta: ReportMeta, history: seq<ReportMeta>)
    ensures var h := PushHistory(meta, history);
      && |h| >= 1 && h[0] == meta
      && |h| == (if |history| + 1 <= 20 then |history| + 1 else 20)
      && h[1..] == history[..|h| - 1]
  {
  }

  /** A history built by pushes starting from the empty list never holds more
      than 20 reports. */
  lemma {:induction false} HistoryBounded(metas: seq<ReportMeta>, history: seq<ReportMeta>)
    requires |history| <= HistoryCap
    ensures |PushAll(metas, history)| <= HistoryCap
    ensures |metas| > 0 ==> |PushAll(metas, history)| > 0 && PushAll(metas, history)[0] == metas[|metas| - 1]
  {
    if metas != [] {
      HistoryBounded(metas[1..], PushHistory(metas[0], history));
    }
  }

  /** Generating `metas` one after the other. */
  function PushAll(metas: seq<ReportMeta>, history: seq<ReportMeta>): seq<ReportMeta>
  {
    if metas == [] then history else PushAll(metas[1..], PushHistory(metas[0], history))
  }

  // ---------------------------------------------------------------- PDF export

  /** The drawing calls the export makes on the document. */
  datatype PdfOp = SetFontSize(size: nat) | Text(line: string, x: int, y: int) | AddPage | Save(fileName: string)

  const RowsPerExport: nat := 12

  /** "All" for "all", otherwise the value itself. */
  function FilterLabel(value: string): string
  {
    if value == "all" then "All" else value
  }

  function FilterLine(f: Filters): (line: string)
    ensures f.uldType == "all" && f.location == "all" ==> line == "Filters - Type: All, Location: All"
    ensures StartsWith(line, "Filters - Type: ")
  {
    "Filters - Type: " + FilterLabel(f.uldType) + ", Location: " + FilterLabel(f.location)
  }

  function Header(f: Filters, localeNow: string): seq<PdfOp>
  {
    [SetFontSize(16), Text("Cargo Damage Report", 14, 20),
     SetFontSize(11), Text("Generated: " + localeNow, 14, 30),
     Text(FilterLine(f), 14, 38)]
  }

  /** The line for the row at `index`, numbered from 1. */
  function RowLine(index: nat, row: DamageRecord): string
  {
    IntToString(index + 1) + ". " + row.id + " | " + row.damageDate + " | " + row.location
      + " | " + row.damageType + " | " + row.status
  }

  /** Reads the type and location back from a header line. */
  function ParseFilterLine(line: string): Option<Parameters>
  {
    var prefix := "Filters - Type: ";
    var sep := ", Location: ";
    if !StartsWith(line, prefix) then None
    else
      var rest := line[|prefix|..];
      var k := IndexOf(rest, ',');
      if k < 0 || !StartsWith(rest[k..], sep) then None
      else
        var t := rest[..k];
        var l := rest[k + |sep|..];
        Some(Parameters(if t == "All" then "all" else t, if l == "All" then "all" else l))
  }

  /** Cutting `prefix + t + sep + l` at the prefix and at the first comma
      gives back `t` and `l` when the separator starts with the only comma. */
  lemma CutLabelledPair(prefix: string, t: string, sep: string, l: string)
    requires ',' !in t && |sep| > 0 && sep[0] == ','
    ensures var line := prefix + t + sep + l;
      var rest := line[|prefix|..];
      && StartsWith(line, prefix)
      && rest == t + sep + l
      && IndexOf(rest, ',') == |t|
      && StartsWith(rest[|t|..], sep)
      && rest[..|t|] == t
      && rest[|t| + |sep|..] == l
  {
    var line := prefix + t + sep + l;
    assert line == prefix + (t + sep + l);
    var rest := line[|prefix|..];
    assert rest == t + sep + l;
    assert rest == t + (sep + l);
    assert rest[|t|] == ',';
    assert rest[..|t|] == t;
    assert rest[|t|..] == sep + l;
  }

  /** The export header names the filters the report was generated with, so
      reading it back recovers them (for the page's type and location options,
      or any values without a comma other than the literal "All"). */
  lemma FilterLineRoundTrip(f: Filters)
    requires ',' !in f.uldType && f.uldType != "All" && f.location != "All"
    ensures ParseFilterLine(FilterLine(f)) == Some(Parameters(f.uldType, f.location))
  {
    CutLabelledPair("Filters - Type: ", FilterLabel(f.uldType), ", Location: ", FilterLabel(f.location));
  }

  lemma OptionsHaveNoComma()
    ensures forall v :: v in TypeOptions ==> ',' !in v && v != "All"
    ensures forall v :: v in LocationOptions ==> v != "All"
  {
  }

  // ---------------------------------------------------------------- page state

  class ReportsPage {
    var filters: Filters
    var results: seq<DamageRecord>
    var reportMeta: Option<ReportMeta>
    var reportHistory: seq<ReportMeta>
    var activeTab: string

    ghost predicate Valid()
      reads this
    {
      |reportHistory| <= HistoryCap
    }

    constructor ()
      ensures Valid()
      ensures filters == Filters("Oct 05, 2023", "Nov 07, 2023", "all", "all")
      ensures results == ReportRows && reportMeta == None && reportHistory == [] && activeTab == "results"
    {
      filters := Filters("Oct 05, 2023", "Nov 07, 2023", "all", "all");
      results := ReportRows;
      reportMeta := None;
      reportHistory := [];
      activeTab := "results";
    }

    /** `handleFilterChange(field)`: one form field takes the new value. */
    method HandleFilterChange(field: FilterField, value: string)
      requires Valid()
      modifies this
      ensures Valid()
      ensures filters == match field
        case DateFrom => old(filters).(dateFrom := value)
        case DateTo => old(filters).(dateTo := value)
        case UldType => old(filters).(uldType := value)
        case Location => old(filters).(location := value)
      ensures results == old(results) && reportMeta == old(reportMeta)
      ensures reportHistory == old(reportHistory) && activeTab == old(activeTab)
    {
      match field {
        case DateFrom => filters := filters.(dateFrom := value);
        case DateTo => filters := filters.(dateTo := value);
        case UldType => filters := filters.(uldType := value);
        case Location => filters := filters.(location := value);
      }
    }

    /** `handleGenerateReport`, with `Date.now()` and the ISO time as inputs. */
    method GenerateReport(nowMillis: int, isoNow: string)
      requires Valid()
      modifies this
      ensures Valid()
      ensures filters == old(filters)
      ensures results == FilterRows(ReportRows, filters)
      ensures reportMeta == Some(MakeMeta(results, filters, nowMillis, isoNow))
      ensures reportHistory == PushHistory(reportMeta.value, old(reportHistory))
      ensures activeTab == "results"
    {
      var nextResults := FilterRows(ReportRows, filters);
      var meta := MakeMeta(nextResults, filters, nowMillis, isoNow);
      results := nextResults;
      reportMeta := Some(meta);
      reportHistory := PushHistory(meta, reportHistory);
      activeTab := "results";
    }

    /** `handleExportPDF`: the header, at most 12 numbered row lines starting at
        y = 48 and 8 apart, then the save. The page-break branch is part of the
        loop but the 12-row cap keeps y at or below 136, so no page is added. */
    method ExportPdf(localeNow: string, saveMillis: int) returns (doc: seq<PdfOp>)
      ensures var n := if |results| < RowsPerExport then |results| else RowsPerExport;
        && |doc| == 5 + n + 1
        && doc[..5] == Header(filters, localeNow)
        && (forall k :: 0 <= k < n ==> doc[5 + k] == Text(RowLine(k, results[k]), 14, 48 + 8 * k))
        && doc[5 + n] == Save("Cargo-report-" + IntToString(saveMillis) + ".pdf")
      ensures forall i :: 0 <= i < |doc| ==> !doc[i].AddPage? && (doc[i].Text? ==> doc[i].y <= 136)
    {
      doc := Header(filters, localeNow);
      var rows := if |results| < RowsPerExport then results else results[..RowsPerExport];
      var y := 48;
      var index := 0;
      while index < |rows|
        invariant 0 <= index <= |rows| <= RowsPerExport
        invariant y == 48 + 8 * index
        invariant |doc| == 5 + index
        invariant doc[..5] == Header(filters, localeNow)
        invariant forall k :: 0 <= k < index ==> doc[5 + k] == Text(RowLine(k, rows[k]), 14, 48 + 8 * k)
        invariant forall i :: 0 <= i < |doc| ==> !doc[i].AddPage? && (doc[i].Text? ==> doc[i].y <= 136)
      {
        if y > 270 {
          doc := doc + [AddPage];
          y := 20;
        }
        var line := Text(RowLine(index, rows[index]), 14, y);
        assert (doc + [line])[..5] == doc[..5];
        doc := doc + [line];
        y := y + 8;
        index := index + 1;
      }
      assert forall k :: 0 <= k < |rows| ==> rows[k] == results[k];
      var save := Save("Cargo-report-" + IntToString(saveMillis) + ".pdf");
      assert (doc + [save])[..5] == doc[..5];
      doc := doc + [save];
    }
  }
}
