/** The cargo-unit registry of the backend (ArgosDashboard/backend/main.py):
    the traffic-light status, the defaults every saved report receives, the
    upsert keyed by cargo id, the cleanup of the language model's answer and
    the listing newest first. The SQL table is a sequence of rows in insertion
    order; the database assigns ids from a counter. */
module Registry {
  import opened Wrappers
  import opened Text
  import opened Ordering

  // ---------------------------------------------------------------- status

  /** `TrafficLight`: the only statuses a report can carry. */
  datatype TrafficLight = Green | Yellow | Red

  function TrafficLightValue(t: TrafficLight): string
  {
    match t
    case Green => "green"
    case Yellow => "yellow"
    case Red => "red"
  }

  /** Validation of a status string: only the three values are accepted. */
  function ParseTrafficLight(s: string): (r: Option<TrafficLight>)
    ensures r.Some? <==> s == "green" || s == "yellow" || s == "red"
  {
    match s
    case "green" => Some(Green)
    case "yellow" => Some(Yellow)
    case "red" => Some(Red)
    case _ => None
  }

  /** Parsing and printing a status are inverse to each other. */
  lemma TrafficLightRoundTrip(t: TrafficLight, s: string)
    ensures ParseTrafficLight(TrafficLightValue(t)) == Some(t)
    ensures ParseTrafficLight(s).Some? ==> TrafficLightValue(ParseTrafficLight(s).value) == s
  {
  }

  // ---------------------------------------------------------------- defaults

  const DestinationOptions: seq<string> :=
    ["JFK", "LAX", "SFO", "SIN", "LHR", "FRA", "SYD", "NRT", "DXB", "CDG", "YYZ", "BOM"]

  const HomeLocation: string := "HK"

  /** The text before the destination in a generated shipping location. */
  const ShippingPrefix: string := "HK ➜ "

  /** `generate_shipping_destination`: "HK ➜ " and a destination chosen at
      random, modelled as an arbitrary choice. */
  method GenerateShippingDestination() returns (shipping: string)
    ensures exists dest :: dest in DestinationOptions && shipping == ShippingPrefix + dest
  {
    assert DestinationOptions[0] in DestinationOptions;
    var dest :| dest in DestinationOptions;
    shipping := ShippingPrefix + dest;
  }

  /** The fields of a report, as the upsert copies them. */
  datatype ReportValues = ReportValues(
    uldId: string,
    status: TrafficLight,
    damageCategory: Option<string>,
    lastSeen: int,
    location: Option<string>,
    shippingLocation: Option<string>)

  /** A shipping location that `ensure_report_defaults` replaces: missing,
      empty or only whitespace. */
  predicate IsBlank(s: Option<string>)
  {
    s.None? || PyStrip(s.value) == []
  }

  /** An incoming `ULDReport`, whose fields `ensure_report_defaults` sets. */
  class UldReport {
    var uldId: string
    var status: TrafficLight
    var damageCategory: Option<string>
    var lastSeen: int
    var location: Option<string>
    var shippingLocation: Option<string>

    constructor (uldId: string, status: TrafficLight, damageCategory: Option<string>, lastSeen: int,
                 location: Option<string>, shippingLocation: Option<string>)
      ensures Values() == ReportValues(uldId, status, damageCategory, lastSeen, location, shippingLocation)
    {
      this.uldId := uldId;
      this.status := status;
      this.damageCategory := damageCategory;
      this.lastSeen := lastSeen;
      this.location := location;
      this.shippingLocation := shippingLocation;
    }

    function Values(): ReportValues
      reads this
    {
      ReportValues(uldId, status, damageCategory, lastSeen, location, shippingLocation)
    }

    /** `ensure_report_defaults`: the location is always "HK"; a non-blank
        shipping location is kept, a blank one is generated. */
    method EnsureReportDefaults()
      modifies this
      ensures location == Some(HomeLocation)
      ensures !IsBlank(old(shippingLocation)) ==> shippingLocation == old(shippingLocation)
      ensures IsBlank(old(shippingLocation)) ==>
        exists dest :: dest in DestinationOptions && shippingLocation == Some(ShippingPrefix + dest)
      ensures !IsBlank(shippingLocation)
      ensures uldId == old(uldId) && status == old(status) && damageCategory == old(damageCategory)
      ensures lastSeen == old(lastSeen)
    {
      location := Some(HomeLocation);
      if IsBlank(shippingLocation) {
        var generated := GenerateShippingDestination();
        shippingLocation := Some(generated);
        assert generated[0] == 'H';
      }
    }
  }

  // ---------------------------------------------------------------- the table

  /** A row of the `ULD` table. */
  datatype UldRow = UldRow(
    id: nat,
    uldId: string,
    status: TrafficLight,
    damageCategory: Option<string>,
    lastSeen: int,
    location: Option<string>,
    shippingLocation: Option<string>)

  /** The first row with the cargo id, or -1. */
  function FindFirst(rows: seq<UldRow>, uldId: string): (r: int)
    ensures -1 <= r < |rows|
    ensures r >= 0 ==> rows[r].uldId == uldId && forall k :: 0 <= k < r ==> rows[k].uldId != uldId
    ensures r == -1 ==> forall k :: 0 <= k < |rows| ==> rows[k].uldId != uldId
  {
    if rows == [] then -1
    else if rows[0].uldId == uldId then 0
    else
      var k := FindFirst(rows[1..], uldId);
      if k == -1 then -1 else k + 1
  }

  /** An existing row updated by a report: everything but the id and the
      cargo id is overwritten. */
  function Overwrite(row: UldRow, report: ReportValues): UldRow
  {
    row.(status := report.status, damageCategory := report.damageCategory, lastSeen := report.lastSeen,
         location := report.location, shippingLocation := report.shippingLocation)
  }

  function NewRow(id: nat, report: ReportValues): UldRow
  {
    UldRow(id, report.uldId, report.status, report.damageCategory, report.lastSeen,
      report.location, report.shippingLocation)
  }

  /** The table after `save_report_to_db` of a report whose defaults are set. */
  function Upserted(rows: seq<UldRow>, report: ReportValues, nextId: nat): (r: seq<UldRow>)
    ensures (exists k :: 0 <= k < |rows| && rows[k].uldId == report.uldId) ==> |r| == |rows|
    ensures (forall k :: 0 <= k < |rows| ==> rows[k].uldId != report.uldId) ==>
      r == rows + [NewRow(nextId, report)]
    ensures exists k :: 0 <= k < |r| && r[k].uldId == report.uldId && r[k].lastSeen == report.lastSeen
  {
    var i := FindFirst(rows, report.uldId);
    if i >= 0 then
      var r := rows[i := Overwrite(rows[i], report)];
      assert r[i].uldId == report.uldId && r[i].lastSeen == report.lastSeen;
      r
    else
      var r := rows + [NewRow(nextId, report)];
      assert r[|rows|].uldId == report.uldId && r[|rows|].lastSeen == report.lastSeen;
      r
  }

  /** No two rows share a cargo id, and no two rows share an id below the
      counter. */
  ghost predicate WellFormed(rows: seq<UldRow>, nextId: nat)
  {
    && (forall i, j :: 0 <= i < j < |rows| ==> rows[i].uldId != rows[j].uldId)
    && (forall i, j :: 0 <= i < j < |rows| ==> rows[i].id != rows[j].id)
    && (forall i :: 0 <= i < |rows| ==> rows[i].id < nextId)
  }

  /** A known cargo id: its row keeps its id and position and takes the new
      values; the row count and every other row are unchanged. */
  lemma UpsertExisting(rows: seq<UldRow>, report: ReportValues, nextId: nat, i: nat)
    requires i < |rows| && rows[i].uldId == report.uldId
    requires WellFormed(rows, nextId)
    ensures var r := Upserted(rows, report, nextId);
      && |r| == |rows|
      && r[i].id == rows[i].id && r[i].uldId == report.uldId
      && r[i].status == report.status && r[i].damageCategory == report.damageCategory
      && r[i].lastSeen == report.lastSeen && r[i].location == report.location
      && r[i].shippingLocation == report.shippingLocation
      && forall k :: 0 <= k < |rows| && k != i ==> r[k] == rows[k]
  {
    var f := FindFirst(rows, report.uldId);
    assert f == i;
  }

  /** A new cargo id: exactly one row is appended, with the next id, and the
      existing rows are untouched. */
  lemma UpsertNew(rows: seq<UldRow>, report: ReportValues, nextId: nat)
    requires forall k :: 0 <= k < |rows| ==> rows[k].uldId != report.uldId
    ensures var r := Upserted(rows, report, nextId);
      && |r| == |rows| + 1 && r[..|rows|] == rows
      && r[|rows|] == NewRow(nextId, report)
  {
  }

  /** The upsert keeps the table well formed. */
  lemma UpsertKeepsWellFormed(rows: seq<UldRow>, report: ReportValues, nextId: nat)
    requires WellFormed(rows, nextId)
    ensures var i := FindFirst(rows, report.uldId);
      WellFormed(Upserted(rows, report, nextId), if i >= 0 then nextId else nextId + 1)
  {
  }

  /** The `ULD` table. */
  class UldTable {
    var rows: seq<UldRow>
    var nextId: nat

    ghost predicate Valid()
      reads this
    {
      WellFormed(rows, nextId)
    }

    constructor ()
      ensures Valid() && rows == [] && nextId == 1
    {
      rows := [];
      nextId := 1;
    }

    /** The `select ... where uld_id == ...` and its `.first()`. */
    method FindRow(uldId: string) returns (index: int)
      ensures index == FindFirst(rows, uldId)
    {
      index := 0;
      while index < |rows|
        invariant 0 <= index <= |rows|
        invariant FindFirst(rows, uldId) == -1 || index <= FindFirst(rows, uldId)
        invariant forall k :: 0 <= k < index ==> rows[k].uldId != uldId
      {
        if rows[index].uldId == uldId {
          return;
        }
        index := index + 1;
      }
      index := -1;
    }

    /** The upsert of `save_report_to_db`: the first row with the report's
        cargo id is overwritten, or a new row is inserted with the next id;
        the row saved is returned. */
    method Upsert(values: ReportValues) returns (saved: UldRow)
      requires Valid()
      modifies this
      ensures Valid()
      ensures rows == Upserted(old(rows), values, old(nextId))
      ensures nextId == if FindFirst(old(rows), values.uldId) >= 0 then old(nextId) else old(nextId) + 1
      ensures saved in rows && saved.uldId == values.uldId
    {
      var i := FindRow(values.uldId);
      UpsertKeepsWellFormed(rows, values, nextId);
      if i >= 0 {
        saved := Overwrite(rows[i], values);
        rows := rows[i := saved];
        assert rows[i] == saved;
      } else {
        saved := NewRow(nextId, values);
        rows := rows + [saved];
        nextId := nextId + 1;
        assert rows[|rows| - 1] == saved;
      }
    }

    /** `save_report_to_db`: the defaults are set on the report, then the
        report is upserted. */
    method SaveReport(report: UldReport) returns (saved: UldRow)
      requires Valid()
      modifies this, report
      ensures Valid()
      ensures report.location == Some(HomeLocation) && !IsBlank(report.shippingLocation)
      ensures !IsBlank(old(report.shippingLocation)) ==> report.shippingLocation == old(report.shippingLocation)
      ensures report.uldId == old(report.uldId) && report.status == old(report.status)
      ensures report.damageCategory == old(report.damageCategory) && report.lastSeen == old(report.lastSeen)
      ensures rows == Upserted(old(rows), report.Values(), old(nextId))
      ensures nextId == if FindFirst(old(rows), report.uldId) >= 0 then old(nextId) else old(nextId) + 1
      ensures saved in rows && saved.uldId == report.uldId
    {
      report.EnsureReportDefaults();
      saved := Upsert(report.Values());
    }

    /** `get_all_ulds`: every row, newest `last_seen` first. */
    method ListUlds() returns (listed: seq<UldRow>)
      ensures listed == ListedRows(rows)
    {
      listed := SortDesc(rows, LastSeen);
    }
  }

  function LastSeen(row: UldRow): int { row.lastSeen }

  /** The listing order; rows with equal `last_seen` keep table order, one of
      the orders the database may return. */
  function ListedRows(rows: seq<UldRow>): (r: seq<UldRow>)
    ensures |r| == |rows|
  {
    SortDesc(rows, LastSeen)
  }

  /** The listing holds every row exactly once, newest first. */
  lemma ListedRowsCorrect(rows: seq<UldRow>)
    ensures SortedDesc(ListedRows(rows), LastSeen)
    ensures multiset(ListedRows(rows)) == multiset(rows)
    ensures |ListedRows(rows)| == |rows|
  {
    SortDescCorrect(rows, LastSeen);
  }

  // ---------------------------------------------------------------- model answer cleanup

  const Fence: string := "```"
  const JsonFence: string := "```json"

  /** The cleanup in `analyze_uld_damage`: strip, drop the "```json" and "```"
      fences, strip again. */
  function CleanLlmResponse(text: string): (r: string)
    ensures HasNoSurroundingSpace(r)
  {
    var unfenced := ReplaceAll(ReplaceAll(PyStrip(text), JsonFence, ""), Fence, "");
    StripHasNoSurroundingSpace(unfenced);
    PyStrip(unfenced)
  }

  lemma StripHasNoSurroundingSpace(x: string)
    ensures HasNoSurroundingSpace(PyStrip(x))
  {
  }

  predicate HasNoFence(s: string)
  {
    !Contains(s, Fence)
  }

  /** After removing the fences from the left, the text starts where the
      input did, unless the input starts with a fence. */
  lemma RemoveFenceHead(t: string)
    requires t != [] && !(|t| >= 3 && t[..3] == Fence)
    ensures ReplaceAll(t, Fence, "") != [] && ReplaceAll(t, Fence, "")[0] == t[0]
  {
  }

  /** Where the input does not start with a fence, neither does the output:
      a fence there would need the input's first three characters to be
      backticks. */
  lemma {:induction false} RemoveFenceNoneAtFront(s: string)
    requires |s| >= 3 && s[..3] != Fence
    ensures !OccursAt(ReplaceAll(s, Fence, ""), Fence, 0)
  {
    var r := ReplaceAll(s, Fence, "");
    var rest := ReplaceAll(s[1..], Fence, "");
    assert r == [s[0]] + rest;
    assert s[..3] == [s[0], s[1], s[2]];
    if s[0] != '`' {
      assert r[0] != Fence[0];
    } else if s[1] != '`' {
      RemoveFenceHead(s[1..]);
      assert r[1] == s[1];
      assert r[1] != Fence[1];
    } else {
      assert s[2] != '`';
      RemoveFenceHead(s[2..]);
      if |s| == 3 {
        assert rest == s[1..];
      } else {
        assert s[1..][..3] != Fence;
        assert rest == [s[1]] + ReplaceAll(s[2..], Fence, "");
      }
      assert r[2] == s[2];
      assert r[2] != Fence[2];
    }
  }

  /** Removing every fence from the left leaves no fence behind, even where
      removal brings backticks together. */
  lemma {:induction false} RemoveFenceLeavesNone(s: string)
    ensures HasNoFence(ReplaceAll(s, Fence, ""))
    decreases |s|
  {
    var r := ReplaceAll(s, Fence, "");
    if |s| < 3 {
      assert r == s;
    } else if s[..3] == Fence {
      assert r == ReplaceAll(s[3..], Fence, "");
      RemoveFenceLeavesNone(s[3..]);
    } else {
      var rest := ReplaceAll(s[1..], Fence, "");
      RemoveFenceLeavesNone(s[1..]);
      assert r == [s[0]] + rest;
      RemoveFenceNoneAtFront(s);
      forall i | 0 <= i <= |r| - 3 ensures !OccursAt(r, Fence, i) {
        if i > 0 {
          assert r[i..i + 3] == rest[i - 1..i + 2];
          assert !OccursAt(rest, Fence, i - 1);
        }
      }
    }
  }

  /** A slice of a text without fences has none either. */
  lemma SliceHasNoFence(s: string, a: nat, b: nat)
    requires a <= b <= |s| && HasNoFence(s)
    ensures HasNoFence(s[a..b])
  {
    var t := s[a..b];
    assert |t| == b - a;
    forall i | 0 <= i <= |t| - 3 ensures !OccursAt(t, Fence, i) {
      assert t[i] == s[a + i] && t[i + 1] == s[a + i + 1] && t[i + 2] == s[a + i + 2];
      assert t[i..i + 3] == s[a + i..a + i + 3];
      assert !OccursAt(s, Fence, a + i);
    }
  }

  predicate HasNoSurroundingSpace(r: string)
  {
    r != [] ==> !IsPyWhitespace(r[0]) && !IsPyWhitespace(r[|r| - 1])
  }

  /** Stripping keeps a text free of fences. */
  lemma StripKeepsNoFence(x: string)
    requires HasNoFence(x)
    ensures HasNoFence(PyStrip(x))
    ensures HasNoSurroundingSpace(PyStrip(x))
  {
    var front := TrimStart(x, IsPyWhitespace);
    var r := TrimEnd(front, IsPyWhitespace);
    SliceHasNoFence(x, |x| - |front|, |x|);
    assert x[|x| - |front|..|x|] == front;
    SliceHasNoFence(front, 0, |r|);
    assert front[0..|r|] == r;
  }

  /** The cleaned answer holds no code fence and starts and ends with a
      non-space character. */
  lemma CleanLlmResponseIsClean(text: string)
    ensures HasNoFence(CleanLlmResponse(text))
    ensures HasNoSurroundingSpace(CleanLlmResponse(text))
  {
    var unfenced := ReplaceAll(PyStrip(text), JsonFence, "");
    var x := ReplaceAll(unfenced, Fence, "");
    RemoveFenceLeavesNone(unfenced);
    StripKeepsNoFence(x);
  }

  /** Text without backticks is unchanged by fence removal. */
  lemma {:induction false} ReplaceAbsent(s: string, pattern: string)
    requires pattern != [] && pattern[0] !in s
    ensures ReplaceAll(s, pattern, "") == s
    decreases |s|
  {
    if |s| >= |pattern| {
      assert s[..|pattern|][0] == s[0];
      ReplaceAbsent(s[1..], pattern);
      assert [s[0]] + s[1..] == s;
    }
  }

  /** A bare JSON answer, already stripped, passes through unchanged. */
  lemma CleanLlmResponseKeepsBareJson(text: string)
    requires '`' !in text
    requires HasNoSurroundingSpace(text)
    ensures CleanLlmResponse(text) == text
  {
    if text != [] {
      TrimKeepsTrimmed(text, IsPyWhitespace);
      ReplaceAbsent(text, JsonFence);
      ReplaceAbsent(text, Fence);
      TrimKeepsTrimmed(text, IsPyWhitespace);
    }
  }
}
