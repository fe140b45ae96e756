/** The live fleet dashboard (ArgosDashboard/frontend/src/components/Dashboard.jsx):
    fleet metrics, the damage-category histogram, the searchable live table and
    the polling fetch that refreshes the unit list. */
module FleetDashboard {
  import opened Wrappers
  import opened Text
  import Ordering
  import opened Percentages

  /** A unit as `GET /api/ulds` returns it. `lastSeen` is the parsed time in
      milliseconds; `damageCategory` is `None` for JSON null. */
  datatype Unit = Unit(
    id: int,
    uldId: string,
    status: string,
    damageCategory: Option<string>,
    location: Option<string>,
    shippingLocation: Option<string>,
    lastSeen: int)

  /** A `{ name, value }` slice of a pie chart. */
  datatype Slice = Slice(name: string, value: nat)

  const ValuePerDamagedUnit: nat := 50000
  const SavingsPerFlaggedUnit: nat := 15000

  // ---------------------------------------------------------------- fleet metrics

  /** `ulds.filter((item) => item.status === status).length` */
  function CountStatus(units: seq<Unit>, status: string): (n: nat)
    ensures n <= |units|
  {
    if units == [] then 0
    else (if units[0].status == status then 1 else 0) + CountStatus(units[1..], status)
  }

  /** Units whose status is not one of the three the dashboard knows. */
  function CountUnrecognised(units: seq<Unit>): nat
  {
    if units == [] then 0
    else (if units[0].status in {"green", "yellow", "red"} then 0 else 1) + CountUnrecognised(units[1..])
  }

  datatype Totals = Totals(
    total: nat,
    green: nat,
    yellow: nat,
    red: nat,
    damagedCount: nat,
    damageRate: real,
    valueAtRisk: nat,
    avoidableSavings: nat)

  /** The `totals` object of the dashboard's memoised view. The damage rate is
      kept as an exact rational; its one-decimal rendering is not modelled. */
  function ComputeTotals(units: seq<Unit>): (t: Totals)
    ensures t.total == |units|
    ensures t.damagedCount == t.yellow + t.red
  {
    var total := |units|;
    var green := CountStatus(units, "green");
    var yellow := CountStatus(units, "yellow");
    var red := CountStatus(units, "red");
    var damaged := yellow + red;
    Totals(
      total, green, yellow, red, damaged,
      Percent(damaged, total),
      red * ValuePerDamagedUnit,
      (yellow + red) * SavingsPerFlaggedUnit)
  }

  /** Every unit is counted in `total`; the three colour counts add up to the
      total less the units whose status is none of the three. */
  lemma {:induction false} StatusCountsPartitionTotal(units: seq<Unit>)
    ensures CountStatus(units, "green") + CountStatus(units, "yellow") + CountStatus(units, "red")
            + CountUnrecognised(units) == |units|
    ensures ComputeTotals(units).green + ComputeTotals(units).yellow + ComputeTotals(units).red
            <= ComputeTotals(units).total
  {
    if units != [] {
      StatusCountsPartitionTotal(units[1..]);
    }
  }

  /** The damage rate is a percentage: 0 for an empty or undamaged fleet,
      100 when every unit is damaged or flagged; the money figures are fixed
      multiples of the counts. */
  lemma {:induction false} DamageRateInRange(units: seq<Unit>)
    ensures var t := ComputeTotals(units);
      && 0.0 <= t.damageRate <= 100.0
      && (t.total == 0 ==> t.damageRate == 0.0)
      && (t.damagedCount == 0 ==> t.damageRate == 0.0)
      && (t.total > 0 && t.damagedCount == t.total ==> t.damageRate == 100.0)
      && t.valueAtRisk == t.red * 50000
      && t.avoidableSavings == (t.yellow + t.red) * 15000
  {
    StatusCountsPartitionTotal(units);
    var t := ComputeTotals(units);
    assert t.damageRate == Percent(t.damagedCount, t.total);
    assert t.damagedCount <= t.total;
    PercentBounds(t.damagedCount, t.total);
  }

  lemma {:induction false} CountStatusUpdate(units: seq<Unit>, i: nat, v: Unit, status: string)
    requires i < |units|
    ensures CountStatus(units[i := v], status) + (if units[i].status == status then 1 else 0)
            == CountStatus(units, status) + (if v.status == status then 1 else 0)
  {
    if i == 0 {
      assert units[i := v][1..] == units[1..];
    } else {
      assert units[i := v][1..] == units[1..][i - 1 := v];
      CountStatusUpdate(units[1..], i - 1, v, status);
    }
  }

  /** Reclassifying one GOOD unit as WARNING or DAMAGED, the fleet size staying
      the same, raises the damage rate. */
  lemma {:induction false} DamageRateMonotone(units: seq<Unit>, i: nat, v: Unit)
    requires i < |units| && units[i].status == "green"
    requires v.status == "yellow" || v.status == "red"
    ensures ComputeTotals(units[i := v]).damageRate > ComputeTotals(units).damageRate
  {
    var after := units[i := v];
    CountStatusUpdate(units, i, v, "yellow");
    CountStatusUpdate(units, i, v, "red");
    var damaged := CountStatus(units, "yellow") + CountStatus(units, "red");
    assert CountStatus(after, "yellow") + CountStatus(after, "red") == damaged + 1;
    assert ComputeTotals(units).damageRate == Percent(damaged, |units|);
    assert ComputeTotals(after).damageRate == Percent(damaged + 1, |units|);
    PercentGrows(damaged, |units|);
  }

  // ---------------------------------------------------------------- damage histogram

  /** `uld.damage_category || "Unknown"` */
  function CategoryOf(u: Unit): string
  {
    match u.damageCategory
    case Some(c) => if c == "" then "Unknown" else c
    case None => "Unknown"
  }

  predicate IsFlagged(u: Unit) { u.status == "red" || u.status == "yellow" }

  /** The count stored under `name`, 0 when the key is absent. */
  function Lookup(entries: seq<Slice>, name: string): nat
  {
    if entries == [] then 0
    else if entries[0].name == name then entries[0].value
    else Lookup(entries[1..], name)
  }

  ghost predicate DistinctNames(entries: seq<Slice>) {
    forall i, j :: 0 <= i < j < |entries| ==> entries[i].name != entries[j].name
  }

  function Total(entries: seq<Slice>): nat
  {
    if entries == [] then 0 else entries[0].value + Total(entries[1..])
  }

  /** `map.set(name, (map.get(name) || 0) + 1)` on an insertion-ordered map. */
  function Bump(entries: seq<Slice>, name: string): (r: seq<Slice>)
    ensures |entries| <= |r| <= |entries| + 1
  {
    if entries == [] then [Slice(name, 1)]
    else if entries[0].name == name then [entries[0].(value := entries[0].value + 1)] + entries[1..]
    else [entries[0]] + Bump(entries[1..], name)
  }

  /** The histogram after visiting `units` in order, starting from `acc`. */
  function Tally(acc: seq<Slice>, units: seq<Unit>): (r: seq<Slice>)
    ensures |acc| <= |r| <= |acc| + |units|
    decreases units
  {
    if units == [] then acc
    else Tally(if IsFlagged(units[0]) then Bump(acc, CategoryOf(units[0])) else acc, units[1..])
  }

  /** Number of red or yellow units whose category reads as `name`. */
  function CountCategory(units: seq<Unit>, name: string): nat
  {
    if units == [] then 0
    else (if IsFlagged(units[0]) && CategoryOf(units[0]) == name then 1 else 0) + CountCategory(units[1..], name)
  }

  lemma {:induction false} BumpEffect(entries: seq<Slice>, name: string)
    requires DistinctNames(entries)
    ensures DistinctNames(Bump(entries, name))
    ensures forall n :: Lookup(Bump(entries, name), n) == Lookup(entries, n) + (if n == name then 1 else 0)
    ensures Total(Bump(entries, name)) == Total(entries) + 1
    ensures forall i :: 0 <= i < |Bump(entries, name)| ==> Bump(entries, name)[i].name == name || Bump(entries, name)[i] in entries
  {
    if entries != [] && entries[0].name != name {
      var rest := Bump(entries[1..], name);
      BumpEffect(entries[1..], name);
      var r := [entries[0]] + rest;
      assert r[1..] == rest;
      forall i, j | 0 <= i < j < |r| ensures r[i].name != r[j].name {
        if i == 0 {
          assert rest[j - 1].name == name || rest[j - 1] in entries[1..];
        }
      }
      forall i | 0 <= i < |r| ensures r[i].name == name || r[i] in entries {
        if i > 0 {
          assert rest[i - 1].name == name || rest[i - 1] in entries[1..];
        }
      }
      forall n ensures Lookup(r, n) == Lookup(entries, n) + (if n == name then 1 else 0) {
      }
    } else if entries != [] {
      var r := [entries[0].(value := entries[0].value + 1)] + entries[1..];
      assert r[1..] == entries[1..];
      forall n ensures Lookup(r, n) == Lookup(entries, n) + (if n == name then 1 else 0) {
        if n == name {
        } else {
          assert Lookup(r, n) == Lookup(entries[1..], n);
        }
      }
      forall n | n == name ensures Lookup(entries[1..], n) == 0 {
        LookupAbsent(entries[1..], n);
      }
    }
  }

  lemma {:induction false} LookupAbsent(entries: seq<Slice>, name: string)
    requires forall i :: 0 <= i < |entries| ==> entries[i].name != name
    ensures Lookup(entries, name) == 0
  {
    if entries != [] {
      LookupAbsent(entries[1..], name);
    }
  }

  lemma {:induction false} TallyEffect(acc: seq<Slice>, units: seq<Unit>)
    requires DistinctNames(acc)
    ensures DistinctNames(Tally(acc, units))
    ensures forall n :: Lookup(Tally(acc, units), n) == Lookup(acc, n) + CountCategory(units, n)
    ensures Total(Tally(acc, units)) == Total(acc) + CountStatus(units, "yellow") + CountStatus(units, "red")
    decreases units
  {
    if units != [] {
      var next := if IsFlagged(units[0]) then Bump(acc, CategoryOf(units[0])) else acc;
      if IsFlagged(units[0]) {
        BumpEffect(acc, CategoryOf(units[0]));
      }
      TallyEffect(next, units[1..]);
    }
  }

  /** The histogram the dashboard draws from: one slice per category of the red
      and yellow units, in order of first appearance. */
  function DamageEntries(units: seq<Unit>): (r: seq<Slice>)
    ensures |r| <= |units|
  {
    Tally([], units)
  }

  /** Each category appears once; its count is the number of red or yellow
      units in that category (a missing or empty category counting as
      "Unknown"); the counts add up to yellow + red. */
  lemma DamageEntriesCountCategories(units: seq<Unit>)
    ensures DistinctNames(DamageEntries(units))
    ensures forall n :: Lookup(DamageEntries(units), n) == CountCategory(units, n)
    ensures Total(DamageEntries(units)) == ComputeTotals(units).yellow + ComputeTotals(units).red
  {
    TallyEffect([], units);
  }

  /** The `forEach` over the units that fills the `damageMap` in place. */
  method BuildDamageMap(units: seq<Unit>) returns (damageMap: seq<Slice>)
    ensures damageMap == DamageEntries(units)
  {
    damageMap := [];
    var i := 0;
    while i < |units|
      invariant 0 <= i <= |units|
      invariant Tally(damageMap, units[i..]) == DamageEntries(units)
    {
      assert units[i..][1..] == units[i + 1..];
      if units[i].status == "red" || units[i].status == "yellow" {
        var category := if units[i].damageCategory.Some? && units[i].damageCategory.value != ""
                        then units[i].damageCategory.value else "Unknown";
        damageMap := Bump(damageMap, category);
      }
      i := i + 1;
    }
  }

  /** The pie data: the histogram, or the single "No Damage" slice when it is empty. */
  function DamagePieData(units: seq<Unit>): (r: seq<Slice>)
    ensures r != []
    ensures DamageEntries(units) == [] ==> r == [Slice("No Damage", 1)]
  {
    var entries := DamageEntries(units);
    if |entries| > 0 then entries else [Slice("No Damage", 1)]
  }

  lemma {:induction false} FlaggedMeansEntries(units: seq<Unit>)
    ensures |DamageEntries(units)| == 0 <==> CountStatus(units, "yellow") + CountStatus(units, "red") == 0
  {
    TallyEffect([], units);
    var e := DamageEntries(units);
    if |e| > 0 {
      assert Total(e) >= e[0].value;
      assert e[0].value > 0 by {
        assert Lookup(e, e[0].name) == e[0].value;
        TallyPositive([], units);
      }
    }
  }

  lemma {:induction false} TallyPositive(acc: seq<Slice>, units: seq<Unit>)
    requires forall i :: 0 <= i < |acc| ==> acc[i].value > 0
    ensures forall i :: 0 <= i < |Tally(acc, units)| ==> Tally(acc, units)[i].value > 0
    decreases units
  {
    if units != [] {
      var next := if IsFlagged(units[0]) then Bump(acc, CategoryOf(units[0])) else acc;
      if IsFlagged(units[0]) {
        BumpPositive(acc, CategoryOf(units[0]));
      }
      TallyPositive(next, units[1..]);
    }
  }

  lemma {:induction false} BumpPositive(entries: seq<Slice>, name: string)
    requires forall i :: 0 <= i < |entries| ==> entries[i].value > 0
    ensures forall i :: 0 <= i < |Bump(entries, name)| ==> Bump(entries, name)[i].value > 0
  {
    if entries != [] && entries[0].name != name {
      BumpPositive(entries[1..], name);
      assert ([entries[0]] + Bump(entries[1..], name))[1..] == Bump(entries[1..], name);
    }
  }

  /** The placeholder appears exactly when no unit is red or yellow; otherwise
      the pie is the histogram unchanged. */
  lemma DamagePieFallback(units: seq<Unit>)
    ensures CountStatus(units, "yellow") + CountStatus(units, "red") == 0 ==>
              DamagePieData(units) == [Slice("No Damage", 1)]
    ensures CountStatus(units, "yellow") + CountStatus(units, "red") > 0 ==>
              DamagePieData(units) == DamageEntries(units) && |DamagePieData(units)| > 0
  {
    FlaggedMeansEntries(units);
  }

  // ---------------------------------------------------------------- live table

  /** `uld.uld_id.toLowerCase().includes(searchTerm.toLowerCase())` */
  predicate MatchesSearch(u: Unit, searchTerm: string) {
    Contains(ToLower(u.uldId), ToLower(searchTerm))
  }

  /** `statusFilter === "all" || uld.status === statusFilter` */
  predicate MatchesStatus(u: Unit, statusFilter: string) {
    statusFilter == "all" || u.status == statusFilter
  }

  /** The `filter` step, in list order. */
  function FilterUnits(units: seq<Unit>, searchTerm: string, statusFilter: string): (r: seq<Unit>)
    ensures |r| <= |units|
    ensures forall k :: 0 <= k < |r| ==> MatchesSearch(r[k], searchTerm) && MatchesStatus(r[k], statusFilter)
  {
    if units == [] then []
    else
      (if MatchesSearch(units[0], searchTerm) && MatchesStatus(units[0], statusFilter) then [units[0]] else [])
      + FilterUnits(units[1..], searchTerm, statusFilter)
  }

  function LastSeen(u: Unit): int { u.lastSeen }

  /** The live table: the matching units, most recently seen first. */
  function LiveTable(units: seq<Unit>, searchTerm: string, statusFilter: string): (r: seq<Unit>)
    ensures |r| <= |units|
  {
    Ordering.SortDesc(FilterUnits(units, searchTerm, statusFilter), LastSeen)
  }

  lemma {:induction false} FilterUnitsExact(units: seq<Unit>, searchTerm: string, statusFilter: string)
    ensures forall u :: u in FilterUnits(units, searchTerm, statusFilter) ==>
              u in units && MatchesSearch(u, searchTerm) && MatchesStatus(u, statusFilter)
    ensures forall u :: u in units && MatchesSearch(u, searchTerm) && MatchesStatus(u, statusFilter) ==>
              multiset(FilterUnits(units, searchTerm, statusFilter))[u] == multiset(units)[u]
  {
    if units != [] {
      FilterUnitsExact(units[1..], searchTerm, statusFilter);
      assert units == [units[0]] + units[1..];
    }
  }

  /** Every row of the live table matches the search term (case-insensitively,
      as a substring of the id) and the status filter; every matching unit is in
      the table as often as in the input; the rows are ordered by `last_seen`,
      most recent first, with ties kept in input order. */
  lemma LiveTableCorrect(units: seq<Unit>, searchTerm: string, statusFilter: string)
    ensures var table := LiveTable(units, searchTerm, statusFilter);
      && (forall u :: u in table ==> u in units && MatchesSearch(u, searchTerm) && MatchesStatus(u, statusFilter))
      && (forall u :: u in units && MatchesSearch(u, searchTerm) && MatchesStatus(u, statusFilter) ==>
            multiset(table)[u] == multiset(units)[u])
      && (forall i, j :: 0 <= i < j < |table| ==> table[i].lastSeen >= table[j].lastSeen)
      && (forall t :: Ordering.WithKey(table, LastSeen, t) ==
            Ordering.WithKey(FilterUnits(units, searchTerm, statusFilter), LastSeen, t))
  {
    var filtered := FilterUnits(units, searchTerm, statusFilter);
    FilterUnitsExact(units, searchTerm, statusFilter);
    Ordering.SortDescCorrect(filtered, LastSeen);
    var table := LiveTable(units, searchTerm, statusFilter);
    forall u | u in table ensures u in filtered {
      assert u in multiset(table);
    }
    forall i, j | 0 <= i < j < |table| ensures table[i].lastSeen >= table[j].lastSeen {
      assert LastSeen(table[i]) >= LastSeen(table[j]);
    }
    forall t ensures Ordering.WithKey(table, LastSeen, t) == Ordering.WithKey(filtered, LastSeen, t) {
      Ordering.SortDescStable(filtered, LastSeen, t);
    }
  }

  lemma {:induction false} FilterAllKeepsEverything(units: seq<Unit>)
    ensures FilterUnits(units, "", "all") == units
  {
    if units != [] {
      ContainsEmpty(ToLower(units[0].uldId));
      FilterAllKeepsEverything(units[1..]);
      assert units == [units[0]] + units[1..];
    }
  }

  /** With an empty search and the "all" filter the table is the whole fleet,
      most recently seen first. */
  lemma LiveTableUnfiltered(units: seq<Unit>)
    ensures LiveTable(units, "", "all") == Ordering.SortDesc(units, LastSeen)
    ensures multiset(LiveTable(units, "", "all")) == multiset(units)
  {
    FilterAllKeepsEverything(units);
    Ordering.SortDescCorrect(units, LastSeen);
  }

  // ---------------------------------------------------------------- polling fetch

  /** What one `fetch("/api/ulds")` produced: a parsed list, a non-2xx response,
      or a thrown error with its message. */
  datatype FetchOutcome = Received(data: seq<Unit>) | NotOk | Failed(message: string)

  /** The component state that `fetchData` updates. */
  class DashboardState {
    var ulds: seq<Unit>
    var loading: bool
    var error: Option<string>
    var searchTerm: string
    var statusFilter: string

    constructor ()
      ensures ulds == [] && loading && error == None
      ensures searchTerm == "" && statusFilter == "all"
    {
      ulds := [];
      loading := true;
      error := None;
      searchTerm := "";
      statusFilter := "all";
    }

    /** One polling round. A received list replaces the units and clears the
        error; a failure records its message and keeps the last good list. */
    method FetchData(outcome: FetchOutcome)
      modifies this
      ensures !loading
      ensures searchTerm == old(searchTerm) && statusFilter == old(statusFilter)
      ensures outcome.Received? ==> ulds == outcome.data && error == None
      ensures outcome.NotOk? ==> ulds == old(ulds) && error == Some("Network response was not ok")
      ensures outcome.Failed? ==> ulds == old(ulds) && error == Some(outcome.message)
    {
      if |ulds| == 0 {
        loading := true;
      }
      match outcome {
        case Received(data) =>
          ulds := data;
          error := None;
        case NotOk =>
          error := Some("Network response was not ok");
        case Failed(message) =>
          error := Some(message);
      }
      loading := false;
    }
  }
}
