/**
 * The manager's walk-in list: each walk-in enriched with the parts it used
 * and their cost, the station/engineer/date filters, the 15-per-page view,
 * and the three KPI figures (count, amount charged, parts cost) for today
 * or for the chosen date range.
 */
module ManagerWalkins {
  import opened Wrappers
  import opened Seqs
  import opened Paging
  import opened Records

  /** A row of `parts_catalog` as this page selects it. */
  datatype CatalogEntry = CatalogEntry(id: string, partName: Option<string>, unitCost: Option<real>)

  /** A row of `walkin_parts`. */
  datatype WalkinPart = WalkinPart(walkinId: Option<string>, partId: Option<string>, quantity: Option<int>)

  /** A walk-in row with the two fields the page adds to it. */
  datatype EnrichedWalkin = EnrichedWalkin(walkin: Walkin, partsCost: real, partsUsed: seq<string>)

  // ---------------------------------------------------------------------
  // Lookups over the catalog
  // ---------------------------------------------------------------------

  function CatalogId(c: CatalogEntry): string
  {
    c.id
  }

  function CatalogName(c: CatalogEntry): Option<string>
  {
    c.partName
  }

  /** `p.unit_cost || 0` */
  function CatalogCost(c: CatalogEntry): real
  {
    OrZero(c.unitCost)
  }

  /** `partNameLookup[p.part_id]`, `undefined` when the part is not in the catalog. */
  function NameOf(names: map<string, Option<string>>, partId: Option<string>): Option<string>
  {
    if JsKey(partId) in names then names[JsKey(partId)] else None
  }

  /** `partCostLookup[p.part_id] || 0` */
  function UnitCostOf(costs: map<string, real>, partId: Option<string>): real
  {
    if JsKey(partId) in costs then costs[JsKey(partId)] else 0.0
  }

  // ---------------------------------------------------------------------
  // Parts used per walk-in
  // ---------------------------------------------------------------------

  /** What one part row adds to `partsUsedMap`: its part's name under its walk-in, or nothing when the name is falsy. */
  function UsedEntry(names: map<string, Option<string>>): WalkinPart -> Option<(string, string)>
  {
    (p: WalkinPart) =>
      var name := NameOf(names, p.partId);
      if Truthy(name) then Some((JsKey(p.walkinId), name.value)) else None
  }

  /** The part rows of walk-in `w` whose part has a name. */
  function NamedRowOf(names: map<string, Option<string>>, w: string): WalkinPart -> bool
  {
    (p: WalkinPart) => Truthy(NameOf(names, p.partId)) && JsKey(p.walkinId) == w
  }

  /** The names of the parts of `rows`. */
  function NamesOfRows(names: map<string, Option<string>>, rows: seq<WalkinPart>): (r: seq<string>)
    ensures |r| == |rows|
  {
    seq(|rows|, i requires 0 <= i < |rows| => NameOf(names, rows[i].partId).UnwrapOr(""))
  }

  /**
   * The parts listed for a walk-in are the names of its part rows that have
   * a catalog name, in the order of the part rows; rows without a name are
   * skipped.
   */
  lemma {:induction false} PartsUsedAreNamedRows(rows: seq<WalkinPart>, names: map<string, Option<string>>, w: string)
    ensures ValuesAt(rows, UsedEntry(names), w) == NamesOfRows(names, Filter(rows, NamedRowOf(names, w)))
  {
    if rows != [] {
      var pre, x := rows[..|rows| - 1], rows[|rows| - 1];
      assert rows == pre + [x];
      PartsUsedAreNamedRows(pre, names, w);
      FilterAppend(pre, [x], NamedRowOf(names, w));
      var a, b := Filter(pre, NamedRowOf(names, w)), Filter([x], NamedRowOf(names, w));
      NamesOfRowsAppend(names, a, b);
      if NamedRowOf(names, w)(x) {
        assert b == [x];
        assert NamesOfRows(names, b) == [NameOf(names, x.partId).value];
      } else {
        assert b == [];
      }
    }
  }

  lemma NamesOfRowsAppend(names: map<string, Option<string>>, a: seq<WalkinPart>, b: seq<WalkinPart>)
    ensures NamesOfRows(names, a + b) == NamesOfRows(names, a) + NamesOfRows(names, b)
  {
  }

  // ---------------------------------------------------------------------
  // Parts cost per walk-in
  // ---------------------------------------------------------------------

  /** `unitCost * (p.quantity || 0)` */
  function RowCost(costs: map<string, real>): WalkinPart -> real
  {
    (p: WalkinPart) => UnitCostOf(costs, p.partId) * OrZeroInt(p.quantity) as real
  }

  function RowOf(w: string): WalkinPart -> bool
  {
    (p: WalkinPart) => JsKey(p.walkinId) == w
  }

  /** The cost of walk-in `w`'s parts: unit cost times quantity, summed over its part rows. */
  function CostAt(rows: seq<WalkinPart>, costs: map<string, real>, w: string): real
  {
    Sum(Filter(rows, RowOf(w)), RowCost(costs))
  }

  lemma CostAtSnoc(rows: seq<WalkinPart>, x: WalkinPart, costs: map<string, real>, w: string)
    ensures CostAt(rows + [x], costs, w) == CostAt(rows, costs, w) + (if JsKey(x.walkinId) == w then RowCost(costs)(x) else 0.0)
  {
    FilterAppend(rows, [x], RowOf(w));
    SumAppend(Filter(rows, RowOf(w)), Filter([x], RowOf(w)), RowCost(costs));
    if JsKey(x.walkinId) == w {
      assert Filter([x], RowOf(w)) == [x];
      assert [x][..0] == [];
    } else {
      assert Filter([x], RowOf(w)) == [];
    }
  }

  /** A walk-in with no part rows costs nothing. */
  lemma CostAtNoRows(rows: seq<WalkinPart>, costs: map<string, real>, w: string)
    requires forall i :: 0 <= i < |rows| ==> JsKey(rows[i].walkinId) != w
    ensures CostAt(rows, costs, w) == 0.0
  {
    FilterNone(rows, RowOf(w));
  }

  /** Some part row belongs to walk-in `w`. */
  predicate HasRows(rows: seq<WalkinPart>, w: string)
  {
    exists i :: 0 <= i < |rows| && JsKey(rows[i].walkinId) == w
  }

  /** `m` has an entry for exactly the walk-ins with part rows in `rows`. */
  ghost predicate CostKeys(m: map<string, real>, rows: seq<WalkinPart>)
  {
    forall w :: w in m <==> HasRows(rows, w)
  }

  /** Each entry of `m` is the cost of its walk-in's rows in `rows`. */
  ghost predicate CostValues(m: map<string, real>, rows: seq<WalkinPart>, costs: map<string, real>)
  {
    forall w :: w in m ==> m[w] == CostAt(rows, costs, w)
  }

  /** One step of the `forEach`: `partCostMap[p.walkin_id] = (partCostMap[p.walkin_id] || 0) + cost`. */
  function AddCost(m: map<string, real>, x: WalkinPart, costs: map<string, real>): map<string, real>
  {
    var key := JsKey(x.walkinId);
    m[key := (if key in m then m[key] else 0.0) + RowCost(costs)(x)]
  }

  lemma CostKeysSnoc(m: map<string, real>, rows: seq<WalkinPart>, x: WalkinPart, costs: map<string, real>)
    requires CostKeys(m, rows)
    ensures CostKeys(AddCost(m, x, costs), rows + [x])
  {
    var key := JsKey(x.walkinId);
    forall w ensures w in AddCost(m, x, costs) <==> HasRows(rows + [x], w) {
      if HasRows(rows, w) {
        var i :| 0 <= i < |rows| && JsKey(rows[i].walkinId) == w;
        assert (rows + [x])[i] == rows[i];
      }
      if w == key {
        assert (rows + [x])[|rows|] == x;
      }
      if HasRows(rows + [x], w) && w != key {
        var i :| 0 <= i < |rows + [x]| && JsKey((rows + [x])[i].walkinId) == w;
        assert i < |rows| && rows[i] == (rows + [x])[i];
      }
    }
  }

  lemma CostValuesSnoc(m: map<string, real>, rows: seq<WalkinPart>, x: WalkinPart, costs: map<string, real>)
    requires CostKeys(m, rows) && CostValues(m, rows, costs)
    ensures CostValues(AddCost(m, x, costs), rows + [x], costs)
  {
    var key := JsKey(x.walkinId);
    var m' := AddCost(m, x, costs);
    forall w | w in m' ensures m'[w] == CostAt(rows + [x], costs, w) {
      CostAtSnoc(rows, x, costs, w);
      if w == key && key !in m {
        CostAtNoRows(rows, costs, key);
      }
    }
  }

  ghost predicate CostTotals(m: map<string, real>, rows: seq<WalkinPart>, costs: map<string, real>)
  {
    CostKeys(m, rows) && CostValues(m, rows, costs)
  }

  /** The loop step of `partCostMap` keeps the running totals exact. */
  lemma CostStep(m: map<string, real>, rows: seq<WalkinPart>, i: nat, costs: map<string, real>)
    requires i < |rows| && CostTotals(m, rows[..i], costs)
    ensures CostTotals(AddCost(m, rows[i], costs), rows[..i + 1], costs)
  {
    assert rows[..i + 1] == rows[..i] + [rows[i]];
    CostKeysSnoc(m, rows[..i], rows[i], costs);
    CostValuesSnoc(m, rows[..i], rows[i], costs);
  }

  /** `partCostMap`: one running total per walk-in that has part rows. */
  method PartCostTotals(rows: seq<WalkinPart>, costs: map<string, real>) returns (m: map<string, real>)
    ensures forall w :: w in m <==> HasRows(rows, w)
    ensures forall w :: w in m ==> m[w] == CostAt(rows, costs, w)
  {
    m := map[];
    var i := 0;
    while i < |rows|
      invariant 0 <= i <= |rows|
      invariant CostTotals(m, rows[..i], costs)
    {
      CostStep(m, rows, i, costs);
      m := AddCost(m, rows[i], costs);
      i := i + 1;
    }
    assert rows[..i] == rows;
  }

  // ---------------------------------------------------------------------
  // Enrichment
  // ---------------------------------------------------------------------

  /** `{...w, parts_cost: partCostMap[w.id] || 0, parts_used: partsUsedMap[w.id] || []}` */
  function Enrich(w: Walkin, costMap: map<string, real>, usedMap: map<string, seq<string>>): EnrichedWalkin
  {
    EnrichedWalkin(w,
      if w.id in costMap then costMap[w.id] else 0.0,
      if w.id in usedMap then usedMap[w.id] else [])
  }

  /**
   * The walk-ins as `fetchData` stores them: every fetched walk-in, in
   * order, unchanged, with the total cost of its part rows and the names of
   * its named parts in part-row order.
   */
  method LoadWalkins(walkinData: seq<Walkin>, partData: seq<WalkinPart>, catalog: seq<CatalogEntry>)
    returns (walkins: seq<EnrichedWalkin>)
    ensures |walkins| == |walkinData|
    ensures forall i :: 0 <= i < |walkins| ==>
      && walkins[i].walkin == walkinData[i]
      && walkins[i].partsCost == CostAt(partData, Index(catalog, CatalogId, CatalogCost), walkinData[i].id)
      && walkins[i].partsUsed == NamesOfRows(Index(catalog, CatalogId, CatalogName),
                                             Filter(partData, NamedRowOf(Index(catalog, CatalogId, CatalogName), walkinData[i].id)))
  {
    var partNameLookup := IndexBy(catalog, CatalogId, CatalogName);
    var partsUsedMap, _ := GroupBy(partData, UsedEntry(partNameLookup));
    var partCostLookup := IndexBy(catalog, CatalogId, CatalogCost);
    var partCostMap := PartCostTotals(partData, partCostLookup);

    walkins := seq(|walkinData|, i requires 0 <= i < |walkinData| => Enrich(walkinData[i], partCostMap, partsUsedMap));
    forall i | 0 <= i < |walkins|
      ensures walkins[i].partsCost == CostAt(partData, partCostLookup, walkinData[i].id)
      ensures walkins[i].partsUsed == NamesOfRows(partNameLookup, Filter(partData, NamedRowOf(partNameLookup, walkinData[i].id)))
    {
      var id := walkinData[i].id;
      PartsUsedAreNamedRows(partData, partNameLookup, id);
      if id !in partCostMap {
        CostAtNoRows(partData, partCostLookup, id);
      }
    }
  }

  /** A walk-in with no part rows shows a parts cost of 0 and no parts. */
  lemma NoPartRowsNoParts(partData: seq<WalkinPart>, catalog: seq<CatalogEntry>, id: string)
    requires forall i :: 0 <= i < |partData| ==> JsKey(partData[i].walkinId) != id
    ensures CostAt(partData, Index(catalog, CatalogId, CatalogCost), id) == 0.0
    ensures NamesOfRows(Index(catalog, CatalogId, CatalogName),
                        Filter(partData, NamedRowOf(Index(catalog, CatalogId, CatalogName), id))) == []
  {
    CostAtNoRows(partData, Index(catalog, CatalogId, CatalogCost), id);
    FilterNone(partData, NamedRowOf(Index(catalog, CatalogId, CatalogName), id));
  }

  // ---------------------------------------------------------------------
  // The list filter and its page
  // ---------------------------------------------------------------------

  /**
   * The filter controls. A date is its input text ("" when unset) and the
   * instant `new Date(text)` gives for it.
   */
  datatype WalkinFilters = WalkinFilters(station: string, engineer: string, fromDate: Stamp, toDate: Stamp)

  /** The date bounds alone: a set bound is inclusive, and a missing `logged_at` counts as the epoch. */
  predicate InDateRange(w: Walkin, fromDate: Stamp, toDate: Stamp)
  {
    && (fromDate.text == "" || Instant(w.loggedAt) >= fromDate.ms)
    && (toDate.text == "" || Instant(w.loggedAt) <= toDate.ms)
  }

  /** The test `filtered` applies to one walk-in. */
  predicate WalkinShown(e: EnrichedWalkin, f: WalkinFilters)
  {
    && (f.station == "" || e.walkin.stationId == Some(f.station))
    && (f.engineer == "" || e.walkin.engineerId == Some(f.engineer))
    && InDateRange(e.walkin, f.fromDate, f.toDate)
  }

  function ShownTest(f: WalkinFilters): EnrichedWalkin -> bool
  {
    (e: EnrichedWalkin) => WalkinShown(e, f)
  }

  /** `filtered` */
  function FilteredWalkins(walkins: seq<EnrichedWalkin>, f: WalkinFilters): seq<EnrichedWalkin>
  {
    Filter(walkins, ShownTest(f))
  }

  /**
   * The list keeps the fetched order; a walk-in is listed exactly when it
   * matches the station and engineer filters that are set and its
   * `logged_at` lies within the set bounds, both ends included.
   */
  lemma FilteredWalkinsSpec(walkins: seq<EnrichedWalkin>, f: WalkinFilters)
    ensures SubseqOf(FilteredWalkins(walkins, f), walkins)
    ensures forall e :: e in FilteredWalkins(walkins, f) ==>
      && (f.station != "" ==> e.walkin.stationId == Some(f.station))
      && (f.engineer != "" ==> e.walkin.engineerId == Some(f.engineer))
      && (f.fromDate.text != "" ==> f.fromDate.ms <= Instant(e.walkin.loggedAt))
      && (f.toDate.text != "" ==> Instant(e.walkin.loggedAt) <= f.toDate.ms)
    ensures forall i :: 0 <= i < |walkins| && WalkinShown(walkins[i], f) ==> walkins[i] in FilteredWalkins(walkins, f)
  {
  }

  /** `pageItems`: the page number is not clamped. */
  function WalkinPageItems(filtered: seq<EnrichedWalkin>, page: int): seq<EnrichedWalkin>
  {
    PageItems(filtered, page)
  }

  /**
   * A page holds at most 15 walk-ins, page 1 holds the first 15, and a
   * page past `totalPages` is empty rather than clamped to the last one.
   */
  lemma WalkinPages(filtered: seq<EnrichedWalkin>, page: int)
    ensures |WalkinPageItems(filtered, page)| <= PAGE_SIZE
    ensures WalkinPageItems(filtered, 1) == filtered[..if |filtered| < PAGE_SIZE then |filtered| else PAGE_SIZE]
    ensures page > TotalPages(|filtered|) ==> WalkinPageItems(filtered, page) == []
  {
    if page > TotalPages(|filtered|) {
      PageBeyondLastIsEmpty(filtered, page);
    }
  }

  // ---------------------------------------------------------------------
  // KPIs
  // ---------------------------------------------------------------------

  function LoggedOn(today: string): EnrichedWalkin -> bool
  {
    (e: EnrichedWalkin) => StartsWith(e.walkin.loggedAt, today)
  }

  function RangeTest(fromDate: Stamp, toDate: Stamp): EnrichedWalkin -> bool
  {
    (e: EnrichedWalkin) => InDateRange(e.walkin, fromDate, toDate)
  }

  /**
   * `kpiSource`. With no date set it is today's walk-ins by date prefix;
   * there `w.logged_at.startsWith` throws on a walk-in with no `logged_at`,
   * which is None here. With a date set it is the date-range filter alone.
   */
  function KpiSource(walkins: seq<EnrichedWalkin>, fromDate: Stamp, toDate: Stamp, today: string)
    : (r: Option<seq<EnrichedWalkin>>)
    ensures r.None? <==> fromDate.text == "" && toDate.text == "" && exists i :: 0 <= i < |walkins| && walkins[i].walkin.loggedAt.None?
    ensures r.Some? ==> SubseqOf(r.value, walkins)
  {
    if fromDate.text == "" && toDate.text == "" then
      if exists i :: 0 <= i < |walkins| && walkins[i].walkin.loggedAt.None? then None
      else Some(Filter(walkins, LoggedOn(today)))
    else Some(Filter(walkins, RangeTest(fromDate, toDate)))
  }

  /** The three KPI cards. */
  datatype Kpis = Kpis(walkinsCount: nat, costCharged: real, partsCost: real)

  function CostCharged(e: EnrichedWalkin): real
  {
    OrZero(e.walkin.costCharged)
  }

  function PartsCostOf(e: EnrichedWalkin): real
  {
    e.partsCost
  }

  /** `walkinsCount`, `costCharged` and `partsCost` over the KPI source. */
  function KpisOf(source: seq<EnrichedWalkin>): Kpis
  {
    Kpis(|source|, Sum(source, CostCharged), Sum(source, PartsCostOf))
  }

  /** The KPI cards' caption. */
  function KpiCaption(fromDate: Stamp, toDate: Stamp): string
  {
    if fromDate.text != "" || toDate.text != "" then "Selected Period" else "Today"
  }

  /**
   * With a date set, the KPIs cover exactly the walk-ins the list would
   * show with the station and engineer filters cleared, whatever those
   * filters are, and the caption says "Selected Period".
   */
  lemma KpisIgnoreStationAndEngineer(walkins: seq<EnrichedWalkin>, f: WalkinFilters, today: string)
    requires f.fromDate.text != "" || f.toDate.text != ""
    ensures KpiSource(walkins, f.fromDate, f.toDate, today)
         == Some(FilteredWalkins(walkins, WalkinFilters("", "", f.fromDate, f.toDate)))
    ensures KpiCaption(f.fromDate, f.toDate) == "Selected Period"
  {
    FilterSameTest(walkins, RangeTest(f.fromDate, f.toDate), ShownTest(WalkinFilters("", "", f.fromDate, f.toDate)));
  }

  /**
   * With no date set and every walk-in stamped, the KPIs cover exactly the
   * walk-ins logged on `today`, and the caption says "Today".
   */
  lemma KpisForToday(walkins: seq<EnrichedWalkin>, today: string)
    requires forall i :: 0 <= i < |walkins| ==> walkins[i].walkin.loggedAt.Some?
    ensures var src := KpiSource(walkins, Stamp("", 0), Stamp("", 0), today);
            && src.Some?
            && (forall e :: e in src.value ==> today <= e.walkin.loggedAt.value.text)
            && (forall i :: 0 <= i < |walkins| && today <= walkins[i].walkin.loggedAt.value.text ==> walkins[i] in src.value)
    ensures KpiCaption(Stamp("", 0), Stamp("", 0)) == "Today"
  {
  }

  /** Filtering can only drop terms of a sum whose terms are all non-negative. */
  lemma {:induction false} SumFilterAtMost<T>(s: seq<T>, p: T -> bool, f: T -> real)
    requires forall i :: 0 <= i < |s| ==> 0.0 <= f(s[i])
    ensures 0.0 <= Sum(Filter(s, p), f) <= Sum(s, f)
  {
    if s != [] {
      var pre, x := s[..|s| - 1], s[|s| - 1];
      assert s == pre + [x];
      SumFilterAtMost(pre, p, f);
      FilterAppend(pre, [x], p);
      SumAppend(Filter(pre, p), Filter([x], p), f);
      if p(x) {
        assert Filter([x], p) == [x];
        assert [x][..0] == [];
      } else {
        assert Filter([x], p) == [];
      }
    }
  }

  /**
   * The KPI figures never exceed the figures over all walk-ins when the
   * amounts are non-negative, and the count is the number of walk-ins the
   * source holds.
   */
  lemma KpisBoundedByAll(walkins: seq<EnrichedWalkin>, fromDate: Stamp, toDate: Stamp, today: string)
    requires forall i :: 0 <= i < |walkins| ==> 0.0 <= CostCharged(walkins[i]) && 0.0 <= walkins[i].partsCost
    requires KpiSource(walkins, fromDate, toDate, today).Some?
    ensures var k := KpisOf(KpiSource(walkins, fromDate, toDate, today).value);
            && k.walkinsCount <= |walkins|
            && 0.0 <= k.costCharged <= Sum(walkins, CostCharged)
            && 0.0 <= k.partsCost <= Sum(walkins, PartsCostOf)
  {
    var p := if fromDate.text == "" && toDate.text == "" then LoggedOn(today) else RangeTest(fromDate, toDate);
    assert KpiSource(walkins, fromDate, toDate, today).value == Filter(walkins, p);
    SumFilterAtMost(walkins, p, CostCharged);
    SumFilterAtMost(walkins, p, PartsCostOf);
  }
}
