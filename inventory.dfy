/**
 * The manager's inventory page.  It drops inventory rows that belong to no
 * station, attaches to each row the bike models its part fits, groups the
 * rows by station with a per-station summary, and shows the selected
 * station's rows through a case-insensitive search and 15-row pages.  A
 * quantity edit either overwrites the stock level or adds a signed delta.
 */
module InventoryDashboard {
  import opened Wrappers
  import opened Seqs
  import opened Text
  import opened Paging
  import opened Records

  // ---------------------------------------------------------------------
  // Rows
  // ---------------------------------------------------------------------

  /** The joined `parts_catalog` record of an inventory row. */
  datatype CatalogPart = CatalogPart(partName: Option<string>, sku: Option<string>, unitCost: Option<real>)

  /** A row of `inventory_master`. */
  datatype InventoryRow = InventoryRow(
    id: string,
    stationId: Option<string>,
    partId: Option<string>,
    quantity: Option<int>,
    reorderLevel: Option<int>,
    catalog: Option<CatalogPart>)

  /** A row of `stations`. */
  datatype StationRow = StationRow(id: string, name: Option<string>)

  /** A row of `part_model_map` with the joined model's name (absent when the join found no model). */
  datatype ModelLink = ModelLink(partId: Option<string>, modelName: Option<string>)

  /** An inventory row as the page keeps it: the row plus `model_names`. */
  datatype StockItem = StockItem(row: InventoryRow, modelNames: seq<string>)

  datatype Summary = Summary(totalSkus: nat, totalQty: int, totalValue: real, lowStockCount: nat)

  datatype StationInventory = StationInventory(stationId: string, stationName: string, items: seq<StockItem>, summary: Summary)

  // ---------------------------------------------------------------------
  // Dropping rows with no station
  // ---------------------------------------------------------------------

  /** `row.station_id && row.station_id !== "null"` */
  predicate KeepRow(row: InventoryRow)
  {
    Truthy(row.stationId) && row.stationId.value != "null"
  }

  /** The fetched rows that name a station, in fetch order. */
  function KeptRows(inv: seq<InventoryRow>): (kept: seq<InventoryRow>)
    ensures forall i :: 0 <= i < |kept| ==> kept[i].stationId.Some? && kept[i].stationId.value != "" && kept[i].stationId.value != "null"
    ensures forall i :: 0 <= i < |inv| && KeepRow(inv[i]) ==> inv[i] in kept
    ensures SubseqOf(kept, inv)
  {
    var r := Filter(inv, KeepRow);
    assert forall i :: 0 <= i < |r| ==> KeepRow(r[i]) by {
      forall i | 0 <= i < |r| ensures KeepRow(r[i]) {
        assert r[i] in r;
      }
    }
    r
  }

  // ---------------------------------------------------------------------
  // Station labels
  // ---------------------------------------------------------------------

  function StationIdOf(s: StationRow): string
  {
    s.id
  }

  /** `s.name || (s.id ? s.id.slice(0, 8) : "Unknown Station")`: never empty. */
  function StationLabel(s: StationRow): (r: string)
    ensures r != ""
    ensures Truthy(s.name) ==> r == s.name.value
    ensures !Truthy(s.name) && s.id != "" ==> r <= s.id && |r| == if |s.id| < 8 then |s.id| else 8
  {
    if Truthy(s.name) then s.name.value
    else if s.id != "" then JsSlice(s.id, 0, 8)
    else "Unknown Station"
  }

  /** `stationMetaMap`: station id to label, the last row for an id winning. */
  function StationMeta(stations: seq<StationRow>): map<string, string>
  {
    Index(stations, StationIdOf, StationLabel)
  }

  /** `stationMetaMap[stationId]?.label || stationId.slice(0, 8)` */
  function StationName(meta: map<string, string>, id: string): string
  {
    if id in meta && meta[id] != "" then meta[id] else JsSlice(id, 0, 8)
  }

  /**
   * A station with metadata is shown under the label of the last metadata
   * row for its id; any other under the first eight characters of its id.
   */
  lemma StationNameSource(stations: seq<StationRow>, id: string)
    ensures (exists i :: 0 <= i < |stations| && stations[i].id == id) ==>
      exists i :: 0 <= i < |stations| && stations[i].id == id
                  && StationName(StationMeta(stations), id) == StationLabel(stations[i])
                  && forall j :: i < j < |stations| ==> stations[j].id != id
    ensures (forall i :: 0 <= i < |stations| ==> stations[i].id != id) ==>
      StationName(StationMeta(stations), id) == JsSlice(id, 0, 8)
  {
    IndexLastWins(stations, StationIdOf, StationLabel, id);
  }

  // ---------------------------------------------------------------------
  // Models per part
  // ---------------------------------------------------------------------

  /** A link contributes only when it has both a part id and a model name. */
  function ModelEntry(link: ModelLink): Option<(string, string)>
  {
    if Truthy(link.partId) && Truthy(link.modelName) then Some((link.partId.value, link.modelName.value)) else None
  }

  /** `partModelsMap` */
  function PartModels(links: seq<ModelLink>): map<string, seq<string>>
  {
    map k | k in FirstKeys(links, ModelEntry) :: ValuesAt(links, ModelEntry, k)
  }

  /** `partModelsMap[row.part_id] || []` */
  function ModelNamesOf(pm: map<string, seq<string>>, partId: Option<string>): seq<string>
  {
    if JsKey(partId) in pm then pm[JsKey(partId)] else []
  }

  /**
   * A part's model names are the names of the links that name it, in link
   * order; links missing a part id or a model name are skipped.
   */
  lemma ModelNamesOfPart(links: seq<ModelLink>, p: string, name: string)
    ensures ModelNamesOf(PartModels(links), Some(p)) == ValuesAt(links, ModelEntry, p)
    ensures name in ModelNamesOf(PartModels(links), Some(p)) <==>
              exists i :: 0 <= i < |links| && links[i].partId == Some(p) && links[i].modelName == Some(name)
                          && p != "" && name != ""
  {
    FirstKeysSpec(links, ModelEntry);
    if name in ValuesAt(links, ModelEntry, p) {
      ValuesAtOrigin(links, ModelEntry, p, name);
    }
    if exists i :: 0 <= i < |links| && links[i].partId == Some(p) && links[i].modelName == Some(name) && p != "" && name != "" {
      var i :| 0 <= i < |links| && links[i].partId == Some(p) && links[i].modelName == Some(name) && p != "" && name != "";
      ValuesAtMember(links, ModelEntry, i);
    }
  }

  // ---------------------------------------------------------------------
  // Grouping by station and the per-station summary
  // ---------------------------------------------------------------------

  /** What `grouped[row.station_id].push({...row, model_names})` files, and where. */
  function StockEntry(pm: map<string, seq<string>>): InventoryRow -> Option<(string, StockItem)>
  {
    (row: InventoryRow) => Some((JsKey(row.stationId), StockItem(row, ModelNamesOf(pm, row.partId))))
  }

  /** `r.quantity || 0` */
  function ItemQty(it: StockItem): int
  {
    OrZeroInt(it.row.quantity)
  }

  /** `(r.parts_catalog?.unit_cost || 0) * (r.quantity || 0)` */
  function ItemValue(it: StockItem): real
  {
    var cost := if it.row.catalog.Some? then OrZero(it.row.catalog.value.unitCost) else 0.0;
    cost * ItemQty(it) as real
  }

  /** Both levels recorded and the quantity at or below the reorder level. */
  predicate IsLowStock(it: StockItem)
  {
    it.row.quantity.Some? && it.row.reorderLevel.Some? && it.row.quantity.value <= it.row.reorderLevel.value
  }

  function Summarize(items: seq<StockItem>): (s: Summary)
    ensures s.lowStockCount <= s.totalSkus
  {
    Summary(|items|, SumInt(items, ItemQty), Sum(items, ItemValue), Count(items, IsLowStock))
  }

  function AddSummaries(a: Summary, b: Summary): Summary
  {
    Summary(a.totalSkus + b.totalSkus, a.totalQty + b.totalQty, a.totalValue + b.totalValue, a.lowStockCount + b.lowStockCount)
  }

  /** The summary of two batches of rows is the sum of their summaries, figure by figure. */
  lemma SummarizeAppend(a: seq<StockItem>, b: seq<StockItem>)
    ensures Summarize(a + b) == AddSummaries(Summarize(a), Summarize(b))
  {
    SumIntAppend(a, b, ItemQty);
    SumAppend(a, b, ItemValue);
    FilterAppend(a, b, IsLowStock);
  }

  /** With no negative quantity or cost on record, every figure of the summary is non-negative. */
  lemma SummaryNonNegative(items: seq<StockItem>)
    requires forall i :: 0 <= i < |items| ==> 0 <= ItemQty(items[i]) && 0.0 <= ItemValue(items[i])
    ensures Summarize(items).totalQty >= 0 && Summarize(items).totalValue >= 0.0
  {
    SumIntNonNegative(items, ItemQty);
    SumAtLeast(items, ItemValue, 0.0);
  }

  function StationOf(id: string, meta: map<string, string>, items: seq<StockItem>): StationInventory
  {
    StationInventory(id, StationName(meta, id), items, Summarize(items))
  }

  /** One entry per key of `keys`, each holding the rows grouped under that key. */
  function StationsFor(kept: seq<InventoryRow>, meta: map<string, string>, pm: map<string, seq<string>>, keys: seq<string>)
    : seq<StationInventory>
  {
    seq(|keys|, i requires 0 <= i < |keys| => StationOf(keys[i], meta, ValuesAt(kept, StockEntry(pm), keys[i])))
  }

  /** `stationsArr`: the groups in the order their first row was seen. */
  function Stations(kept: seq<InventoryRow>, meta: map<string, string>, pm: map<string, seq<string>>): seq<StationInventory>
  {
    StationsFor(kept, meta, pm, FirstKeys(kept, StockEntry(pm)))
  }

  /** The station ids in the order `Object.entries(grouped)` lists them. */
  function StationKeys(kept: seq<InventoryRow>, links: seq<ModelLink>): seq<string>
  {
    FirstKeys(kept, StockEntry(PartModels(links)))
  }

  function StationIds(stations: seq<StationInventory>): seq<string>
  {
    seq(|stations|, i requires 0 <= i < |stations| => stations[i].stationId)
  }

  /** No two station entries share an id, and each entry holds only rows of its own station. */
  lemma StationsAreDisjoint(kept: seq<InventoryRow>, meta: map<string, string>, pm: map<string, seq<string>>)
    ensures Distinct(StationIds(Stations(kept, meta, pm)))
    ensures forall g, it :: 0 <= g < |Stations(kept, meta, pm)| && it in Stations(kept, meta, pm)[g].items ==>
              it.row in kept && JsKey(it.row.stationId) == Stations(kept, meta, pm)[g].stationId
  {
    var entry := StockEntry(pm);
    var keys := FirstKeys(kept, entry);
    FirstKeysSpec(kept, entry);
    assert StationIds(Stations(kept, meta, pm)) == keys;
    forall g, it | 0 <= g < |keys| && it in Stations(kept, meta, pm)[g].items
      ensures it.row in kept && JsKey(it.row.stationId) == keys[g]
    {
      ValuesAtOrigin(kept, entry, keys[g], it);
    }
  }

  /** Every kept row, with its model names attached, appears in the entry of its own station. */
  lemma RowInItsStation(kept: seq<InventoryRow>, meta: map<string, string>, pm: map<string, seq<string>>, i: nat)
    requires i < |kept|
    ensures exists g :: 0 <= g < |Stations(kept, meta, pm)|
                        && Stations(kept, meta, pm)[g].stationId == JsKey(kept[i].stationId)
                        && StockItem(kept[i], ModelNamesOf(pm, kept[i].partId)) in Stations(kept, meta, pm)[g].items
  {
    var entry := StockEntry(pm);
    var keys := FirstKeys(kept, entry);
    ValuesAtMember(kept, entry, i);
    FirstKeysSpec(kept, entry);
    var k := JsKey(kept[i].stationId);
    assert k in keys;
    var g :| 0 <= g < |keys| && keys[g] == k;
    assert Stations(kept, meta, pm)[g].stationId == k;
  }

  lemma {:induction false} SkusOfKeys(kept: seq<InventoryRow>, meta: map<string, string>, pm: map<string, seq<string>>, keys: seq<string>)
    ensures SumInt(StationsFor(kept, meta, pm, keys), SkusOf) == GroupSizes(kept, StockEntry(pm), keys)
  {
    if keys != [] {
      var pre := keys[..|keys| - 1];
      SkusOfKeys(kept, meta, pm, pre);
      assert StationsFor(kept, meta, pm, keys)[..|keys| - 1] == StationsFor(kept, meta, pm, pre);
    }
  }

  function SkusOf(s: StationInventory): int
  {
    s.summary.totalSkus
  }

  /** The SKU counts of all stations add up to the number of kept rows. */
  lemma SkusAddUp(kept: seq<InventoryRow>, meta: map<string, string>, pm: map<string, seq<string>>)
    ensures SumInt(Stations(kept, meta, pm), SkusOf) == |kept|
  {
    SkusOfKeys(kept, meta, pm, FirstKeys(kept, StockEntry(pm)));
    GroupsCoverAll(kept, StockEntry(pm));
  }

  // ---------------------------------------------------------------------
  // Search
  // ---------------------------------------------------------------------

  /** `x?.toLowerCase() || ""` */
  function Lowered(o: Option<string>): string
  {
    if o.Some? then ToLower(o.value) else ""
  }

  function PartNameOf(it: StockItem): Option<string>
  {
    if it.row.catalog.Some? then it.row.catalog.value.partName else None
  }

  function SkuOf(it: StockItem): Option<string>
  {
    if it.row.catalog.Some? then it.row.catalog.value.sku else None
  }

  /** The search test: an empty term keeps every row. */
  predicate MatchesSearch(it: StockItem, term: string)
  {
    if term == "" then true
    else
      var q := ToLower(term);
      Contains(Lowered(PartNameOf(it)), q)
      || Contains(Lowered(SkuOf(it)), q)
      || Contains(ToLower(Join(it.modelNames, ", ")), q)
  }

  function SearchTest(term: string): StockItem -> bool
  {
    (it: StockItem) => MatchesSearch(it, term)
  }

  /** `fileteredItems` for a station's rows. */
  function SearchItems(items: seq<StockItem>, term: string): seq<StockItem>
  {
    Filter(items, SearchTest(term))
  }

  lemma SearchEmptyKeepsAll(items: seq<StockItem>)
    ensures SearchItems(items, "") == items
  {
    FilterAll(items, SearchTest(""));
  }

  /** Searching is case-insensitive: upper- or lower-casing the term changes nothing. */
  lemma SearchIgnoresCase(items: seq<StockItem>, term: string)
    ensures SearchItems(items, ToUpper(term)) == SearchItems(items, term)
    ensures SearchItems(items, ToLower(term)) == SearchItems(items, term)
  {
    ToLowerForgetsCase(term);
    FilterSameTest(items, SearchTest(ToUpper(term)), SearchTest(term));
    FilterSameTest(items, SearchTest(ToLower(term)), SearchTest(term));
  }

  /** A row whose part name contains the term, in any case, is found. */
  lemma SearchFindsPartName(items: seq<StockItem>, term: string, i: nat)
    requires i < |items| && PartNameOf(items[i]).Some?
    requires Contains(PartNameOf(items[i]).value, term)
    ensures items[i] in SearchItems(items, term)
  {
    ContainsToLower(PartNameOf(items[i]).value, term);
  }

  /** Searching for one of a row's model names finds the row. */
  lemma SearchFindsModel(items: seq<StockItem>, i: nat, m: nat)
    requires i < |items| && m < |items[i].modelNames|
    ensures items[i] in SearchItems(items, items[i].modelNames[m])
  {
    var term := items[i].modelNames[m];
    JoinContains(items[i].modelNames, ", ", m);
    ContainsToLower(Join(items[i].modelNames, ", "), term);
  }

  // ---------------------------------------------------------------------
  // Pages
  // ---------------------------------------------------------------------

  /** `totalItems > 0 ? Math.ceil(totalItems / 15) : 1` */
  function InventoryTotalPages(n: nat): (r: nat)
    ensures r == TotalPages(n)
  {
    if n > 0 then (n + PAGE_SIZE - 1) / PAGE_SIZE else 1
  }

  /** `fileteredItems.slice(startIndex, startIndex + 15)` with `startIndex = (pageSafe - 1) * 15`. */
  function InventoryPageItems(items: seq<StockItem>, page: int): (r: seq<StockItem>)
    ensures r == PageItems(items, PageSafe(page, TotalPages(|items|)))
    ensures |r| <= PAGE_SIZE
  {
    var startIndex := (PageSafe(page, InventoryTotalPages(|items|)) - 1) * PAGE_SIZE;
    JsSlice(items, startIndex, startIndex + PAGE_SIZE)
  }

  /** From page 1 on, the shown page exists, and a non-empty list never shows an empty page. */
  lemma InventoryPageShown(items: seq<StockItem>, page: int)
    requires page >= 1
    ensures 1 <= PageSafe(page, InventoryTotalPages(|items|)) <= InventoryTotalPages(|items|)
    ensures items != [] ==> InventoryPageItems(items, page) != []
  {
    if items != [] {
      ClampedPageNotEmpty(items, page);
    }
  }

  // ---------------------------------------------------------------------
  // The quantity edit
  // ---------------------------------------------------------------------

  datatype EditDecision =
    | NothingToEdit
    | InvalidNumber   // "Please enter a valid number"
    | BelowZero       // "Quantity cannot go below zero"
    | NoChange        // the modal closes with no write
    | Write(newQty: int)

  /** The checks `saveInventoryEdit` makes before it contacts the backend. */
  function DecideEdit(editRow: Option<StockItem>, mode: string, input: string): (d: EditDecision)
    ensures d.Write? ==> editRow.Some? && d.newQty >= 0 && d.newQty != ItemQty(editRow.value)
  {
    if editRow.None? then NothingToEdit
    else
      var oldQty := ItemQty(editRow.value);
      match ParseInt(input)
      case None => InvalidNumber
      case Some(value) =>
        var newQty := if mode == "overwrite" then value else oldQty + value;
        if newQty < 0 then BelowZero
        else if newQty - oldQty == 0 then NoChange
        else Write(newQty)
  }

  /** A corollary of Text.ParseIntRoundTrip with nothing after the digits: what the edit modal reads back from a typed level. */
  lemma ParseIntOfIntToString(n: int)
    ensures ParseInt(IntToString(n)) == Some(n)
  {
    ParseIntRoundTrip(n, "");
    assert IntToString(n) + "" == IntToString(n);
  }

  /**
   * Any new stock level other than the current one can be reached in both
   * modes: by typing the level itself, or by typing the difference.
   */
  lemma EditReachesTarget(it: StockItem, target: nat)
    requires target != ItemQty(it)
    ensures DecideEdit(Some(it), "overwrite", IntToString(target)) == Write(target)
    ensures DecideEdit(Some(it), "delta", IntToString(target - ItemQty(it))) == Write(target)
  {
    ParseIntOfIntToString(target);
    ParseIntOfIntToString(target - ItemQty(it));
  }

  /** Typing the current level, or a zero delta, changes nothing; a blank entry is not a number. */
  lemma EditEdgeCases(it: StockItem, mode: string, blank: string)
    requires ItemQty(it) >= 0
    requires AllSpace(blank)
    ensures DecideEdit(Some(it), "overwrite", IntToString(ItemQty(it))) == NoChange
    ensures DecideEdit(Some(it), "delta", "0") == NoChange
    ensures DecideEdit(Some(it), mode, blank) == InvalidNumber
  {
    ParseIntOfIntToString(ItemQty(it));
    ParseIntOfIntToString(0);
    assert IntToString(0) == "0";
    ParseIntBlank(blank);
  }

  /** A delta that would take the stock below zero is refused. */
  lemma EditRefusesNegative(it: StockItem, delta: int)
    requires ItemQty(it) + delta < 0
    ensures DecideEdit(Some(it), "delta", IntToString(delta)) == BelowZero
  {
    ParseIntOfIntToString(delta);
  }

  /** What the backend did with an accepted edit. */
  datatype UpdateOutcome = NoAppUser | UpdateFailed(error: string) | Updated

  // ---------------------------------------------------------------------
  // The page's state
  // ---------------------------------------------------------------------

  /** `Object.entries(grouped).map(...)`: one summarised entry per key, in key order. */
  function StationsFromGroups(grouped: map<string, seq<StockItem>>, keys: seq<string>, meta: map<string, string>)
    : seq<StationInventory>
  {
    seq(|keys|, i requires 0 <= i < |keys| => StationOf(keys[i], meta, if keys[i] in grouped then grouped[keys[i]] else []))
  }

  /** The map `GroupBy` builds from the model links is `partModelsMap`. */
  lemma GroupedIsPartModels(links: seq<ModelLink>, grouped: map<string, seq<string>>)
    requires forall k :: k in grouped <==> ValuesAt(links, ModelEntry, k) != []
    requires forall k :: k in grouped ==> grouped[k] == ValuesAt(links, ModelEntry, k)
    ensures grouped == PartModels(links)
  {
    FirstKeysSpec(links, ModelEntry);
  }

  /** Laying out the groups `GroupBy` builds from the stock rows, key by key, gives the station entries. */
  lemma GroupedIsStations(kept: seq<InventoryRow>, meta: map<string, string>, pm: map<string, seq<string>>,
                          grouped: map<string, seq<StockItem>>)
    requires forall k :: k in grouped <==> ValuesAt(kept, StockEntry(pm), k) != []
    requires forall k :: k in grouped ==> grouped[k] == ValuesAt(kept, StockEntry(pm), k)
    ensures StationsFromGroups(grouped, FirstKeys(kept, StockEntry(pm)), meta) == Stations(kept, meta, pm)
    ensures StationIds(Stations(kept, meta, pm)) == FirstKeys(kept, StockEntry(pm))
    ensures Distinct(StationIds(Stations(kept, meta, pm)))
  {
    StationsAreDisjoint(kept, meta, pm);
    assert StationIds(Stations(kept, meta, pm)) == FirstKeys(kept, StockEntry(pm));
  }

  /** The station metadata map, the models per part, the grouping and the summaries of `fetchInventory`. */
  method BuildStations(inventory: seq<InventoryRow>, stationsData: seq<StationRow>, partModelData: seq<ModelLink>)
    returns (stationMetaMap: map<string, string>, stationsArr: seq<StationInventory>, firstStation: Option<string>)
    ensures stationMetaMap == StationMeta(stationsData)
    ensures stationsArr == Stations(inventory, StationMeta(stationsData), PartModels(partModelData))
    ensures StationIds(stationsArr) == StationKeys(inventory, partModelData)
    ensures Distinct(StationIds(stationsArr))
    ensures firstStation == if StationKeys(inventory, partModelData) != [] then Some(StationKeys(inventory, partModelData)[0]) else None
  {
    stationMetaMap := IndexBy(stationsData, StationIdOf, StationLabel);

    var partModelsMap, partKeys := GroupBy(partModelData, ModelEntry);
    GroupedIsPartModels(partModelData, partModelsMap);

    var grouped, keys := GroupBy(inventory, StockEntry(partModelsMap));
    GroupedIsStations(inventory, stationMetaMap, partModelsMap, grouped);
    stationsArr := StationsFromGroups(grouped, keys, stationMetaMap);
    firstStation := if |stationsArr| > 0 then Some(stationsArr[0].stationId) else None;
    assert |stationsArr| > 0 ==> stationsArr[0].stationId == StationIds(stationsArr)[0];
  }

  function StationIs(selected: Option<string>): StationInventory -> bool
  {
    (s: StationInventory) => selected.Some? && s.stationId == selected.value
  }

  class InventoryPage {
    var inventoryByStation: seq<StationInventory>
    var stationsMeta: map<string, string>
    var selectedStationId: Option<string>
    var message: string
    var page: int
    var searchTerm: string
    var showEditModal: bool
    var editRow: Option<StockItem>
    var editMode: string
    var editValue: string

    /** Pages count from 1, and no two station entries share an id. */
    ghost predicate Valid()
      reads this
    {
      page >= 1 && Distinct(StationIds(inventoryByStation))
    }

    /** `currentStation` */
    function CurrentStation(): Option<StationInventory>
      reads this
    {
      FindFirst(inventoryByStation, StationIs(selectedStationId))
    }

    /** `fileteredItems` */
    function FilteredItems(): seq<StockItem>
      reads this
    {
      var current := CurrentStation();
      if current.Some? then SearchItems(current.value.items, searchTerm) else []
    }

    function TotalPagesNow(): nat
      reads this
    {
      InventoryTotalPages(|FilteredItems()|)
    }

    /** `pageItems` */
    function PageItemsNow(): seq<StockItem>
      reads this
    {
      InventoryPageItems(FilteredItems(), page)
    }

    constructor()
      ensures Valid()
      ensures inventoryByStation == [] && stationsMeta == map[] && selectedStationId == None
      ensures message == "" && page == 1 && searchTerm == ""
      ensures !showEditModal && editRow == None && editMode == "overwrite" && editValue == ""
    {
      inventoryByStation := [];
      stationsMeta := map[];
      selectedStationId := None;
      message := "";
      page := 1;
      searchTerm := "";
      showEditModal := false;
      editRow := None;
      editMode := "overwrite";
      editValue := "";
    }

    /**
     * `fetchInventory`, given what the three selects returned: the rows and
     * their error, the station rows and their error, and the model links.
     */
    method FetchInventory(inv: seq<InventoryRow>, invErr: Option<string>,
                          stationsData: seq<StationRow>, stationsErr: Option<string>,
                          partModelData: seq<ModelLink>)
      requires Valid()
      modifies this
      ensures Valid()
      ensures invErr.Some? ==>
        && message == "Failed to load inventory: " + invErr.value
        && inventoryByStation == old(inventoryByStation) && stationsMeta == old(stationsMeta)
        && selectedStationId == old(selectedStationId) && page == old(page)
      ensures invErr.None? && KeptRows(inv) == [] ==>
        && message == "" && inventoryByStation == []
        && stationsMeta == old(stationsMeta) && selectedStationId == old(selectedStationId) && page == old(page)
      ensures invErr.None? && KeptRows(inv) != [] ==>
        && message == (if stationsErr.Some? then "Failed to load station metadata: " + stationsErr.value else "")
        && stationsMeta == StationMeta(stationsData)
        && inventoryByStation == Stations(KeptRows(inv), StationMeta(stationsData), PartModels(partModelData))
        && StationIds(inventoryByStation) == StationKeys(KeptRows(inv), partModelData)
        && selectedStationId == (if !Truthy(old(selectedStationId)) && StationKeys(KeptRows(inv), partModelData) != []
                                 then Some(StationKeys(KeptRows(inv), partModelData)[0]) else old(selectedStationId))
        && page == 1
      ensures searchTerm == old(searchTerm) && showEditModal == old(showEditModal) && editRow == old(editRow)
      ensures editMode == old(editMode) && editValue == old(editValue)
    {
      message := "";
      var inventory := KeptRows(inv);
      if invErr.Some? {
        message := "Failed to load inventory: " + invErr.value;
        return;
      }
      if |inventory| == 0 {
        inventoryByStation := [];
        return;
      }
      ShowStations(inventory, stationsData, stationsErr, partModelData);
    }

    /** The rest of `fetchInventory` once there are rows to show. */
    method ShowStations(inventory: seq<InventoryRow>, stationsData: seq<StationRow>, stationsErr: Option<string>,
                        partModelData: seq<ModelLink>)
      requires Valid()
      modifies this
      ensures Valid()
      ensures message == (if stationsErr.Some? then "Failed to load station metadata: " + stationsErr.value else old(message))
      ensures stationsMeta == StationMeta(stationsData)
      ensures inventoryByStation == Stations(inventory, StationMeta(stationsData), PartModels(partModelData))
      ensures StationIds(inventoryByStation) == StationKeys(inventory, partModelData)
      ensures selectedStationId == (if !Truthy(old(selectedStationId)) && StationKeys(inventory, partModelData) != []
                                    then Some(StationKeys(inventory, partModelData)[0]) else old(selectedStationId))
      ensures page == 1
      ensures unchanged(this`searchTerm, this`showEditModal, this`editRow, this`editMode, this`editValue)
    {
      if stationsErr.Some? {
        message := "Failed to load station metadata: " + stationsErr.value;
      }
      var stationMetaMap, stationsArr, firstStation := BuildStations(inventory, stationsData, partModelData);
      stationsMeta := stationMetaMap;
      inventoryByStation := stationsArr;

      if !Truthy(selectedStationId) && firstStation.Some? {
        selectedStationId := firstStation;
      }
      page := 1;
    }

    /** `handleStationChange`: a new station shows from its first page. */
    method HandleStationChange(value: string)
      requires Valid()
      modifies this
      ensures Valid()
      ensures selectedStationId == Some(value) && page == 1
      ensures inventoryByStation == old(inventoryByStation) && searchTerm == old(searchTerm)
      ensures stationsMeta == old(stationsMeta) && message == old(message)
      ensures showEditModal == old(showEditModal) && editRow == old(editRow)
      ensures editMode == old(editMode) && editValue == old(editValue)
    {
      selectedStationId := Some(value);
      page := 1;
    }

    /** The search box's change handler: a new term shows from the first page. */
    method SetSearchTerm(value: string)
      requires Valid()
      modifies this
      ensures Valid()
      ensures searchTerm == value && page == 1
      ensures inventoryByStation == old(inventoryByStation) && selectedStationId == old(selectedStationId)
      ensures stationsMeta == old(stationsMeta) && message == old(message)
      ensures showEditModal == old(showEditModal) && editRow == old(editRow)
      ensures editMode == old(editMode) && editValue == old(editValue)
    {
      searchTerm := value;
      page := 1;
    }

    /** `goToPrevPage`: one page back, never below 1. */
    method GoToPrevPage()
      requires Valid()
      modifies this
      ensures Valid()
      ensures page == Prev(old(page)) && page <= old(page)
      ensures old(page) > 1 ==> page == old(page) - 1
      ensures inventoryByStation == old(inventoryByStation) && selectedStationId == old(selectedStationId)
      ensures searchTerm == old(searchTerm) && stationsMeta == old(stationsMeta) && message == old(message)
      ensures showEditModal == old(showEditModal) && editRow == old(editRow)
      ensures editMode == old(editMode) && editValue == old(editValue)
    {
      page := Prev(page);
    }

    /** `goToNextPage`: one page on, never past the last page of the current list. */
    method GoToNextPage()
      requires Valid()
      modifies this
      ensures Valid()
      ensures page == Next(old(page), old(TotalPagesNow()))
      ensures 1 <= page <= TotalPagesNow()
      ensures old(page) < TotalPagesNow() ==> page == old(page) + 1
      ensures inventoryByStation == old(inventoryByStation) && selectedStationId == old(selectedStationId)
      ensures searchTerm == old(searchTerm) && stationsMeta == old(stationsMeta) && message == old(message)
      ensures showEditModal == old(showEditModal) && editRow == old(editRow)
      ensures editMode == old(editMode) && editValue == old(editValue)
    {
      page := Next(page, TotalPagesNow());
    }

    /** `openEditModal`: starts an overwrite edit of `row` with an empty entry. */
    method OpenEditModal(row: StockItem)
      requires Valid()
      modifies this
      ensures Valid()
      ensures editRow == Some(row) && editMode == "overwrite" && editValue == ""
      ensures showEditModal && message == ""
      ensures inventoryByStation == old(inventoryByStation) && selectedStationId == old(selectedStationId)
      ensures searchTerm == old(searchTerm) && stationsMeta == old(stationsMeta) && page == old(page)
    {
      editRow := Some(row);
      editMode := "overwrite";
      editValue := "";
      showEditModal := true;
      message := "";
    }

    /** The mode radio buttons and the value box of the edit modal. */
    method SetEditInput(mode: string, value: string)
      requires Valid()
      modifies this
      ensures Valid()
      ensures editMode == mode && editValue == value
      ensures editRow == old(editRow) && showEditModal == old(showEditModal) && message == old(message)
      ensures inventoryByStation == old(inventoryByStation) && selectedStationId == old(selectedStationId)
      ensures searchTerm == old(searchTerm) && stationsMeta == old(stationsMeta) && page == old(page)
    {
      editMode := mode;
      editValue := value;
    }

    /** The edit modal's Cancel button: the modal closes and everything else, the row and the entry included, stays. */
    method CloseEditModal()
      requires Valid()
      modifies this
      ensures Valid()
      ensures !showEditModal
      ensures editRow == old(editRow) && editMode == old(editMode) && editValue == old(editValue) && message == old(message)
      ensures inventoryByStation == old(inventoryByStation) && selectedStationId == old(selectedStationId)
      ensures searchTerm == old(searchTerm) && stationsMeta == old(stationsMeta) && page == old(page)
    {
      showEditModal := false;
    }

    /**
     * `saveInventoryEdit`, given what the backend does with an accepted edit.
     * Returns the quantity sent in the update, if one was sent.  Reloading
     * the inventory after a successful update is a separate FetchInventory.
     */
    method SaveInventoryEdit(outcome: UpdateOutcome) returns (written: Option<int>)
      requires Valid()
      modifies this
      ensures Valid()
      ensures var d := DecideEdit(old(editRow), old(editMode), old(editValue));
        && written == (if d.Write? && outcome != NoAppUser then Some(d.newQty) else None)
        && message == (match d
                       case NothingToEdit => old(message)
                       case InvalidNumber => "Please enter a valid number"
                       case BelowZero => "Quantity cannot go below zero"
                       case NoChange => old(message)
                       case Write(_) =>
                         match outcome
                         case NoAppUser => "Unable to resolve user"
                         case UpdateFailed(e) => "Update failed: " + e
                         case Updated => "\U{2705} Inventory updated successfully")
        && showEditModal == (if d.NoChange? || (d.Write? && outcome.Updated?) then false else old(showEditModal))
        && editRow == (if d.Write? && outcome.Updated? then None else old(editRow))
        && editValue == (if d.Write? && outcome.Updated? then "" else old(editValue))
      ensures unchanged(this`editMode, this`inventoryByStation, this`selectedStationId, this`searchTerm, this`stationsMeta, this`page)
    {
      written := None;
      var d := DecideEdit(editRow, editMode, editValue);
      match d {
        case NothingToEdit =>
        case InvalidNumber =>
          message := "Please enter a valid number";
        case BelowZero =>
          message := "Quantity cannot go below zero";
        case NoChange =>
          showEditModal := false;
        case Write(newQty) =>
          written := WriteEdit(newQty, outcome);
      }
    }

    /** The backend half of `saveInventoryEdit`: resolve the app user, write the new level, report. */
    method WriteEdit(newQty: int, outcome: UpdateOutcome) returns (written: Option<int>)
      requires Valid()
      modifies this
      ensures Valid()
      ensures written == (if outcome == NoAppUser then None else Some(newQty))
      ensures message == (match outcome
                          case NoAppUser => "Unable to resolve user"
                          case UpdateFailed(e) => "Update failed: " + e
                          case Updated => "\U{2705} Inventory updated successfully")
      ensures showEditModal == (if outcome.Updated? then false else old(showEditModal))
      ensures editRow == (if outcome.Updated? then None else old(editRow))
      ensures editValue == (if outcome.Updated? then "" else old(editValue))
      ensures unchanged(this`editMode, this`inventoryByStation, this`selectedStationId, this`searchTerm, this`stationsMeta, this`page)
    {
      written := None;
      if outcome == NoAppUser {
        message := "Unable to resolve user";
        return;
      }
      written := Some(newQty);
      if outcome.UpdateFailed? {
        message := "Update failed: " + outcome.error;
        return;
      }
      showEditModal := false;
      editRow := None;
      editValue := "";
      message := "\U{2705} Inventory updated successfully";
    }
  }

  /** The rows shown are the current page of the filtered list, a page that exists, at most 15 of them. */
  lemma PageViewSound(p: InventoryPage)
    requires p.Valid()
    ensures p.PageItemsNow() == PageItems(p.FilteredItems(), PageSafe(p.page, p.TotalPagesNow()))
    ensures 1 <= PageSafe(p.page, p.TotalPagesNow()) <= p.TotalPagesNow()
    ensures |p.PageItemsNow()| <= PAGE_SIZE
    ensures p.FilteredItems() != [] ==> p.PageItemsNow() != []
  {
    InventoryPageShown(p.FilteredItems(), p.page);
  }

  /** The selected station's entry is the one whose id was selected; with no match nothing is listed. */
  lemma CurrentStationIsSelected(p: InventoryPage)
    requires p.Valid()
    ensures p.CurrentStation().Some? ==>
      p.selectedStationId.Some? && p.CurrentStation().value.stationId == p.selectedStationId.value
      && p.CurrentStation().value in p.inventoryByStation
    ensures p.CurrentStation().None? ==> p.FilteredItems() == []
  {
    var c := p.CurrentStation();
    if c.Some? {
      var i :| 0 <= i < |p.inventoryByStation| && p.inventoryByStation[i] == c.value
               && StationIs(p.selectedStationId)(p.inventoryByStation[i]);
    }
  }
}
