/**
 * The searchable part picker used by the walk-in modal: a text input
 * that, while open, shows what the user typed and a dropdown of the parts
 * whose name or SKU contains it (ignoring case); choosing a part reports
 * its id and closes the dropdown, after which the input shows the chosen
 * part as "name (sku)".
 */
module SearchablePartSelect {
  import opened Wrappers
  import opened Seqs
  import opened Text

  /** A catalogue part as the picker lists it. */
  datatype Part = Part(id: string, partName: string, sku: string)

  /** The test a non-empty query applies, with `q` already lower-cased. */
  predicate PartMatches(p: Part, q: string)
  {
    Contains(ToLower(p.partName), q) || Contains(ToLower(p.sku), q)
  }

  function MatchTest(query: string): Part -> bool
  {
    (p: Part) => PartMatches(p, ToLower(query))
  }

  /** `filteredParts` */
  function FilteredParts(parts: seq<Part>, query: string): seq<Part>
  {
    if query == "" then parts else Filter(parts, MatchTest(query))
  }

  /**
   * An empty query lists every part; otherwise the list keeps the parts'
   * order and holds a part exactly when its lower-cased name or SKU
   * contains the lower-cased query.
   */
  lemma FilteredPartsSpec(parts: seq<Part>, query: string)
    ensures query == "" ==> FilteredParts(parts, query) == parts
    ensures SubseqOf(FilteredParts(parts, query), parts)
    ensures query != "" ==> forall i :: 0 <= i < |parts| ==>
              (parts[i] in FilteredParts(parts, query) <==> PartMatches(parts[i], ToLower(query)))
  {
    if query == "" {
      assert SubseqOf(parts, parts) by {
        FilterAll(parts, (p: Part) => true);
      }
    }
  }

  /** The query's case does not matter: upper- and lower-cased queries list the same parts. */
  lemma QueryIgnoresCase(parts: seq<Part>, query: string)
    ensures FilteredParts(parts, ToUpper(query)) == FilteredParts(parts, query)
    ensures FilteredParts(parts, ToLower(query)) == FilteredParts(parts, query)
  {
    ToLowerForgetsCase(query);
    FilterSameTest(parts, MatchTest(ToUpper(query)), MatchTest(query));
    FilterSameTest(parts, MatchTest(ToLower(query)), MatchTest(query));
  }

  /** `parts.find(p => p.id === value)` */
  function SelectedPart(parts: seq<Part>, value: string): (r: Option<Part>)
    ensures r.None? <==> forall i :: 0 <= i < |parts| ==> parts[i].id != value
    ensures r.Some? ==> exists i :: 0 <= i < |parts| && parts[i] == r.value && r.value.id == value
                                    && forall j :: 0 <= j < i ==> parts[j].id != value
  {
    FindFirst(parts, (p: Part) => p.id == value)
  }

  /** The label of a chosen part. */
  function Label(p: Part): string
  {
    p.partName + " (" + p.sku + ")"
  }

  /** The input's text: the query while open, else the selected part's label, else nothing. */
  function DisplayText(open: bool, query: string, selected: Option<Part>): string
  {
    if open then query else if selected.Some? then Label(selected.value) else ""
  }

  /** What the dropdown shows. */
  datatype Dropdown = Hidden | NoMatchingParts | Options(parts: seq<Part>)

  function DropdownOf(open: bool, parts: seq<Part>, query: string): (r: Dropdown)
    ensures r.Hidden? <==> !open
    ensures r.Options? ==> r.parts == FilteredParts(parts, query) && r.parts != []
    ensures r.NoMatchingParts? <==> open && FilteredParts(parts, query) == []
  {
    if !open then Hidden
    else if |FilteredParts(parts, query)| == 0 then NoMatchingParts
    else Options(FilteredParts(parts, query))
  }

  /** The picker's own state: whether the dropdown is open and what has been typed. */
  class PartPicker {
    var open: bool
    var query: string

    constructor()
      ensures !open && query == ""
    {
      open := false;
      query := "";
    }

    /** Focusing the input opens the dropdown. */
    method OnFocus()
      modifies this
      ensures open && query == old(query)
    {
      open := true;
    }

    /** Typing replaces the query and opens the dropdown. */
    method OnChange(value: string)
      modifies this
      ensures open && query == value
    {
      query := value;
      open := true;
    }

    /** A mouse-down outside the picker closes it; one inside changes nothing. */
    method OnMouseDown(inside: bool)
      modifies this
      ensures open == (old(open) && inside) && query == old(query)
    {
      if !inside {
        open := false;
      }
    }

    /** Clicking an option reports its id to the parent, clears the query and closes. */
    method Choose(p: Part) returns (reported: string)
      modifies this
      ensures reported == p.id
      ensures !open && query == ""
    {
      reported := p.id;
      query := "";
      open := false;
    }
  }

  /**
   * After a part is chosen (the picker closed, the query cleared) and the
   * parent stores the reported id, the input shows that part's label,
   * provided no earlier part has the same id; a value no part has shows
   * nothing; while open the input shows the query whatever the value.
   */
  lemma ChosenPartShown(parts: seq<Part>, i: nat, value: string, query: string)
    requires i < |parts|
    requires forall j :: 0 <= j < i ==> parts[j].id != parts[i].id
    ensures DisplayText(false, "", SelectedPart(parts, parts[i].id)) == Label(parts[i])
    ensures (forall j :: 0 <= j < |parts| ==> parts[j].id != value) ==> DisplayText(false, query, SelectedPart(parts, value)) == ""
    ensures DisplayText(true, query, SelectedPart(parts, value)) == query
  {
    var r := SelectedPart(parts, parts[i].id);
    var k :| 0 <= k < |parts| && parts[k] == r.value && r.value.id == parts[i].id
             && forall j :: 0 <= j < k ==> parts[j].id != parts[i].id;
    assert k == i;
  }
}
