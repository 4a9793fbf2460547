/**
 * The manager's ticket list: three filters over the fetched tickets, a
 * clamped 15-per-page view of the result, the SLA colouring of each row's
 * turnaround time, and the page number the Prev/Next buttons and the
 * filter controls move.
 */
module ManagerTickets {
  import opened Wrappers
  import opened Seqs
  import opened Text
  import opened Paging
  import opened Records

  /** Hours after which a turnaround is shown as a warning. */
  const SLA_WARNING_HRS: real := 24.0
  /** Hours after which a turnaround is shown as critical. */
  const SLA_CRITICAL_HRS: real := 48.0

  /** The three filter controls: station id ("" for all), status ("all" for any) and free-text search. */
  datatype Filters = Filters(station: string, status: string, search: string)

  /** The filters the page starts with. */
  const NO_FILTERS := Filters("", "all", "")

  // ---------------------------------------------------------------------
  // Filtering
  // ---------------------------------------------------------------------

  /** `t.field?.toLowerCase().includes(q)`: a missing field never matches. */
  predicate FieldMatches(field: Option<string>, q: string)
  {
    field.Some? && Contains(ToLower(field.value), q)
  }

  /** The test `filteredTickets` applies to one ticket. */
  predicate TicketKept(t: Ticket, f: Filters)
  {
    && (f.station == "" || t.stationId == Some(f.station))
    && (f.status == "all" || t.status == f.status)
    && (f.search == "" ||
          var q := ToLower(f.search);
          FieldMatches(t.ticketNo, q) || FieldMatches(t.bikeNumberText, q) || FieldMatches(t.issueDescription, q))
  }

  function KeptTest(f: Filters): Ticket -> bool
  {
    (t: Ticket) => TicketKept(t, f)
  }

  /** `filteredTickets` */
  function FilteredTickets(tickets: seq<Ticket>, f: Filters): seq<Ticket>
  {
    Filter(tickets, KeptTest(f))
  }

  /**
   * The filtered list keeps the fetched order, and a fetched ticket is in
   * it exactly when it passes all three filters.
   */
  lemma FilteredTicketsAreKept(tickets: seq<Ticket>, f: Filters)
    ensures SubseqOf(FilteredTickets(tickets, f), tickets)
    ensures forall i :: 0 <= i < |tickets| ==> (tickets[i] in FilteredTickets(tickets, f) <==> TicketKept(tickets[i], f))
  {
  }

  /** With no filter set every fetched ticket is listed, in fetched order. */
  lemma NoFiltersKeepAll(tickets: seq<Ticket>)
    ensures FilteredTickets(tickets, NO_FILTERS) == tickets
  {
    FilterAll(tickets, KeptTest(NO_FILTERS));
  }

  /**
   * A station filter keeps only tickets of exactly that station (a ticket
   * with no station is dropped), and a status other than "all" keeps only
   * tickets with exactly that status.
   */
  lemma ExactFilters(tickets: seq<Ticket>, f: Filters)
    ensures f.station != "" ==> forall t :: t in FilteredTickets(tickets, f) ==> t.stationId == Some(f.station)
    ensures f.status != "all" ==> forall t :: t in FilteredTickets(tickets, f) ==> t.status == f.status
  {
  }

  /** A ticket with none of the three searched fields never survives a search. */
  lemma MissingFieldsNeverMatch(tickets: seq<Ticket>, f: Filters, t: Ticket)
    requires f.search != ""
    requires t.ticketNo.None? && t.bikeNumberText.None? && t.issueDescription.None?
    ensures t !in FilteredTickets(tickets, f)
  {
  }

  /** The search ignores case: an upper- or lower-cased query lists the same tickets. */
  lemma SearchIgnoresCase(tickets: seq<Ticket>, station: string, status: string, search: string)
    ensures FilteredTickets(tickets, Filters(station, status, ToUpper(search))) == FilteredTickets(tickets, Filters(station, status, search))
    ensures FilteredTickets(tickets, Filters(station, status, ToLower(search))) == FilteredTickets(tickets, Filters(station, status, search))
  {
    ToLowerForgetsCase(search);
    FilterSameTest(tickets, KeptTest(Filters(station, status, ToUpper(search))), KeptTest(Filters(station, status, search)));
    FilterSameTest(tickets, KeptTest(Filters(station, status, ToLower(search))), KeptTest(Filters(station, status, search)));
  }

  /** Searching for any part of a ticket's bike number, in any case, finds the ticket. */
  lemma SearchFindsBike(tickets: seq<Ticket>, i: nat, a: string, search: string, b: string)
    requires i < |tickets| && search != ""
    requires tickets[i].bikeNumberText == Some(a + search + b)
    ensures tickets[i] in FilteredTickets(tickets, Filters("", "all", search))
  {
    ContainsMiddle(a, search, b);
    ContainsToLower(a + search + b, search);
  }

  // ---------------------------------------------------------------------
  // Pages
  // ---------------------------------------------------------------------

  /** `pageSafe` for a list of `n` filtered tickets. */
  function TicketPageSafe(page: int, n: nat): int
  {
    PageSafe(page, TotalPages(n))
  }

  /** `pageItems` */
  function TicketPageItems(filtered: seq<Ticket>, page: int): seq<Ticket>
  {
    PageItems(filtered, TicketPageSafe(page, |filtered|))
  }

  /** The "Showing a–b of n" label. */
  function ShowingRange(pageSafe: int, n: nat): (int, int)
  {
    ((pageSafe - 1) * PAGE_SIZE + 1, if pageSafe * PAGE_SIZE < n then pageSafe * PAGE_SIZE else n)
  }

  /**
   * From page 1 on, the page shown is a page that exists, holds at most 15
   * tickets, starts at ticket (pageSafe − 1)·15 of the filtered list, and
   * the "Showing a–b" label counts exactly the tickets it holds.
   */
  lemma TicketPageShown(filtered: seq<Ticket>, page: int)
    requires page >= 1
    ensures var ps := TicketPageSafe(page, |filtered|);
            var r := TicketPageItems(filtered, page);
            && 1 <= ps <= TotalPages(|filtered|)
            && |r| <= PAGE_SIZE
            && (forall k :: 0 <= k < |r| ==> r[k] == filtered[(ps - 1) * PAGE_SIZE + k])
            && (filtered != [] ==> ShowingRange(ps, |filtered|).1 - ShowingRange(ps, |filtered|).0 + 1 == |r|)
  {
    var ps := TicketPageSafe(page, |filtered|);
    PageItemsAt(filtered, ps);
  }

  // ---------------------------------------------------------------------
  // SLA colouring
  // ---------------------------------------------------------------------

  /** `slaClass` */
  function SlaClass(tatHours: real): string
  {
    if tatHours >= SLA_CRITICAL_HRS then "text-red-600 font-semibold"
    else if tatHours >= SLA_WARNING_HRS then "text-amber-600 font-semibold"
    else ""
  }

  /** The three bands: critical from 48 hours, warning from 24 up to 48, nothing below 24. */
  lemma SlaBands(tatHours: real)
    ensures SlaClass(tatHours) == "text-red-600 font-semibold" <==> tatHours >= 48.0
    ensures SlaClass(tatHours) == "text-amber-600 font-semibold" <==> 24.0 <= tatHours < 48.0
    ensures SlaClass(tatHours) == "" <==> tatHours < 24.0
  {
  }

  /** 0 for no class, 1 for warning, 2 for critical. */
  function Severity(cls: string): nat
  {
    if cls == "text-red-600 font-semibold" then 2 else if cls == "text-amber-600 font-semibold" then 1 else 0
  }

  /** A longer turnaround is never coloured less severely. */
  lemma SlaMonotone(a: real, b: real)
    requires a <= b
    ensures Severity(SlaClass(a)) <= Severity(SlaClass(b))
  {
  }

  // ---------------------------------------------------------------------
  // The page number
  // ---------------------------------------------------------------------

  /** What the list view keeps between renders: the fetched tickets, the filters and the page number. */
  datatype TicketsView = TicketsView(tickets: seq<Ticket>, filters: Filters, page: int)

  /** The view once the tickets have arrived: no filter, page 1. */
  function Loaded(tickets: seq<Ticket>): TicketsView
  {
    TicketsView(tickets, NO_FILTERS, 1)
  }

  function Filtered(v: TicketsView): seq<Ticket>
  {
    FilteredTickets(v.tickets, v.filters)
  }

  function ViewTotalPages(v: TicketsView): nat
  {
    TotalPages(|Filtered(v)|)
  }

  /** The station select's change handler. */
  function SetStationFilter(v: TicketsView, value: string): TicketsView
  {
    v.(filters := v.filters.(station := value), page := 1)
  }

  /** The status select's change handler. */
  function SetStatusFilter(v: TicketsView, value: string): TicketsView
  {
    v.(filters := v.filters.(status := value), page := 1)
  }

  /** The search box's change handler. */
  function SetSearch(v: TicketsView, value: string): TicketsView
  {
    v.(filters := v.filters.(search := value), page := 1)
  }

  /** The Prev button: `Math.max(1, p - 1)`. */
  function PrevPage(v: TicketsView): TicketsView
  {
    v.(page := Prev(v.page))
  }

  /** The Next button: `Math.min(totalPages, p + 1)`. */
  function NextPage(v: TicketsView): TicketsView
  {
    v.(page := Next(v.page, ViewTotalPages(v)))
  }

  /** The page number names a page that exists. */
  predicate PageInRange(v: TicketsView)
  {
    1 <= v.page <= ViewTotalPages(v)
  }

  /**
   * The page number starts in range and every handler keeps it there;
   * so the clamp `pageSafe` never changes the page that is shown.
   */
  lemma HandlersKeepPageInRange(v: TicketsView, value: string)
    requires PageInRange(v)
    ensures PageInRange(PrevPage(v)) && PageInRange(NextPage(v))
    ensures PageInRange(SetStationFilter(v, value)) && PageInRange(SetStatusFilter(v, value)) && PageInRange(SetSearch(v, value))
    ensures TicketPageSafe(v.page, |Filtered(v)|) == v.page
  {
    PrevNextStayInRange(v.page, ViewTotalPages(v));
  }

  lemma LoadedInRange(tickets: seq<Ticket>)
    ensures PageInRange(Loaded(tickets))
  {
  }

  /** Changing any filter shows the first 15 tickets of the new list. */
  lemma FilterChangeShowsFirstPage(v: TicketsView, value: string)
    ensures var w := SetStationFilter(v, value);
            TicketPageItems(Filtered(w), w.page) == Filtered(w)[..if |Filtered(w)| < PAGE_SIZE then |Filtered(w)| else PAGE_SIZE]
    ensures var w := SetStatusFilter(v, value);
            TicketPageItems(Filtered(w), w.page) == Filtered(w)[..if |Filtered(w)| < PAGE_SIZE then |Filtered(w)| else PAGE_SIZE]
    ensures var w := SetSearch(v, value);
            TicketPageItems(Filtered(w), w.page) == Filtered(w)[..if |Filtered(w)| < PAGE_SIZE then |Filtered(w)| else PAGE_SIZE]
  {
  }

  /** Prev is disabled on the first page and Next on the last; elsewhere each moves exactly one page. */
  lemma PrevNextMoveOnePage(v: TicketsView)
    requires PageInRange(v)
    ensures v.page > 1 ==> PrevPage(v).page == v.page - 1
    ensures v.page < ViewTotalPages(v) ==> NextPage(v).page == v.page + 1
    ensures v.page == 1 ==> PrevPage(v) == v
    ensures v.page == ViewTotalPages(v) ==> NextPage(v) == v
  {
  }
}
