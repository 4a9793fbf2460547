/**
 * The station dashboard's ticket table: its controls drive the page
 * number, the date filter and the "open first" sort flag, and each row
 * offers "Close with Parts" only while its ticket is open.
 */
module TicketsTable {
  import opened Paging
  import opened Records

  /** The parent's state that the table's handlers change. */
  class TableControls {
    var ticketPage: int
    var ticketDateFilter: string
    var openFirst: bool

    /** Pages count from 1. */
    predicate Valid()
      reads this
    {
      ticketPage >= 1
    }

    /** The parent's page state starts at 1 and its handlers never take it below 1. */
    constructor(ticketPage: int, ticketDateFilter: string, openFirst: bool)
      requires ticketPage >= 1
      ensures Valid()
      ensures this.ticketPage == ticketPage && this.ticketDateFilter == ticketDateFilter && this.openFirst == openFirst
    {
      this.ticketPage := ticketPage;
      this.ticketDateFilter := ticketDateFilter;
      this.openFirst := openFirst;
    }

    /** The date input's change handler: back to page 1, then the new date. */
    method OnDateChange(value: string)
      modifies this
      ensures ticketPage == 1 && ticketDateFilter == value && openFirst == old(openFirst)
      ensures Valid()
    {
      ticketPage := 1;
      ticketDateFilter := value;
    }

    /** The Clear button: no date, page 1. */
    method OnClearDate()
      modifies this
      ensures ticketPage == 1 && ticketDateFilter == "" && openFirst == old(openFirst)
      ensures Valid()
    {
      ticketDateFilter := "";
      ticketPage := 1;
    }

    /** The status sort button: flip the flag, page 1. */
    method ToggleStatusSort()
      modifies this
      ensures openFirst == !old(openFirst) && ticketPage == 1 && ticketDateFilter == old(ticketDateFilter)
      ensures Valid()
    {
      openFirst := !openFirst;
      ticketPage := 1;
    }

    /** `setTicketPage(p => Math.max(1, p - 1))`; the button is disabled on page 1 and below. */
    method OnPrev()
      modifies this
      ensures ticketPage == Prev(old(ticketPage))
      ensures old(ticketPage) > 1 ==> ticketPage == old(ticketPage) - 1
      ensures Valid()
      ensures ticketDateFilter == old(ticketDateFilter) && openFirst == old(openFirst)
    {
      ticketPage := Prev(ticketPage);
    }

    /** `setTicketPage(p => Math.min(totalTicketPages, p + 1))`; the button is disabled from the last page on. */
    method OnNext(totalTicketPages: int)
      modifies this
      ensures ticketPage == Next(old(ticketPage), totalTicketPages)
      ensures old(ticketPage) < totalTicketPages ==> ticketPage == old(ticketPage) + 1
      ensures ticketPage <= totalTicketPages
      ensures old(Valid()) && totalTicketPages >= 1 ==> Valid()
      ensures ticketDateFilter == old(ticketDateFilter) && openFirst == old(openFirst)
    {
      ticketPage := Next(ticketPage, totalTicketPages);
    }
  }

  predicate PrevEnabled(ticketPage: int)
  {
    !(ticketPage <= 1)
  }

  predicate NextEnabled(ticketPage: int, totalTicketPages: int)
  {
    !(ticketPage >= totalTicketPages)
  }

  /**
   * Starting from a page in [1, total], any click the table allows leaves
   * the page in [1, total].
   */
  method ClickKeepsPageInRange(c: TableControls, totalTicketPages: int, prev: bool)
    requires c.Valid() && c.ticketPage <= totalTicketPages
    requires if prev then PrevEnabled(c.ticketPage) else NextEnabled(c.ticketPage, totalTicketPages)
    modifies c
    ensures c.Valid() && c.ticketPage <= totalTicketPages
  {
    if prev {
      c.OnPrev();
    } else {
      c.OnNext(totalTicketPages);
    }
  }

  /** The status badge and the action cell of a row. */
  datatype RowView = RowView(badge: string, closeWithParts: bool)

  /** How one ticket row renders its status and action. */
  function RowOf(t: Ticket): RowView
  {
    if t.status == "open" then RowView("Open", true) else RowView("Closed", false)
  }

  /** The rows of the table, one per ticket given. */
  function Rows(tickets: seq<Ticket>): (r: seq<RowView>)
    ensures |r| == |tickets|
  {
    seq(|tickets|, i requires 0 <= i < |tickets| => RowOf(tickets[i]))
  }

  /**
   * "Close with Parts" is offered exactly for the tickets whose status is
   * "open", and any other status (not only "closed") shows the Closed badge.
   */
  lemma CloseOfferedOnlyWhenOpen(tickets: seq<Ticket>)
    ensures forall i :: 0 <= i < |tickets| ==> (Rows(tickets)[i].closeWithParts <==> tickets[i].status == "open")
    ensures forall i :: 0 <= i < |tickets| ==> (Rows(tickets)[i].badge == "Open" <==> Rows(tickets)[i].closeWithParts)
  {
  }
}
