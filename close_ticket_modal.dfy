/**
 * The modal that closes a ticket: the list of part rows the engineer
 * edits (append, remove by position, set one field of one row), the
 * engineer choices restricted to the ticket's station, and the guard that
 * renders nothing while the modal is closed.
 *
 * The rows are objects: `updatePartRow` copies the array but assigns into
 * the row object itself, so the list the parent still holds sees the
 * change as well.
 */
module CloseTicketModal {
  import opened Wrappers
  import opened Seqs
  import opened Records

  /** A quantity is the number 1 a new row starts with, or the text the number input reports. */
  datatype Quantity = Count(n: int) | Typed(text: string)

  /** The two fields the row controls edit. */
  datatype RowField = PartIdField | QuantityField

  /** One `{ part_id, quantity }` row object. */
  class PartRow {
    var partId: string
    var quantity: Quantity

    constructor(partId: string, quantity: Quantity)
      ensures this.partId == partId && this.quantity == quantity
    {
      this.partId := partId;
      this.quantity := quantity;
    }
  }

  /** `addPartRow`: a new array with one fresh blank row at the end. */
  method AddPartRow(partsUsed: seq<PartRow>) returns (updated: seq<PartRow>)
    ensures |updated| == |partsUsed| + 1
    ensures updated[..|partsUsed|] == partsUsed
    ensures fresh(updated[|partsUsed|])
    ensures updated[|partsUsed|].partId == "" && updated[|partsUsed|].quantity == Count(1)
  {
    var row := new PartRow("", Count(1));
    updated := partsUsed + [row];
  }

  /** `s.filter((_, i) => i !== index)` */
  function RemoveAt<T>(s: seq<T>, index: int): (r: seq<T>)
    ensures 0 <= index < |s| ==> r == s[..index] + s[index + 1..]
    ensures index < 0 || |s| <= index ==> r == s
    decreases |s|
  {
    if s == [] then []
    else (if index == 0 then [] else [s[0]]) + RemoveAt(s[1..], index - 1)
  }

  /** The remove control is shown only from the second row on. */
  predicate RemoveOffered(index: int)
  {
    index > 0
  }

  /**
   * Removing through an offered control drops exactly one row, never the
   * first, and keeps the others in order.
   */
  lemma RemoveKeepsFirstRow<T>(s: seq<T>, index: int)
    requires RemoveOffered(index) && index < |s|
    ensures |RemoveAt(s, index)| == |s| - 1
    ensures RemoveAt(s, index)[0] == s[0]
    ensures forall k :: 0 <= k < |s| - 1 ==> RemoveAt(s, index)[k] == (if k < index then s[k] else s[k + 1])
  {
  }

  /**
   * `updatePartRow`: the copied array holds the same row objects, the one
   * at `index` gets the new value in the chosen field, and every other row
   * object keeps its values. Since the row object is shared, the caller's
   * array shows the change too.
   */
  method UpdatePartRow(partsUsed: seq<PartRow>, index: nat, field: RowField, value: string)
    returns (updated: seq<PartRow>)
    requires index < |partsUsed|
    modifies partsUsed[index]
    ensures updated == partsUsed
    ensures field == PartIdField ==> updated[index].partId == value && updated[index].quantity == old(partsUsed[index].quantity)
    ensures field == QuantityField ==> updated[index].quantity == Typed(value) && updated[index].partId == old(partsUsed[index].partId)
    ensures forall k :: 0 <= k < |updated| && updated[k] != updated[index] ==>
              updated[k].partId == old(updated[k].partId) && updated[k].quantity == old(updated[k].quantity)
  {
    updated := partsUsed;
    match field {
      case PartIdField => updated[index].partId := value;
      case QuantityField => updated[index].quantity := Typed(value);
    }
  }

  /** `engineers.filter(eng => ticket && eng.station_id === ticket.station_id)` */
  function EngineerOptions(engineers: seq<Engineer>, ticket: Ticket): seq<Engineer>
  {
    Filter(engineers, (e: Engineer) => e.stationId == ticket.stationId)
  }

  /**
   * The engineer choices are the engineers of the ticket's station, in
   * list order; when the ticket has no station, the engineers with none.
   */
  lemma EngineerOptionsOfStation(engineers: seq<Engineer>, ticket: Ticket)
    ensures SubseqOf(EngineerOptions(engineers, ticket), engineers)
    ensures forall e :: e in EngineerOptions(engineers, ticket) <==> e in engineers && e.stationId == ticket.stationId
  {
  }

  /** What the modal shows: the engineer choices and, per part row, whether it has a remove control. */
  datatype ModalView = ModalView(engineerOptions: seq<Engineer>, removeControls: seq<bool>)

  /** The component's output; nothing while closed or without a ticket. */
  function Render(open: bool, ticket: Option<Ticket>, engineers: seq<Engineer>, rowCount: nat): (r: Option<ModalView>)
    ensures r.None? <==> !open || ticket.None?
    ensures r.Some? ==> r.value.engineerOptions == EngineerOptions(engineers, ticket.value)
    ensures r.Some? ==> forall e :: e in r.value.engineerOptions <==> e in engineers && e.stationId == ticket.value.stationId
    ensures r.Some? ==> |r.value.removeControls| == rowCount
                        && forall i :: 0 <= i < rowCount ==> (r.value.removeControls[i] <==> i > 0)
  {
    if !open || ticket.None? then None
    else Some(ModalView(EngineerOptions(engineers, ticket.value), seq(rowCount, i requires 0 <= i < rowCount => RemoveOffered(i))))
  }
}
