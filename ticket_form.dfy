/**
 * The public "Raise a Service Ticket" form. It loads the registry of bike
 * numbers once, normalised (trimmed, upper-cased), and on submit checks, in
 * this order, that the normalised bike number is registered and that the
 * issue is not blank; only then does it post the trimmed fields to the
 * submit-ticket function, report the outcome and, on success, clear the
 * form.
 */
module TicketForm {
  import opened Wrappers
  import opened Text
  import opened Records

  /** `s.trim().toUpperCase()`: how both the registry and the typed bike number are normalised. */
  function Normalize(s: string): string
  {
    ToUpper(Trim(s))
  }

  /** Normalising twice changes nothing, so every registry entry is already in normal form. */
  lemma NormalizeIdempotent(s: string)
    ensures Normalize(Normalize(s)) == Normalize(s)
  {
    TrimToUpper(Trim(s));
    TrimIdempotent(s);
    ToUpperIdempotent(Trim(s));
  }

  /** The cross mark that starts every error message, and the check mark that starts the success message. */
  const CROSS := "\U{274C} "
  const CHECK := "\U{2705} "

  const NOT_REGISTERED := CROSS + "Bike number not registered. Please select a valid bike."
  const ISSUE_REQUIRED := CROSS + "Issue description is required"
  const SUBMITTED := CHECK + "Ticket logged successfully!"
  const FAILED_PREFIX := CROSS + "Failed: "

  /** A row of `bikes` as the form selects it. */
  datatype BikeRow = BikeRow(bikeNumber: string)

  /** `(data || []).map(b => b.bike_number.trim().toUpperCase())` */
  function Registry(data: Option<seq<BikeRow>>): (r: seq<string>)
    ensures |r| == |data.UnwrapOr([])|
  {
    var rows := data.UnwrapOr([]);
    seq(|rows|, i requires 0 <= i < |rows| => Normalize(rows[i].bikeNumber))
  }

  /**
   * Every registry entry is in normal form, so a number picked from the
   * suggestion list, or typed with other spacing around it or other case,
   * passes the registration check.
   */
  lemma RegistryEntriesPass(data: Option<seq<BikeRow>>, i: nat, typed: string)
    requires i < |Registry(data)|
    requires Normalize(typed) == Normalize(data.UnwrapOr([])[i].bikeNumber)
    ensures Normalize(Registry(data)[i]) == Registry(data)[i]
    ensures Normalize(typed) in (set b | b in Registry(data))
  {
    NormalizeIdempotent(data.UnwrapOr([])[i].bikeNumber);
  }

  /** The fields the form posts: the normalised bike, the trimmed texts, and the image if one was chosen. */
  datatype Submission = Submission(
    bikeNumberText: string,
    issueDescription: string,
    location: string,
    contact: string,
    image: Option<UploadFile>)

  /** The `FormData` built from a submission: four text entries, plus `image` only when there is one. */
  function FormDataOf(s: Submission): FormData
  {
    var fields := map[
      "bike_number_text" := TextValue(s.bikeNumberText),
      "issue_description" := TextValue(s.issueDescription),
      "location" := TextValue(s.location),
      "contact" := TextValue(s.contact)];
    if s.image.Some? then fields["image" := FileValue(s.image.value)] else fields
  }

  /**
   * What came back from the post: a response with its `ok` flag and the
   * `error` field of its JSON body, or a rejection (network failure or a
   * body that is not JSON) with the error's message.
   */
  datatype Reply = Response(ok: bool, error: Option<string>) | Rejected(message: string)

  predicate Succeeded(reply: Reply)
  {
    reply.Response? && reply.ok
  }

  /** The message of the error the catch block receives: `result.error || "Failed to submit ticket"`, or the rejection's own. */
  function FailureText(reply: Reply): string
  {
    match reply
    case Response(_, error) => if Truthy(error) then error.value else "Failed to submit ticket"
    case Rejected(message) => message
  }

  /** The message is shown green when it starts with the check mark, red otherwise. */
  function MessageTone(message: string): string
  {
    if "\U{2705}" <= message then "text-green-600" else "text-red-600"
  }

  class TicketForm {
    var bikeNumber: string
    var validBikes: seq<string>
    var bikeSet: set<string>
    var issue: string
    var location: string
    var contact: string
    var image: Option<UploadFile>
    var loading: bool
    var message: string

    /** The set is the list's members, and every registered number is in normal form. */
    ghost predicate Valid()
      reads this`validBikes, this`bikeSet
    {
      && bikeSet == (set b | b in validBikes)
      && forall i :: 0 <= i < |validBikes| ==> Normalize(validBikes[i]) == validBikes[i]
    }

    /** The initial state: every field empty, no bikes loaded. */
    constructor()
      ensures Valid()
      ensures bikeNumber == "" && validBikes == [] && bikeSet == {}
      ensures issue == "" && location == "" && contact == "" && image == None
      ensures !loading && message == ""
    {
      bikeNumber := "";
      validBikes := [];
      bikeSet := {};
      issue := "";
      location := "";
      contact := "";
      image := None;
      loading := false;
      message := "";
    }

    /**
     * `loadBikes`: on an error the registry stays as it was; otherwise it
     * becomes the normalised bike numbers, as a list and as a set.
     */
    method LoadBikes(data: Option<seq<BikeRow>>, error: Option<string>)
      requires Valid()
      modifies this`validBikes, this`bikeSet
      ensures Valid()
      ensures error.Some? ==> validBikes == old(validBikes) && bikeSet == old(bikeSet)
      ensures error.None? ==> validBikes == Registry(data)
      ensures error.None? ==> forall row :: row in data.UnwrapOr([]) ==> Normalize(row.bikeNumber) in bikeSet
      ensures error.None? ==> forall b :: b in bikeSet ==> exists row :: row in data.UnwrapOr([]) && Normalize(row.bikeNumber) == b
    {
      if error.Some? {
        return;
      }
      var bikes := Registry(data);
      forall i | 0 <= i < |bikes|
        ensures Normalize(bikes[i]) == bikes[i]
      {
        NormalizeIdempotent(data.UnwrapOr([])[i].bikeNumber);
      }
      validBikes := bikes;
      bikeSet := set b | b in bikes;
      assert forall row :: row in data.UnwrapOr([]) ==> Normalize(row.bikeNumber) in bikeSet by {
        forall row | row in data.UnwrapOr([]) ensures Normalize(row.bikeNumber) in bikeSet {
          var i :| 0 <= i < |data.UnwrapOr([])| && data.UnwrapOr([])[i] == row;
          assert bikes[i] == Normalize(row.bikeNumber);
        }
      }
    }

    /** The try/catch around the post: the outcome's message, and on success every input cleared. */
    method Report(reply: Reply)
      modifies this`bikeNumber, this`issue, this`location, this`contact, this`image, this`message
      ensures Succeeded(reply) ==> message == SUBMITTED
      ensures Succeeded(reply) ==> bikeNumber == "" && issue == "" && location == "" && contact == "" && image == None
      ensures !Succeeded(reply) ==> message == FAILED_PREFIX + FailureText(reply)
      ensures !Succeeded(reply) ==> unchanged(this`bikeNumber, this`issue, this`location, this`contact, this`image)
      ensures MessageTone(message) == "text-green-600" <==> Succeeded(reply)
    {
      if Succeeded(reply) {
        message := SUBMITTED;
        bikeNumber := "";
        issue := "";
        location := "";
        contact := "";
        image := None;
      } else {
        message := FAILED_PREFIX + FailureText(reply);
        assert message[0] == '\U{274C}';
      }
    }

    /**
     * `handleSubmit`. Nothing is posted unless the normalised bike number is
     * registered and the trimmed issue is not empty, checked in that order;
     * what is posted is the normalised and trimmed fields with the chosen
     * image; afterwards `loading` is off, the message is green exactly on
     * success, and only a success clears the inputs.
     */
    method HandleSubmit(reply: Reply) returns (sent: Option<Submission>)
      requires Valid()
      modifies this`bikeNumber, this`issue, this`location, this`contact, this`image, this`loading, this`message
      ensures Valid()
      ensures sent.Some? ==> !loading
      ensures sent.None? ==> loading == old(loading)
      ensures Normalize(old(bikeNumber)) !in bikeSet ==> message == NOT_REGISTERED
      ensures Normalize(old(bikeNumber)) in bikeSet && Trim(old(issue)) == "" ==> message == ISSUE_REQUIRED
      ensures sent.Some? <==> Normalize(old(bikeNumber)) in bikeSet && Trim(old(issue)) != ""
      ensures sent.Some? ==> sent.value == Submission(Normalize(old(bikeNumber)), Trim(old(issue)), Trim(old(location)), Trim(old(contact)), old(image))
      ensures sent.Some? ==> sent.value.bikeNumberText in validBikes && sent.value.issueDescription != ""
      ensures sent.Some? && !Succeeded(reply) ==> message == FAILED_PREFIX + FailureText(reply)
      ensures sent.Some? && Succeeded(reply) ==> message == SUBMITTED
      ensures MessageTone(message) == "text-green-600" <==> sent.Some? && Succeeded(reply)
      ensures sent.Some? && Succeeded(reply) ==> bikeNumber == "" && issue == "" && location == "" && contact == "" && image == None
      ensures sent.None? || !Succeeded(reply) ==> unchanged(this`bikeNumber, this`issue, this`location, this`contact, this`image)
    {
      message := "";
      var normalizedBike := Normalize(bikeNumber);
      if normalizedBike !in bikeSet {
        message := NOT_REGISTERED;
        assert message[0] == '\U{274C}';
        sent := None;
        return;
      }
      if Trim(issue) == "" {
        message := ISSUE_REQUIRED;
        assert message[0] == '\U{274C}' && |message| != |NOT_REGISTERED|;
        sent := None;
        return;
      }
      loading := true;
      sent := Some(Submission(normalizedBike, Trim(issue), Trim(location), Trim(contact), image));
      Report(reply);
      loading := false;
    }
  }
}
