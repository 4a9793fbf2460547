/**
 * The submit-ticket serverless function. A request passes through a fixed
 * cascade: a CORS preflight is answered at once; any method but POST gets
 * 405; a body that is not multipart gets 400; a missing bike number or
 * issue gets 400; then an attached image is uploaded, the bike's station is
 * looked up (any failure there only leaves the station empty), and an
 * "open" ticket is inserted. A failed upload or insert gives 500.
 *
 * The back end's answers (upload, lookup, insert) and the clock are
 * parameters; the function's outputs are the response, the name an image
 * upload was attempted under, and the row an insert was attempted with.
 */
module SubmitTicket {
  import opened Wrappers
  import opened Text
  import opened Records
  import TicketForm

  /** The headers a response carries. */
  datatype Headers = Headers(
    allowOrigin: string,
    allowMethods: Option<string>,
    allowHeaders: Option<string>,
    contentType: Option<string>)

  /** The body of a response: the plain "ok" of the preflight, or a JSON object. */
  datatype Body = PlainOk | ErrorJson(error: string) | SuccessJson(success: bool, message: string)

  datatype Response = Response(status: int, body: Body, headers: Headers)

  /** What `req.body.formData()` gives: the parsed form, or the message of the error it throws on a malformed body. */
  datatype FormBody = Parsed(form: FormData) | Unparsable(message: string)

  /** The incoming request: its method, its `content-type` header if any, and its body. */
  datatype Request = Request(verb: string, contentType: Option<string>, body: FormBody)

  /** The row of `bikes` the station lookup returns. */
  datatype BikeRow = BikeRow(stationId: Option<string>)

  /** What the station lookup gave: at most one row and maybe an error, or an exception. */
  datatype Lookup = Lookup(bike: Option<BikeRow>, error: Option<string>) | LookupThrew(message: string)

  /** The row handed to the `tickets` insert. */
  datatype TicketRow = TicketRow(
    bikeNumberText: string,
    issueDescription: string,
    location: string,
    contact: string,
    imagePath: Option<string>,
    reportedAt: string,
    status: string,
    stationId: Option<string>)

  const PREFLIGHT := Response(200, PlainOk, Headers("*", Some("POST, OPTIONS"), Some("Content-Type, Authorization"), None))

  /** The 405 and 400 answers carry only the CORS header. */
  function Rejection(status: int, error: string): Response
  {
    Response(status, ErrorJson(error), Headers("*", None, None, None))
  }

  /** The catch-all answer: `err?.message || "Internal Server Error"`. */
  function ServerError(message: string): (r: Response)
    ensures r.status == 500 && r.body.ErrorJson? && r.body.error != ""
    ensures message != "" ==> r.body.error == message
    ensures message == "" ==> r.body.error == "Internal Server Error"
  {
    Response(500, ErrorJson(if message != "" then message else "Internal Server Error"), Headers("*", None, None, Some("application/json")))
  }

  const CREATED := Response(200, SuccessJson(true, "Ticket created successfully"), Headers("*", None, None, Some("application/json")))

  /** `formData.get(name)?.toString() ?? ""`: a missing entry is "", a file entry prints as an object. */
  function FieldText(form: FormData, name: string): string
  {
    if name !in form then ""
    else match form[name]
      case TextValue(t) => t
      case FileValue(_) => "[object File]"
  }

  /** `if (image)`: a file entry is always truthy, a text entry only when it is not empty. */
  predicate HasImage(form: FormData)
  {
    "image" in form && (form["image"].FileValue? || form["image"].text != "")
  }

  /** `${Date.now()}_${image.name}`; a text entry has no `name`, which prints as "undefined". */
  function UploadName(nowMs: int, entry: FormValue): string
  {
    IntToString(nowMs) + "_" + (if entry.FileValue? then entry.file.name else "undefined")
  }

  predicate IsMultipart(req: Request)
  {
    Contains(req.contentType.UnwrapOr(""), "multipart/form-data")
  }

  /** A POST with a multipart body that parses and has a non-empty bike number and issue: what reaches the upload step. */
  predicate Accepted(req: Request)
  {
    && req.verb == "POST"
    && IsMultipart(req)
    && req.body.Parsed?
    && FieldText(req.body.form, "bike_number_text") != ""
    && FieldText(req.body.form, "issue_description") != ""
  }

  /** The station the insert records: the found bike's, and none when no row came back or the lookup threw. */
  function StationOf(lookup: Lookup): Option<string>
  {
    match lookup
    case Lookup(bike, _) => if bike.Some? then bike.value.stationId else None
    case LookupThrew(_) => None
  }

  /**
   * The request handler. The contract states the whole cascade: which
   * answer each kind of request gets (a multipart body that does not parse
   * throws, and the catch answers 500 with the error's message), that nothing is uploaded or inserted
   * before a request is accepted, that the inserted ticket is "open", holds
   * the form's fields, the upload's name as its image path (none without an
   * image) and the looked-up station (none on any lookup failure), and that
   * every answer allows any origin.
   */
  method HandleRequest(req: Request, nowMs: int, nowIso: string, uploadError: Option<string>, lookup: Lookup, insertError: Option<string>)
    returns (resp: Response, uploadedAs: Option<string>, inserted: Option<TicketRow>)
    ensures resp.headers.allowOrigin == "*"
    ensures req.verb == "OPTIONS" ==> resp == PREFLIGHT
    ensures req.verb != "OPTIONS" && req.verb != "POST" ==> resp == Rejection(405, "Method not allowed")
    ensures req.verb == "POST" && !IsMultipart(req) ==> resp == Rejection(400, "Expected multipart/form-data")
    ensures req.verb == "POST" && IsMultipart(req) && req.body.Unparsable? ==> resp == ServerError(req.body.message)
    ensures req.verb == "POST" && IsMultipart(req) && req.body.Parsed? && !Accepted(req) ==>
              resp == Rejection(400, "Bike number and issue description are required")
    ensures !Accepted(req) ==> uploadedAs.None? && inserted.None?
    ensures Accepted(req) ==> resp.status == 200 || resp.status == 500
    ensures uploadedAs.Some? <==> Accepted(req) && HasImage(req.body.form) && req.body.form["image"].FileValue?
    ensures uploadedAs.Some? ==> uploadedAs.value == UploadName(nowMs, req.body.form["image"])
    ensures Accepted(req) && HasImage(req.body.form) && req.body.form["image"].TextValue? ==>
              resp == ServerError("image.arrayBuffer is not a function") && inserted.None?
    ensures uploadedAs.Some? && uploadError.Some? ==> resp == ServerError(uploadError.value) && inserted.None?
    ensures inserted.Some? <==> Accepted(req) && (HasImage(req.body.form) ==> uploadedAs.Some? && uploadError.None?)
    ensures inserted.Some? ==> inserted.value == TicketRow(
              FieldText(req.body.form, "bike_number_text"), FieldText(req.body.form, "issue_description"),
              FieldText(req.body.form, "location"), FieldText(req.body.form, "contact"),
              uploadedAs, nowIso, "open", StationOf(lookup))
    ensures inserted.Some? && insertError.Some? ==> resp == ServerError(insertError.value)
    ensures resp.body.SuccessJson? <==> inserted.Some? && insertError.None?
    ensures resp.body.SuccessJson? ==> resp == CREATED
  {
    uploadedAs := None;
    inserted := None;
    if req.verb == "OPTIONS" {
      resp := PREFLIGHT;
      return;
    }
    if req.verb != "POST" {
      resp := Rejection(405, "Method not allowed");
      return;
    }
    var contentType := req.contentType.UnwrapOr("");
    if !Contains(contentType, "multipart/form-data") {
      resp := Rejection(400, "Expected multipart/form-data");
      return;
    }
    if req.body.Unparsable? {
      resp := ServerError(req.body.message);
      return;
    }
    var form := req.body.form;
    var bikeNumberText := FieldText(form, "bike_number_text");
    var issueDescription := FieldText(form, "issue_description");
    var location := FieldText(form, "location");
    var contact := FieldText(form, "contact");
    if bikeNumberText == "" || issueDescription == "" {
      resp := Rejection(400, "Bike number and issue description are required");
      return;
    }

    var imagePath: Option<string> := None;
    if HasImage(form) {
      var image := form["image"];
      var fileName := UploadName(nowMs, image);
      if image.TextValue? {
        resp := ServerError("image.arrayBuffer is not a function");
        return;
      }
      uploadedAs := Some(fileName);
      if uploadError.Some? {
        resp := ServerError(uploadError.value);
        return;
      }
      imagePath := Some(fileName);
    }

    var stationId: Option<string> := None;
    match lookup {
      case Lookup(bike, _) =>
        if bike.Some? {
          stationId := bike.value.stationId;
        }
      case LookupThrew(_) =>
    }

    inserted := Some(TicketRow(bikeNumberText, issueDescription, location, contact, imagePath, nowIso, "open", stationId));
    if insertError.Some? {
      resp := ServerError(insertError.value);
      return;
    }
    resp := CREATED;
  }

  /** The stored image name starts with the upload time: `parseInt` reads the timestamp back from it. */
  lemma UploadNameKeepsTime(nowMs: int, entry: FormValue)
    ensures ParseInt(UploadName(nowMs, entry)) == Some(nowMs)
  {
    var rest := "_" + (if entry.FileValue? then entry.file.name else "undefined");
    ParseIntRoundTrip(nowMs, rest);
    assert UploadName(nowMs, entry) == IntToString(nowMs) + rest;
  }

  /** The request the ticket form sends for a submission. */
  function FormRequest(s: TicketForm.Submission): Request
  {
    Request("POST", Some("multipart/form-data; boundary=----form"), Parsed(TicketForm.FormDataOf(s)))
  }

  /**
   * The form and the function agree on the field names: the function reads
   * back exactly the fields the form sent, sees an image exactly when one was
   * attached, and accepts every submission whose bike number is not empty
   * (the form already guarantees a non-empty issue).
   */
  lemma FormRequestRoundTrip(s: TicketForm.Submission)
    ensures FieldText(FormRequest(s).body.form, "bike_number_text") == s.bikeNumberText
    ensures FieldText(FormRequest(s).body.form, "issue_description") == s.issueDescription
    ensures FieldText(FormRequest(s).body.form, "location") == s.location
    ensures FieldText(FormRequest(s).body.form, "contact") == s.contact
    ensures HasImage(FormRequest(s).body.form) <==> s.image.Some?
    ensures s.image.Some? ==> FormRequest(s).body.form["image"] == FileValue(s.image.value)
    ensures Accepted(FormRequest(s)) <==> s.bikeNumberText != "" && s.issueDescription != ""
  {
    ContainsMiddle("", "multipart/form-data", "; boundary=----form");
    assert "" + "multipart/form-data" + "; boundary=----form" == "multipart/form-data; boundary=----form";
  }
}
