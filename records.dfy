/**
 * The rows the pages fetch from the `tickets`, `walkins` and `engineers`
 * tables, and the JavaScript conventions the pages apply to their nullable
 * columns: truthiness (`null` and `""` are false), `x || 0` defaults, and
 * `new Date(x)` for timestamp columns.
 */
module Records {
  import opened Wrappers

  /**
   * A timestamp column: the ISO text the backend returns (so "was it today"
   * is a prefix test against a "YYYY-MM-DD" string) and the instant, in
   * milliseconds since the epoch, that `new Date(text)` denotes.
   */
  datatype Stamp = Stamp(text: string, ms: int)

  /** JavaScript truthiness of a nullable text column. */
  predicate Truthy(o: Option<string>)
  {
    o.Some? && o.value != ""
  }

  /** JavaScript truthiness of a nullable timestamp column. */
  predicate StampTruthy(o: Option<Stamp>)
  {
    o.Some? && o.value.text != ""
  }

  /** `x?.startsWith(prefix)`: a missing value never starts with anything. */
  predicate StartsWith(o: Option<Stamp>, prefix: string)
  {
    o.Some? && prefix <= o.value.text
  }

  /** `new Date(x)` as a number: `null` gives the epoch. */
  function Instant(o: Option<Stamp>): int
  {
    if o.Some? then o.value.ms else 0
  }

  /** `x || 0` on a nullable numeric column (a stored 0 also gives 0). */
  function OrZero(o: Option<real>): real
  {
    if o.Some? then o.value else 0.0
  }

  /** `x || 0` on a nullable integer column. */
  function OrZeroInt(o: Option<int>): int
  {
    if o.Some? then o.value else 0
  }

  /** The property name a value becomes when used as an object key: `null` becomes "null". */
  function JsKey(o: Option<string>): string
  {
    if o.Some? then o.value else "null"
  }

  /** A row of `tickets` as the manager and dashboard pages select it. */
  datatype Ticket = Ticket(
    id: string,
    ticketNo: Option<string>,
    bikeNumberText: Option<string>,
    issueDescription: Option<string>,
    status: string,
    reportedAt: Option<Stamp>,
    closedAt: Option<Stamp>,
    stationId: Option<string>,
    closedBy: Option<string>)

  /** A row of `walkins`. */
  datatype Walkin = Walkin(
    id: string,
    stationId: Option<string>,
    bikeNumberText: Option<string>,
    engineerId: Option<string>,
    modelId: Option<string>,
    issueDescription: Option<string>,
    loggedAt: Option<Stamp>,
    costCharged: Option<real>)

  /** A row of `engineers`. */
  datatype Engineer = Engineer(id: string, name: string, stationId: Option<string>)

  /** A file chosen in a file input: only its name matters here. */
  datatype UploadFile = UploadFile(name: string)

  /** One entry of a multipart form: a text value or a file. */
  datatype FormValue = TextValue(text: string) | FileValue(file: UploadFile)

  /** A multipart form as `formData.get(name)` sees it. */
  type FormData = map<string, FormValue>
}
