/**
 * The transport layer: how a backend response becomes returned data or a raised error,
 * the configured backend address, and the payloads the three calls send.
 */
module Api {
  import opened Wrappers
  import opened JsValue
  import JsText

  /** The backend address used when the environment configures none. */
  const DefaultBase: string := "http://localhost:3001"

  /**
   * `API_BASE`: the environment's backend URL when it is set to a non-empty string,
   * otherwise the localhost default. `env` is `None` when the variable (or `process`) is absent.
   */
  function ApiBase(env: Option<string>): (r: string)
    ensures env.Some? && env.value != "" ==> r == env.value
    ensures env.None? || env.value == "" ==> r == DefaultBase
    ensures r != ""
  {
    if env.Some? && env.value != "" then env.value else DefaultBase
  }

  /**
   * A response as `fetch` delivers it. Reading the body is abstract: `json` is what
   * `res.json()` resolves to (`None` when it rejects) and `text` what `res.text()`
   * resolves to (`None` when it rejects); only one of them is ever read.
   */
  datatype Response = Response(
    ok: bool,
    status: int,
    statusText: string,
    contentType: Option<string>,
    json: Option<Json>,
    text: Option<string>)

  /** The error `handleResponse` raises: its message, the HTTP status and the body data. */
  datatype ApiError = ApiError(message: string, status: int, data: Json)

  /** The content-type header, with a missing header read as the empty string. */
  function ContentType(res: Response): string {
    if res.contentType.Some? then res.contentType.value else ""
  }

  /** The body is decoded as JSON when the content type mentions `application/json`. */
  predicate IsJsonResponse(res: Response)
    ensures IsJsonResponse(res) <==> exists i :: JsText.OccursAt(ContentType(res), "application/json", i)
    ensures IsJsonResponse(res) ==> res.contentType.Some? && |res.contentType.value| >= |"application/json"|
  {
    JsText.Includes(ContentType(res), "application/json")
  }

  /** The `data` that `handleResponse` reads out of the body. */
  function BodyData(res: Response): (data: Json)
    ensures IsJsonResponse(res) && res.json.Some? ==> data == res.json.value
    ensures IsJsonResponse(res) && res.json.None? ==> data == JObj(map[])
    ensures !IsJsonResponse(res) ==>
      data == JObj(map["message" := JStr(if res.text.Some? then res.text.value else "")])
  {
    if IsJsonResponse(res) then
      if res.json.Some? then res.json.value else JObj(map[])
    else
      JObj(map["message" := JStr(if res.text.Some? then res.text.value else "")])
  }

  /**
   * The message of a failed response: the first truthy one of the body's `message`,
   * the body's `error`, the status text and the fixed text "Request failed".
   */
  function MessageValue(data: Json, statusText: string): (m: Json)
    ensures TruthyOpt(Field(data, "message")) ==> Some(m) == Field(data, "message")
    ensures !TruthyOpt(Field(data, "message")) && TruthyOpt(Field(data, "error")) ==>
      Some(m) == Field(data, "error")
    ensures !TruthyOpt(Field(data, "message")) && !TruthyOpt(Field(data, "error")) ==>
      m == JStr(if statusText != "" then statusText else "Request failed")
    ensures Truthy(m)
  {
    Or(Field(data, "message"), Or(Field(data, "error"), Or(Some(JStr(statusText)), JStr("Request failed"))))
  }

  /**
   * `handleResponse`: a successful response returns its data unchanged; any other raises an
   * error that carries the status, the same data, and the prioritised message converted
   * to a string by the `Error` constructor.
   */
  function HandleResponse(res: Response): (r: Result<Json, ApiError>)
    ensures r.Success? <==> res.ok
    ensures r.Success? ==> r.value == BodyData(res)
    ensures r.Failure? ==> r.error.status == res.status && r.error.data == BodyData(res)
    ensures r.Failure? ==> r.error.message == ToJsString(MessageValue(BodyData(res), res.statusText))
  {
    var data := BodyData(res);
    if !res.ok then
      Failure(ApiError(ToJsString(MessageValue(data, res.statusText)), res.status, data))
    else
      Success(data)
  }

  /** A response without a content-type header is read as text, never as JSON. */
  lemma MissingContentTypeIsText(res: Response)
    requires res.contentType.None?
    ensures !IsJsonResponse(res)
    ensures BodyData(res) == JObj(map["message" := JStr(if res.text.Some? then res.text.value else "")])
  {
  }

  /**
   * A failed text response whose body is empty or unreadable skips the empty message:
   * its error message is the status text, or "Request failed" when that is empty too.
   */
  lemma EmptyTextFailureMessage(res: Response)
    requires !res.ok && !IsJsonResponse(res)
    requires res.text.None? || res.text.value == ""
    ensures HandleResponse(res).Failure?
    ensures HandleResponse(res).error.message ==
      if res.statusText != "" then res.statusText else "Request failed"
  {
  }

  /** A failed text response with a non-empty body raises exactly that body as its message. */
  lemma TextFailureMessage(res: Response)
    requires !res.ok && !IsJsonResponse(res)
    requires res.text.Some? && res.text.value != ""
    ensures HandleResponse(res) == Failure(ApiError(res.text.value, res.status, BodyData(res)))
  {
  }

  /** How an awaited backend call ends for a component: a returned value or a raised error's message. */
  datatype Outcome = Returned(value: Json) | Threw(message: string)

  /** The outcome a component sees when a call ends in `handleResponse`. */
  function Settle(r: Result<Json, ApiError>): (o: Outcome)
    ensures o.Returned? <==> r.Success?
    ensures r.Success? ==> o.value == r.value
    ensures r.Failure? ==> o.message == r.error.message
  {
    match r
    case Success(v) => Returned(v)
    case Failure(e) => Threw(e.message)
  }

  /** `e.message || fallback`: the error's message unless it is empty. */
  function MessageOr(m: string, fallback: string): (r: string)
    ensures m != "" ==> r == m
    ensures m == "" ==> r == fallback
  {
    if m != "" then m else fallback
  }

  /** A file the user picked: its name and its size in bytes. */
  datatype File = File(name: string, size: nat)

  /** The value of a multipart form field: the file itself, or `JSON.stringify` of a value. */
  datatype FormValue = FileBlob(file: File) | JsonText(value: Json)

  datatype FormField = FormField(name: string, value: FormValue)

  /**
   * The form `uploadSourceFile` posts: always the `file` field first, then a `metadata`
   * field exactly when the metadata option is truthy.
   */
  function UploadForm(file: File, metadata: Option<Json>): (form: seq<FormField>)
    ensures 1 <= |form| <= 2 && form[0] == FormField("file", FileBlob(file))
    ensures |form| == 2 <==> TruthyOpt(metadata)
    ensures |form| == 2 ==> form[1] == FormField("metadata", JsonText(metadata.value))
  {
    [FormField("file", FileBlob(file))]
      + if TruthyOpt(metadata) then [FormField("metadata", JsonText(metadata.value))] else []
  }

  /** The body `queryRAG` posts: the query text, and the filters unless they are `undefined`. */
  datatype QueryPayload = QueryPayload(query: string, filters: Option<Json>)
}
