/**
 * The submission-tracking serverless function (`netlify/functions/track.js`):
 * one handler that answers a CORS preflight, looks a submission up by its
 * confirmation number on POST, and refuses every other method.
 *
 * The handler is a pure function of the event and of the Airtable lookup,
 * which is passed in as a function from the query the handler issues to what
 * the client library returns for it.
 */
module Track {
  import opened JsValues
  import opened Airtable

  // ---------------------------------------------------------------------------
  // Requests and responses

  /** `JSON.parse(event.body)`: the value it returns or the message it throws. */
  datatype ParsedBody = Malformed(message: string) | Parsed(data: Json)

  /** The part of the Netlify event the handler reads. */
  datatype Event = Event(httpMethod: string, body: ParsedBody)

  /** The projection of a found record returned to the caller. */
  datatype SubmissionView = SubmissionView(
    confirmationNumber: Option<Json>,
    status: Json,
    designStyle: Option<Json>,
    submittedDate: Option<Json>,
    reviewDate: Option<Json>,
    reviewNotes: Option<Json>)

  /**
   * The response body before `JSON.stringify`: the empty string of the
   * preflight, the `success: true` object, or a `success: false` object with
   * its `error` and, on some branches, a `message` or `details` string.
   */
  datatype Payload =
    | Empty
    | Found(submission: SubmissionView)
    | Failure(error: string, message: Option<string>, details: Option<string>)

  datatype Response = Response(statusCode: int, headers: map<string, string>, body: Payload)

  /** The `success` member of the body; the preflight body has none. */
  function Success(p: Payload): Option<bool>
  {
    match p
    case Empty => None
    case Found(_) => Some(true)
    case Failure(_, _, _) => Some(false)
  }

  /** The query sent to Airtable: the table, the formula's key and the `maxRecords` cap. */
  datatype Query = Query(table: string, confirmationNumber: Json, maxRecords: nat)

  const MaxRecords: nat := 1

  // ---------------------------------------------------------------------------
  // Constants of the handler

  const CorsHeaders: map<string, string> := map[
    "Access-Control-Allow-Origin" := "*",
    "Access-Control-Allow-Headers" := "Content-Type",
    "Access-Control-Allow-Methods" := "POST, OPTIONS",
    "Content-Type" := "application/json"
  ]

  const RequiredError: string := "Confirmation number is required"
  const NotFoundError: string := "Submission not found"
  const NotFoundMessage: string := "No submission found with this confirmation number"
  const TrackError: string := "Failed to track submission"
  const MethodError: string := "Method not allowed"
  const PendingStatus: string := "pending"

  /** The message of the TypeError Node.js throws when `${confirmationNumber}` cannot convert the value. */
  const ConvertMessage: string := "Cannot convert object to primitive value"

  /** The message of the TypeError Node.js throws for `null.confirmationNumber`. */
  const NullReadMessage: string := "Cannot read properties of null (reading 'confirmationNumber')"

  // ---------------------------------------------------------------------------
  // The handler

  /** `data.confirmationNumber`: reading a property of `null` throws. */
  function ReadConfirmationNumber(data: Json): (r: Read)
    ensures r.Threw? <==> data == JNull
    ensures data.JObj? ==> r == Value(Get(data.props, "confirmationNumber"))
    ensures !data.JObj? && data != JNull ==> r == Value(None)
  {
    match data
    case JNull => Threw(NullReadMessage)
    case JObj(props) => Value(Get(props, "confirmationNumber"))
    case _ => Value(None)
  }

  /** The outcome of a property read: its value, or the message of the error it throws. */
  datatype Read = Value(v: Option<Json>) | Threw(message: string)

  /** The body of the 500 response built in the `catch` block. */
  function ServerError(message: string): Response
  {
    Response(500, CorsHeaders, Failure(TrackError, None, Some(message)))
  }

  /** The fields copied from the first record, with `Status || "pending"`. */
  function Project(r: Record): (v: SubmissionView)
    ensures v.confirmationNumber == Field(r, "ConfirmationNumber")
    ensures v.designStyle == Field(r, "DesignStyle")
    ensures v.submittedDate == Field(r, "SubmittedDate")
    ensures v.reviewDate == Field(r, "ReviewDate")
    ensures v.reviewNotes == Field(r, "ReviewNotes")
    ensures Truthy(Field(r, "Status")) ==> Some(v.status) == Field(r, "Status")
    ensures !Truthy(Field(r, "Status")) ==> v.status == JStr(PendingStatus)
  {
    SubmissionView(
      Field(r, "ConfirmationNumber"),
      OrElse(Field(r, "Status"), JStr(PendingStatus)),
      Field(r, "DesignStyle"),
      Field(r, "SubmittedDate"),
      Field(r, "ReviewDate"),
      Field(r, "ReviewNotes"))
  }

  /** The POST branch, everything inside the `try`/`catch`. */
  function HandlePost(body: ParsedBody, lookup: Query -> Lookup): Response
  {
    match body
    case Malformed(msg) => ServerError(msg)
    case Parsed(data) =>
      match ReadConfirmationNumber(data)
      case Threw(msg) => ServerError(msg)
      case Value(cn) =>
        if !Truthy(cn) then
          Response(400, CorsHeaders, Failure(RequiredError, None, None))
        else if ToStringThrows(cn.value) then
          // building the formula string throws before any query is sent
          ServerError(ConvertMessage)
        else
          match lookup(Query(SubmissionsTable, cn.value, MaxRecords))
          case LookupFailed(msg) => ServerError(msg)
          case Records(records) =>
            if |records| == 0 then
              Response(404, CorsHeaders, Failure(NotFoundError, Some(NotFoundMessage), None))
            else
              Response(200, CorsHeaders, Found(Project(records[0])))
  }

  /** `exports.handler`. */
  function Handle(ev: Event, lookup: Query -> Lookup): (r: Response)
    ensures r.headers == CorsHeaders
    ensures r.statusCode in {200, 400, 404, 405, 500}
    ensures r.body == Empty <==> ev.httpMethod == "OPTIONS"
    ensures r.body.Found? <==> r.statusCode == 200 && ev.httpMethod != "OPTIONS"
    ensures Success(r.body) == Some(false) <==> r.statusCode != 200
  {
    if ev.httpMethod == "OPTIONS" then
      Response(200, CorsHeaders, Empty)
    else if ev.httpMethod == "POST" then
      HandlePost(ev.body, lookup)
    else
      Response(405, CorsHeaders, Failure(MethodError, None, None))
  }

  /** The query the handler sends to Airtable for this event, if it sends one. */
  function QueryOf(ev: Event): (q: Option<Query>)
    ensures q.Some?
            <==> && ev.httpMethod == "POST" && ev.body.Parsed? && ev.body.data.JObj?
                 && Truthy(Get(ev.body.data.props, "confirmationNumber"))
                 && !ToStringThrows(Get(ev.body.data.props, "confirmationNumber").value)
    ensures q.Some? && ev.body.Parsed? && ev.body.data.JObj?
            ==> && Some(q.value.confirmationNumber) == Get(ev.body.data.props, "confirmationNumber")
                && q.value.table == SubmissionsTable
                && q.value.maxRecords == MaxRecords
  {
    if ev.httpMethod != "POST" then None
    else match ev.body
      case Malformed(_) => None
      case Parsed(data) =>
        match ReadConfirmationNumber(data)
        case Threw(_) => None
        case Value(cn) =>
          if Truthy(cn) && !ToStringThrows(cn.value) then Some(Query(SubmissionsTable, cn.value, MaxRecords)) else None
  }

  // ---------------------------------------------------------------------------
  // The module-level `submissions` cell

  /** The module's mutable state: the `submissions` variable, initially `[]`. */
  datatype TrackModule = TrackModule(submissions: Json)

  const InitialModule: TrackModule := TrackModule(JArr([]))

  /** `exports.setSubmissions(subs)`. */
  function SetSubmissions(m: TrackModule, subs: Json): (m': TrackModule)
    ensures GetSubmissions(m') == subs
  {
    m.(submissions := subs)
  }

  /** `exports.getSubmissions()`. */
  function GetSubmissions(m: TrackModule): Json
  {
    m.submissions
  }

  /** `exports.handler` invoked on a module instance in state `m`. */
  function Invoke(m: TrackModule, ev: Event, lookup: Query -> Lookup): Response
  {
    Handle(ev, lookup)
  }
}

/**
 * What the tracking handler promises its callers, outcome by outcome. Each
 * status code is characterised in both directions, so together the lemmas
 * below describe the whole dispatch rule.
 */
module TrackProperties {
  import opened JsValues
  import opened Airtable
  import opened Track

  /** The confirmation number the POST branch reads, when reading it does not throw. */
  predicate ReadsFalsyNumber(ev: Event)
  {
    && ev.body.Parsed?
    && ev.body.data != JNull
    && !Truthy(ReadConfirmationNumber(ev.body.data).v)
  }

  /** A truthy confirmation number whose conversion to the formula string throws. */
  predicate ThrowsOnInterpolation(ev: Event)
  {
    && ev.body.Parsed?
    && ev.body.data.JObj?
    && Truthy(Get(ev.body.data.props, "confirmationNumber"))
    && ToStringThrows(Get(ev.body.data.props, "confirmationNumber").value)
  }

  /** A preflight succeeds with an empty body whatever the body and the store hold. */
  lemma PreflightAlwaysSucceeds(ev: Event, lookup: Query -> Lookup)
    requires ev.httpMethod == "OPTIONS"
    ensures Handle(ev, lookup) == Response(200, CorsHeaders, Empty)
    ensures QueryOf(ev) == None
  {
  }

  /** 405 is returned exactly for the methods other than OPTIONS and POST. */
  lemma MethodNotAllowedIff(ev: Event, lookup: Query -> Lookup)
    ensures Handle(ev, lookup).statusCode == 405
            <==> ev.httpMethod != "OPTIONS" && ev.httpMethod != "POST"
    ensures Handle(ev, lookup).statusCode == 405
            ==> Handle(ev, lookup).body == Failure(MethodError, None, None)
  {
  }

  /** 400 is returned exactly for a POST whose parsed body lacks a truthy number; no query is sent. */
  lemma BadRequestIff(ev: Event, lookup: Query -> Lookup)
    ensures Handle(ev, lookup).statusCode == 400
            <==> ev.httpMethod == "POST" && ReadsFalsyNumber(ev)
    ensures Handle(ev, lookup).statusCode == 400
            ==> Handle(ev, lookup).body == Failure(RequiredError, None, None) && QueryOf(ev) == None
  {
  }

  /** 404 is returned exactly when the query finds no record. */
  lemma NotFoundIff(ev: Event, lookup: Query -> Lookup)
    ensures Handle(ev, lookup).statusCode == 404
            <==> QueryOf(ev).Some? && lookup(QueryOf(ev).value) == Records([])
    ensures Handle(ev, lookup).statusCode == 404
            ==> Handle(ev, lookup).body == Failure(NotFoundError, Some(NotFoundMessage), None)
  {
  }

  /**
   * A query that finds records answers 200 with the first record's fields
   * copied unchanged and its status defaulted to "pending".
   */
  lemma FoundUsesFirstRecord(ev: Event, lookup: Query -> Lookup, q: Query, records: seq<Record>)
    requires QueryOf(ev) == Some(q) && lookup(q) == Records(records) && |records| > 0
    ensures Handle(ev, lookup).statusCode == 200
    ensures Success(Handle(ev, lookup).body) == Some(true)
    ensures Handle(ev, lookup).body == Found(Project(records[0]))
    ensures var v := Handle(ev, lookup).body.submission;
            && v.confirmationNumber == Field(records[0], "ConfirmationNumber")
            && v.designStyle == Field(records[0], "DesignStyle")
            && v.submittedDate == Field(records[0], "SubmittedDate")
            && v.reviewDate == Field(records[0], "ReviewDate")
            && v.reviewNotes == Field(records[0], "ReviewNotes")
            && v.status == (if Truthy(Field(records[0], "Status")) then Field(records[0], "Status").value
                            else JStr(PendingStatus))
  {
  }

  /** 200 with a submission is returned exactly when the query finds a record. */
  lemma FoundIff(ev: Event, lookup: Query -> Lookup)
    ensures Handle(ev, lookup).body.Found?
            <==> QueryOf(ev).Some? && lookup(QueryOf(ev).value).Records?
                 && |lookup(QueryOf(ev).value).records| > 0
  {
  }

  /**
   * 500 is returned exactly for a POST whose body does not parse, whose body is
   * `null`, whose confirmation number cannot be put into the formula string,
   * or whose query fails; the thrown message becomes `details`.
   */
  lemma ServerErrorIff(ev: Event, lookup: Query -> Lookup)
    ensures Handle(ev, lookup).statusCode == 500
            <==> ev.httpMethod == "POST"
                 && (|| ev.body.Malformed?
                     || ev.body.data == JNull
                     || ThrowsOnInterpolation(ev)
                     || (QueryOf(ev).Some? && lookup(QueryOf(ev).value).LookupFailed?))
    ensures ev.httpMethod == "POST" && ThrowsOnInterpolation(ev)
            ==> && Handle(ev, lookup) == Response(500, CorsHeaders, Failure(TrackError, None, Some(ConvertMessage)))
                && QueryOf(ev).None?
    ensures ev.httpMethod == "POST" && ev.body.Malformed?
            ==> Handle(ev, lookup) == Response(500, CorsHeaders, Failure(TrackError, None, Some(ev.body.message)))
    ensures ev.httpMethod == "POST" && ev.body.Parsed? && ev.body.data == JNull
            ==> && Handle(ev, lookup) == Response(500, CorsHeaders, Failure(TrackError, None, Some(NullReadMessage)))
                && QueryOf(ev).None?
    ensures QueryOf(ev).Some? && lookup(QueryOf(ev).value).LookupFailed?
            ==> Handle(ev, lookup).body
                == Failure(TrackError, None, Some(lookup(QueryOf(ev).value).message))
  {
  }

  /**
   * A number that is an object with its own `toString` member passes the
   * 400 check but makes the formula string throw: 500, and no query is sent.
   */
  lemma ObjectNumberAnswersServerError(lookup: Query -> Lookup)
    ensures
      var ev := Event("POST", Parsed(JObj(map["confirmationNumber" := JObj(map["toString" := JNum(1.0)])])));
      && QueryOf(ev).None?
      && Handle(ev, lookup) == Response(500, CorsHeaders, Failure(TrackError, None, Some(ConvertMessage)))
  {
  }

  /**
   * The response depends on the store only through the one query the handler
   * sends; when it sends none (preflight, 400, 405, unparsable body), the store
   * is not consulted at all.
   */
  lemma DependsOnlyOnQuery(ev: Event, lookup1: Query -> Lookup, lookup2: Query -> Lookup)
    requires QueryOf(ev).None? || lookup1(QueryOf(ev).value) == lookup2(QueryOf(ev).value)
    ensures Handle(ev, lookup1) == Handle(ev, lookup2)
  {
  }

  /** The handler never reads the `submissions` cell. */
  lemma HandlerIgnoresSubmissions(m1: TrackModule, m2: TrackModule, ev: Event, lookup: Query -> Lookup)
    ensures Invoke(m1, ev, lookup) == Invoke(m2, ev, lookup)
  {
  }

  /** The cell starts as `[]`, and a read returns the value of the latest write. */
  lemma SubmissionsCell(m: TrackModule, a: Json, b: Json)
    ensures GetSubmissions(InitialModule) == JArr([])
    ensures GetSubmissions(SetSubmissions(m, a)) == a
    ensures SetSubmissions(SetSubmissions(m, a), b) == SetSubmissions(m, b)
  {
  }

  /**
   * A worked example: `{"confirmationNumber":"ABC123"}` against a store holding
   * an approved Brutalist row. Absent fields stay `undefined` (and are left
   * out of the serialized body).
   */
  lemma ExampleLookup()
    ensures
      var row := Record("rec1", map["ConfirmationNumber" := JStr("ABC123"),
                                   "Status" := JStr("approved"),
                                   "DesignStyle" := JStr("Brutalist")]);
      var ev := Event("POST", Parsed(JObj(map["confirmationNumber" := JStr("ABC123")])));
      var lookup := (q: Query) => if q == Query("Submissions", JStr("ABC123"), 1) then Records([row]) else Records([]);
      Handle(ev, lookup)
      == Response(200, CorsHeaders,
                  Found(SubmissionView(Some(JStr("ABC123")), JStr("approved"), Some(JStr("Brutalist")),
                                       None, None, None)))
  {
  }
}
