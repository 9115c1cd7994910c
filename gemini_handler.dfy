/** The summary endpoint (src/components/pages/gemini.js): a POST with a query and a
    user id is classified as being about attendance or tasks, that user's records of the
    kind are read, and the model summarises them. */
module GeminiHandler {
  import opened Outcomes
  import opened JsValues
  import JsText

  const DayMs: int := 86400000

  datatype Kind = AttendanceKind | TaskKind

  function KindName(k: Kind): string {
    match k
    case AttendanceKind => "attendance"
    case TaskKind => "task"
  }

  /** The classification: "attendance" is looked for before "task", both on the lower-cased
      query. */
  function Classify(query: string): (r: Option<Kind>)
    ensures r == Some(AttendanceKind) <==> JsText.Contains(JsText.Lower(query), "attendance")
    ensures r == Some(TaskKind) <==>
      !JsText.Contains(JsText.Lower(query), "attendance") && JsText.Contains(JsText.Lower(query), "task")
  {
    var q := JsText.Lower(query);
    if JsText.Contains(q, "attendance") then Some(AttendanceKind)
    else if JsText.Contains(q, "task") then Some(TaskKind)
    else None
  }

  lemma ClassifyIgnoresCase(query: string)
    ensures Classify(JsText.Lower(query)) == Classify(query)
  {
    JsText.LowerIdempotent(query);
  }

  datatype Filter = Equals(column: string, id: JsValue) | AtLeast(column: string, bound: string) | NotEqual(column: string, excluded: string)

  datatype Lookup = Lookup(table: string, columns: string, filters: seq<Filter>)

  /** The query for a kind. `since` is the date part of the instant seven days before
      now. */
  function LookupFor(kind: Kind, userId: JsValue, since: string): Lookup {
    match kind
    case AttendanceKind => Lookup("attendance", "date, status", [Equals("user_id", userId), AtLeast("date", since)])
    case TaskKind => Lookup("tasks", "title, status, due_date", [Equals("user_id", userId), NotEqual("status", "done")])
  }

  /** Both lookups are limited to the caller's user id; attendance goes back to `since`,
      tasks leave out the done ones. */
  lemma LookupsScoped(userId: JsValue, since: string)
    ensures forall k :: Equals("user_id", userId) in LookupFor(k, userId, since).filters
    ensures AtLeast("date", since) in LookupFor(AttendanceKind, userId, since).filters
    ensures NotEqual("status", "done") in LookupFor(TaskKind, userId, since).filters
  {
  }

  datatype Response = Response(status: int, body: map<string, JsValue>)

  /** What was done for one request: the answer, and the lookup made if any. */
  datatype Outcome = Outcome(response: Response, lookup: Option<Lookup>)

  const FailureText: string := "Something went wrong while generating the summary."

  function Failure(lookup: Option<Lookup>): Outcome {
    Outcome(Response(500, map["response" := Str(FailureText)]), lookup)
  }

  /** `handler`. `dateOf` renders an instant in milliseconds as its `YYYY-MM-DD` date;
      `run` gives a lookup's `data`, `None` for null; `stringify` is `JSON.stringify`
      with indentation; `model` answers a prompt with its text or throws. A query that
      is not a string has no `toLowerCase`, and that error is the catch-all 500. */
  function Handle(httpMethod: string, body: map<string, JsValue>, now: int, dateOf: int -> string,
                  run: Lookup -> Option<seq<JsValue>>, stringify: seq<JsValue> -> string,
                  model: string -> Result<string>): (o: Outcome)
    ensures o.response.status == 405 <==> httpMethod != "POST"
    ensures o.lookup.Some? <==>
      httpMethod == "POST" && Get(body, "query").Str? && Classify(Get(body, "query").s).Some?
    ensures o.response.status == 400 <==>
      httpMethod == "POST" && Get(body, "query").Str? && Classify(Get(body, "query").s).None?
    ensures o.response.status == 200 ==> o.lookup.Some?
    ensures o.response.status in {200, 400, 405, 500}
  {
    if httpMethod != "POST" then Outcome(Response(405, map[]), None)
    else
      var query := Get(body, "query");
      if !query.Str? then Failure(None)
      else
        match Classify(query.s)
        case None => Outcome(Response(400, map["response" := Str("I didn't understand your request.")]), None)
        case Some(kind) =>
          var lookup := LookupFor(kind, Get(body, "user_id"), dateOf(now - 7 * DayMs));
          var records := match run(lookup) case Some(data) => data case None => [];
          var prompt := "You are an HR assistant. Summarize this user's " + KindName(kind) + " data:\n" + stringify(records);
          match model(prompt)
          case Err(_) => Failure(Some(lookup))
          case Ok(text) => Outcome(Response(200, map["response" := Str(text)]), Some(lookup))
  }

  /** A query naming neither kind is refused with 400 and reads nothing. */
  lemma UnknownQueryReadsNothing(q: string, body: map<string, JsValue>, now: int, dateOf: int -> string,
                                 run: Lookup -> Option<seq<JsValue>>, stringify: seq<JsValue> -> string, model: string -> Result<string>)
    requires Get(body, "query") == Str(q) && Classify(q).None?
    ensures Handle("POST", body, now, dateOf, run, stringify, model)
            == Outcome(Response(400, map["response" := Str("I didn't understand your request.")]), None)
  {
  }

  /** A query mentioning attendance reads that user's attendance of the past seven days,
      even when it also mentions tasks. */
  lemma AttendanceQueryWins(q: string, body: map<string, JsValue>, now: int, dateOf: int -> string,
                            run: Lookup -> Option<seq<JsValue>>, stringify: seq<JsValue> -> string, model: string -> Result<string>)
    requires Get(body, "query") == Str(q) && JsText.Contains(JsText.Lower(q), "attendance")
    ensures Handle("POST", body, now, dateOf, run, stringify, model).lookup
            == Some(Lookup("attendance", "date, status", [Equals("user_id", Get(body, "user_id")), AtLeast("date", dateOf(now - 604800000))]))
  {
  }

  /** A null result is summarised as the empty list, and any failure of the model is the
      fixed 500. */
  lemma NullDataAndFailures(q: string, body: map<string, JsValue>, now: int, dateOf: int -> string,
                            run: Lookup -> Option<seq<JsValue>>, stringify: seq<JsValue> -> string, model: string -> Result<string>)
    requires Get(body, "query") == Str(q) && Classify(q).Some?
    ensures var kind := Classify(q).value;
            var lookup := LookupFor(kind, Get(body, "user_id"), dateOf(now - 7 * DayMs));
            var o := Handle("POST", body, now, dateOf, run, stringify, model);
            var prompt := "You are an HR assistant. Summarize this user's " + KindName(kind) + " data:\n"
                          + stringify(if run(lookup).Some? then run(lookup).value else []);
            && (model(prompt).Err? ==> o == Failure(Some(lookup)))
            && (model(prompt).Ok? ==> o.response == Response(200, map["response" := Str(model(prompt).value)]))
  {
  }

  /** A missing or non-string query never reaches a lookup. */
  lemma MissingQueryFails(body: map<string, JsValue>, now: int, dateOf: int -> string,
                          run: Lookup -> Option<seq<JsValue>>, stringify: seq<JsValue> -> string, model: string -> Result<string>)
    requires !Get(body, "query").Str?
    ensures Handle("POST", body, now, dateOf, run, stringify, model) == Failure(None)
  {
  }
}
