/** The Express backend (Backend/server.js): the required-field check in front of the
    two meeting routes, the in-memory meetings list they append to, the list loaded at
    start-up, and the keyword routing of `/api/chatbot`. Request and response bodies are
    JSON objects; the file store, the calendar client and the database are inputs. */
module MeetingServer {
  import opened Outcomes
  import opened JsValues
  import JsText

  /** An HTTP answer: status code and JSON body. */
  datatype Response = Response(status: int, body: map<string, JsValue>)

  function ErrorReply(status: int, message: string): Response {
    Response(status, map["error" := Str(message)])
  }

  const OneHourMs: int := 3600000

  // ---------------------------------------------------------------------------
  // Start-up

  /** `loadMeetings`: the parsed file contents, or the empty list when reading or
      parsing failed. */
  function LoadMeetings(read: Result<seq<map<string, JsValue>>>): (r: seq<map<string, JsValue>>)
    ensures read.Err? ==> r == []
    ensures read.Ok? ==> r == read.value
  {
    match read
    case Ok(stored) => stored
    case Err(_) => []
  }

  // ---------------------------------------------------------------------------
  // `validateMeetingData`

  /** The middleware's verdict: `None` lets the request through, otherwise the 400 it
      answers with. */
  function MeetingDataError(body: map<string, JsValue>): (r: Option<Response>)
    ensures r.Some? ==> r.value == ErrorReply(400, "Missing or invalid fields")
    ensures r.None? <==>
      Truthy(Get(body, "title")) && Truthy(Get(body, "date")) && Truthy(Get(body, "time"))
      && Get(body, "attendees").Arr?
  {
    var attendees := Get(body, "attendees");
    if !Truthy(Get(body, "title")) || !Truthy(Get(body, "date")) || !Truthy(Get(body, "time"))
       || !Truthy(attendees) || !attendees.Arr?
    then Some(ErrorReply(400, "Missing or invalid fields"))
    else None
  }

  /** An empty attendee array is accepted: arrays are truthy however short. */
  lemma EmptyAttendeesPass(title: string, date: string, time: string)
    requires title != "" && date != "" && time != ""
    ensures MeetingDataError(map["title" := Str(title), "date" := Str(date), "time" := Str(time),
                                 "attendees" := Arr([])]).None?
  {
  }

  // ---------------------------------------------------------------------------
  // The stored entry and the calendar event

  /** `{ ...req.body, platform, meetingUrl }`: the body with the two keys set last, so
      they override whatever the client sent under those names. */
  function StoredMeeting(body: map<string, JsValue>, platform: string, url: string): (m: map<string, JsValue>)
    ensures m.Keys == body.Keys + {"platform", "meetingUrl"}
    ensures m["platform"] == Str(platform) && m["meetingUrl"] == Str(url)
    ensures forall k :: k in body && k != "platform" && k != "meetingUrl" ==> m[k] == body[k]
  {
    body["platform" := Str(platform)]["meetingUrl" := Str(url)]
  }

  /** The event handed to the calendar: times are milliseconds since the epoch. */
  datatype CalendarEvent = CalendarEvent(summary: JsValue, startMs: int, endMs: int, attendees: seq<JsValue>)

  function AttendeeObjects(items: seq<JsValue>): (r: seq<JsValue>)
    ensures |r| == |items|
    ensures forall k :: 0 <= k < |items| ==> r[k] == Obj(map["email" := items[k]])
  {
    if items == [] then [] else [Obj(map["email" := items[0]])] + AttendeeObjects(items[1..])
  }

  /** The Google event for a validated body whose date and time denote `startMs`. */
  function GoogleEvent(body: map<string, JsValue>, startMs: int): (e: CalendarEvent)
    requires Get(body, "attendees").Arr?
    ensures e.endMs - e.startMs == OneHourMs && e.startMs == startMs
    ensures e.summary == Get(body, "title")
    ensures |e.attendees| == |Get(body, "attendees").items|
  {
    CalendarEvent(Get(body, "title"), startMs, startMs + OneHourMs, AttendeeObjects(Get(body, "attendees").items))
  }

  function SuccessReply(url: string): Response {
    Response(200, map["meetingUrl" := Str(url), "success" := Bool(true)])
  }

  function FailureReply(message: string, details: string): Response {
    Response(500, map["error" := Str(message), "details" := Str(details)])
  }

  /** The module-level `meetings` array. */
  class MeetingStore {
    var meetings: seq<map<string, JsValue>>

    constructor (read: Result<seq<map<string, JsValue>>>)
      ensures meetings == LoadMeetings(read)
    {
      meetings := LoadMeetings(read);
    }

    /** `POST /api/google-meeting`. `startMs` is the instant the body's date and time
        denote; `calendar` is the insert call's meeting link or the error it threw;
        `saveError` is the error writing the file threw, if any. The entry is pushed
        before the file is written, so a failed write still leaves it in the list. */
    method ScheduleGoogle(body: map<string, JsValue>, startMs: int, calendar: Result<string>, saveError: Option<string>)
      returns (resp: Response, event: Option<CalendarEvent>)
      modifies this
      ensures MeetingDataError(body).Some? ==>
        resp == MeetingDataError(body).value && event.None? && meetings == old(meetings)
      ensures MeetingDataError(body).None? ==> event == Some(GoogleEvent(body, startMs))
      ensures MeetingDataError(body).None? && calendar.Err? ==>
        resp == FailureReply("Failed to schedule Google Meet", calendar.error) && meetings == old(meetings)
      ensures MeetingDataError(body).None? && calendar.Ok? ==>
        && meetings == old(meetings) + [StoredMeeting(body, "google", calendar.value)]
        && resp == (if saveError.Some? then FailureReply("Failed to schedule Google Meet", saveError.value)
                    else SuccessReply(calendar.value))
    {
      var rejected := MeetingDataError(body);
      if rejected.Some? {
        return rejected.value, None;
      }
      event := Some(GoogleEvent(body, startMs));
      if calendar.Err? {
        return FailureReply("Failed to schedule Google Meet", calendar.error), event;
      }
      var meetingUrl := calendar.value;
      meetings := meetings + [StoredMeeting(body, "google", meetingUrl)];
      if saveError.Some? {
        return FailureReply("Failed to schedule Google Meet", saveError.value), event;
      }
      resp := SuccessReply(meetingUrl);
    }

    /** `POST /api/zoom-meeting`: `suffix` stands for the random five characters of the
        fake link. */
    method ScheduleZoom(body: map<string, JsValue>, suffix: string, saveError: Option<string>)
      returns (resp: Response)
      modifies this
      ensures MeetingDataError(body).Some? ==> resp == MeetingDataError(body).value && meetings == old(meetings)
      ensures MeetingDataError(body).None? ==>
        && meetings == old(meetings) + [StoredMeeting(body, "zoom", "https://zoom.us/fake-" + suffix)]
        && resp == (if saveError.Some? then FailureReply("Zoom scheduling failed", saveError.value)
                    else SuccessReply("https://zoom.us/fake-" + suffix))
    {
      var rejected := MeetingDataError(body);
      if rejected.Some? {
        return rejected.value;
      }
      var meetingUrl := "https://zoom.us/fake-" + suffix;
      meetings := meetings + [StoredMeeting(body, "zoom", meetingUrl)];
      if saveError.Some? {
        return FailureReply("Zoom scheduling failed", saveError.value);
      }
      resp := SuccessReply(meetingUrl);
    }

    /** `GET /api/meetings`: the whole list, oldest first. */
    function AllMeetings(): (r: seq<JsValue>)
      reads this
      ensures |r| == |meetings|
      ensures forall k :: 0 <= k < |meetings| ==> r[k] == Obj(meetings[k])
    {
      seq(|meetings|, k requires 0 <= k < |meetings| reads this => Obj(meetings[k]))
    }
  }

  // ---------------------------------------------------------------------------
  // `POST /api/chatbot`

  const DefaultChatReply: string := "Sorry, I didn't understand. Try asking about 'attendance' or 'tasks'."

  const DefaultResponse: Response := Response(200, map["reply" := Str(DefaultChatReply)])

  /** "Found N <what>." */
  function FoundReply(n: nat, what: string): string {
    "Found " + JsText.NatToString(n) + " " + what + "."
  }

  /** The count can be read back from the reply text, so distinct counts give distinct
      replies. */
  lemma FoundReplyReadsBack(n: nat, what: string)
    ensures var r := FoundReply(n, what);
            |r| >= |what| + 8 && JsText.ParseNat(r[6..|r| - |what| - 2]) == n
  {
    var r := FoundReply(n, what);
    assert r[6..|r| - |what| - 2] == JsText.NatToString(n);
    JsText.ParseNatToString(n);
  }

  /** A 200 answer carrying a reply text and the records it is about. */
  function RecordsReply(reply: string, data: seq<JsValue>): (r: Response)
    ensures r.status == 200 && r.body.Keys == {"reply", "records"}
    ensures r.body["reply"] == Str(reply) && r.body["records"] == Arr(data)
  {
    assert "reply"[2] != "records"[2];
    Response(200, map["reply" := Str(reply), "records" := Arr(data)])
  }

  /** Which table a string query asks about: "attendance" is looked for first, and both
      tests are on the lower-cased query. */
  datatype Topic = AttendanceTopic | TaskTopic | NoTopic

  function QueryTopic(q: string): (t: Topic)
    ensures t == AttendanceTopic <==> JsText.Contains(JsText.Lower(q), "attendance")
    ensures t == TaskTopic <==>
      !JsText.Contains(JsText.Lower(q), "attendance") && JsText.Contains(JsText.Lower(q), "task")
  {
    if JsText.Contains(JsText.Lower(q), "attendance") then AttendanceTopic
    else if JsText.Contains(JsText.Lower(q), "task") then TaskTopic
    else NoTopic
  }

  /** The answer to a non-empty string query. */
  function TopicReply(t: Topic, attendance: Result<seq<JsValue>>, tasks: Result<seq<JsValue>>): (r: Response)
    ensures r.status == 200 || r.status == 500
    ensures r.status == 500 <==> (t == AttendanceTopic && attendance.Err?) || (t == TaskTopic && tasks.Err?)
    ensures r.status == 500 ==> r.body.Keys == {"error"}
    ensures r.status == 500 ==>
      r == ErrorReply(500, if t == AttendanceTopic then "Error fetching attendance" else "Error fetching tasks")
  {
    match t
    case AttendanceTopic =>
      (match attendance
       case Err(_) => ErrorReply(500, "Error fetching attendance")
       case Ok(data) => RecordsReply(FoundReply(|data|, "attendance records"), data))
    case TaskTopic =>
      (match tasks
       case Err(_) => ErrorReply(500, "Error fetching tasks")
       case Ok(data) => RecordsReply(FoundReply(|data|, "tasks"), data))
    case NoTopic => DefaultResponse
  }

  /** The route's answer for a body; `attendance` and `tasks` are what the two queries
      would return. A truthy query that is not a string has no `toLowerCase`, and the
      thrown error becomes the catch-all 500. */
  function ChatbotRoute(body: map<string, JsValue>, attendance: Result<seq<JsValue>>, tasks: Result<seq<JsValue>>): (r: Response)
    ensures r.status == 400 <==> !Truthy(Get(body, "query"))
    ensures r.status == 200 || r.status == 400 || r.status == 500
    ensures Truthy(Get(body, "query")) && !Get(body, "query").Str? ==> r == ErrorReply(500, "Internal Server Error")
  {
    var query := Get(body, "query");
    if !Truthy(query) then ErrorReply(400, "Query is required")
    else if !query.Str? then ErrorReply(500, "Internal Server Error")
    else TopicReply(QueryTopic(query.s), attendance, tasks)
  }

  /** A non-empty string query is answered by its topic. */
  lemma StringQueryRoute(q: string, attendance: Result<seq<JsValue>>, tasks: Result<seq<JsValue>>)
    requires q != ""
    ensures ChatbotRoute(map["query" := Str(q)], attendance, tasks) == TopicReply(QueryTopic(q), attendance, tasks)
  {
    assert Get(map["query" := Str(q)], "query") == Str(q);
  }

  /** A query mentioning a keyword is not empty. */
  lemma KeywordQueryNonEmpty(q: string, keyword: string)
    requires keyword != "" && JsText.Contains(JsText.Lower(q), keyword)
    ensures q != ""
  {
  }

  /** "attendance" is looked for first: such a query never reads the tasks, even when it
      also mentions tasks. */
  lemma ChatbotAttendanceFirst(q: string, attendance: Result<seq<JsValue>>, tasks1: Result<seq<JsValue>>, tasks2: Result<seq<JsValue>>)
    requires JsText.Contains(JsText.Lower(q), "attendance")
    ensures ChatbotRoute(map["query" := Str(q)], attendance, tasks1) == ChatbotRoute(map["query" := Str(q)], attendance, tasks2)
    ensures ChatbotRoute(map["query" := Str(q)], attendance, tasks1).status == (if attendance.Ok? then 200 else 500)
  {
    KeywordQueryNonEmpty(q, "attendance");
    StringQueryRoute(q, attendance, tasks1);
    StringQueryRoute(q, attendance, tasks2);
  }

  /** The routing ignores letter case. */
  lemma ChatbotIgnoresCase(q: string, attendance: Result<seq<JsValue>>, tasks: Result<seq<JsValue>>)
    ensures ChatbotRoute(map["query" := Str(JsText.Lower(q))], attendance, tasks) == ChatbotRoute(map["query" := Str(q)], attendance, tasks)
  {
    JsText.LowerIdempotent(q);
  }

  /** A successful record reply carries the records and says how many there are. */
  lemma ChatbotCountsRecords(q: string, data: seq<JsValue>, tasks: Result<seq<JsValue>>)
    requires JsText.Contains(JsText.Lower(q), "attendance")
    ensures var r := ChatbotRoute(map["query" := Str(q)], Ok(data), tasks);
            r == RecordsReply(FoundReply(|data|, "attendance records"), data)
  {
    KeywordQueryNonEmpty(q, "attendance");
    StringQueryRoute(q, Ok(data), tasks);
  }

  /** A tasks query that does not mention attendance carries the task rows and says how
      many there are; the attendance result plays no part. */
  lemma ChatbotCountsTasks(q: string, attendance: Result<seq<JsValue>>, data: seq<JsValue>)
    requires !JsText.Contains(JsText.Lower(q), "attendance") && JsText.Contains(JsText.Lower(q), "task")
    ensures var r := ChatbotRoute(map["query" := Str(q)], attendance, Ok(data));
            r == RecordsReply(FoundReply(|data|, "tasks"), data)
  {
    KeywordQueryNonEmpty(q, "task");
    StringQueryRoute(q, attendance, Ok(data));
  }

  /** A query with neither keyword gets the fixed reply and reads no table. */
  lemma ChatbotDefault(q: string, attendance: Result<seq<JsValue>>, tasks: Result<seq<JsValue>>)
    requires q != ""
    requires !JsText.Contains(JsText.Lower(q), "attendance") && !JsText.Contains(JsText.Lower(q), "task")
    ensures ChatbotRoute(map["query" := Str(q)], attendance, tasks) == DefaultResponse
  {
    StringQueryRoute(q, attendance, tasks);
  }
}
