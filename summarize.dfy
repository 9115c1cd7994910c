/** The assistant library (src/lib/summarize.js): follow-up and notification-keyword
    detection, the chat prompt, the chat handler with its fixed error, and the realtime
    handler that fans notifications out to the users concerned. Database reads, the
    model call and inserts into `notifications` are inputs and recorded effects. */
module Summarize {
  import opened Outcomes
  import opened JsValues
  import JsText

  // ---------------------------------------------------------------------------
  // `checkFollowUp`

  /** Some stretch of the text is "need more" in some letter case. */
  ghost predicate SaysNeedMore(response: string) {
    exists t :: JsText.Lower(t) == "need more" && JsText.Contains(response, t)
  }

  /** The answer asks something back exactly when it has a '?' or says "need more" in
      any letter case. */
  function CheckFollowUp(response: string): (asks: bool)
    ensures asks <==> '?' in response || SaysNeedMore(response)
  {
    assert SaysNeedMore(response) <==> JsText.Contains(JsText.Lower(response), "need more") by {
      if JsText.Contains(JsText.Lower(response), "need more") {
        JsText.LowerOccurrenceLifts(response, "need more");
      }
      if SaysNeedMore(response) {
        var t :| JsText.Lower(t) == "need more" && JsText.Contains(response, t);
        JsText.LowerKeepsOccurrence(response, t);
      }
    }
    '?' in response || JsText.Contains(JsText.Lower(response), "need more")
  }

  lemma LowerKeepsQuestionMark(s: string)
    ensures '?' in JsText.Lower(s) <==> '?' in s
  {
    var r := JsText.Lower(s);
    if '?' in s {
      var i :| 0 <= i < |s| && s[i] == '?';
      assert r[i] == '?';
    }
    if '?' in r {
      var i :| 0 <= i < |r| && r[i] == '?';
      assert s[i] == '?';
    }
  }

  /** Follow-up detection ignores letter case. */
  lemma FollowUpIgnoresCase(response: string)
    ensures CheckFollowUp(JsText.Lower(response)) == CheckFollowUp(response)
  {
    LowerKeepsQuestionMark(response);
    JsText.LowerIdempotent(response);
  }

  /** Text appended to an answer that already asks for a follow-up cannot cancel it. */
  lemma FollowUpSurvivesAppend(response: string, more: string)
    requires CheckFollowUp(response)
    ensures CheckFollowUp(response + more)
  {
    JsText.LowerAppend(response, more);
    if JsText.Contains(JsText.Lower(response), "need more") {
      JsText.ContainsInLeft(JsText.Lower(response), JsText.Lower(more), "need more");
    }
  }

  // ---------------------------------------------------------------------------
  // `detectNotificationRequirements`

  /** The role's keywords: four for "admin", three for anyone else, each non-empty and
      already lower-case, so that they can match the lower-cased answer. */
  function Keywords(role: string): (keywords: seq<string>)
    ensures |keywords| == (if role == "admin" then 4 else 3)
    ensures forall k :: 0 <= k < |keywords| ==> keywords[k] != "" && JsText.IsLowerCase(keywords[k])
  {
    if role == "admin" then ["alert", "urgent", "missing", "delay"] else ["reminder", "deadline", "pending"]
  }

  function AnyKeyword(text: string, keywords: seq<string>): (r: bool)
    ensures r <==> exists k :: 0 <= k < |keywords| && JsText.Contains(text, keywords[k])
  {
    if keywords == [] then false
    else JsText.Contains(text, keywords[0]) || AnyKeyword(text, keywords[1..])
  }

  function DetectNotificationRequirements(response: string, role: string): (targets: seq<string>)
    ensures targets == [] || targets == ["relevant_users"]
    ensures targets != [] <==>
      exists k :: 0 <= k < |Keywords(role)| && JsText.Contains(JsText.Lower(response), Keywords(role)[k])
  {
    if AnyKeyword(JsText.Lower(response), Keywords(role)) then ["relevant_users"] else []
  }

  /** Detection ignores letter case. */
  lemma DetectionIgnoresCase(response: string, role: string)
    ensures DetectNotificationRequirements(JsText.Lower(response), role) == DetectNotificationRequirements(response, role)
  {
    JsText.LowerIdempotent(response);
  }

  /** Every role other than exactly "admin" is treated like an employee. */
  lemma DetectionNonAdmin(response: string, role: string)
    requires role != "admin"
    ensures DetectNotificationRequirements(response, role) == DetectNotificationRequirements(response, "user")
  {
  }

  /** A keyword anywhere in the answer, whatever its case, triggers notifications. */
  lemma KeywordTriggers(before: string, after: string, role: string, k: nat)
    requires k < |Keywords(role)|
    ensures DetectNotificationRequirements(before + Keywords(role)[k] + after, role) == ["relevant_users"]
  {
    var kw := Keywords(role)[k];
    JsText.LowerOfLowerCase(kw);
    LowerOfThree(before, kw, after);
    JsText.ContainsMiddle(JsText.Lower(before), kw, JsText.Lower(after));
  }

  lemma LowerOfThree(a: string, b: string, c: string)
    ensures JsText.Lower(a + b + c) == JsText.Lower(a) + JsText.Lower(b) + JsText.Lower(c)
  {
    JsText.LowerAppend(a + b, c);
    JsText.LowerAppend(a, b);
  }

  // ---------------------------------------------------------------------------
  // `buildChatPrompt`

  const AnalyticsLine: string := "Include detailed analytics and patterns."
  const PersonalLine: string := "Focus on personal summary and tasks."

  /** The template's last-but-one line: the parameter is named `isAdmin` but receives
      the role string, so any non-empty role, 'user' included, selects the analytics
      wording. */
  function RoleLine(isAdmin: string): string {
    if isAdmin != "" then AnalyticsLine else PersonalLine
  }

  function PromptPreamble(attendanceJson: string, tasksJson: string): string {
    "\n    You are a helpful workplace assistant. Provide detailed but concise responses."
    + "\n    Current context:"
    + "\n    - Today's attendance records: " + attendanceJson
    + "\n    - Task information: " + tasksJson
    + "\n    \n    "
  }

  function QuotedMessage(message: string): string {
    "User message: \"" + message + "\""
  }

  const PromptTail: string := "\n    Format response with clear sections and emojis when appropriate.\n  "

  /** The template literal; `attendanceJson` and `tasksJson` are the `JSON.stringify`
      texts of the context data. */
  function BuildChatPrompt(attendanceJson: string, tasksJson: string, message: string, isAdmin: string): (p: string)
    ensures JsText.Contains(p, QuotedMessage(message))
    ensures JsText.Contains(p, RoleLine(isAdmin))
  {
    var quoted := QuotedMessage(message);
    var head := PromptPreamble(attendanceJson, tasksJson) + quoted;
    JsText.ContainsItself(quoted);
    JsText.ContainsInRight(PromptPreamble(attendanceJson, tasksJson), quoted, quoted);
    JsText.ContainsInLeft(head, "\n    \n    ", quoted);
    JsText.ContainsInLeft(head + "\n    \n    ", RoleLine(isAdmin), quoted);
    JsText.ContainsInLeft(head + "\n    \n    " + RoleLine(isAdmin), PromptTail, quoted);
    JsText.ContainsMiddle(head + "\n    \n    ", RoleLine(isAdmin), PromptTail);
    head + "\n    \n    " + RoleLine(isAdmin) + PromptTail
  }

  /** The prompt carries the wording the role string selects; the role 'user' gets the
      analytics wording. */
  lemma PromptRoleWording(attendanceJson: string, tasksJson: string, message: string, isAdmin: string)
    ensures var p := BuildChatPrompt(attendanceJson, tasksJson, message, isAdmin);
            && (isAdmin != "" ==> JsText.Contains(p, AnalyticsLine))
            && (isAdmin == "" ==> JsText.Contains(p, PersonalLine))
            && JsText.Contains(BuildChatPrompt(attendanceJson, tasksJson, message, "user"), AnalyticsLine)
  {
  }

  // ---------------------------------------------------------------------------
  // Model answers and their fallbacks

  /** The model call: it threw (an HTTP or network error), or it answered with the first
      candidate's text when there is one. */
  datatype ModelCall = ModelThrew(message: string) | ModelAnswered(candidate: Option<string>)

  const ChatFallback: string := "I couldn't generate a response. Please try again."
  const NotificationFallback: string := "System update occurred."

  /** `text || fallback` on the optional candidate text. */
  function TextOr(candidate: Option<string>, fallback: string): (r: string)
    ensures candidate.Some? && candidate.value != "" ==> r == candidate.value
    ensures candidate.None? || candidate.value == "" ==> r == fallback
  {
    if candidate.Some? && candidate.value != "" then candidate.value else fallback
  }

  /** `generateAIResponse`: a thrown call is passed on as an error; a non-empty text is
      the answer, and only a missing or empty text falls back. */
  function GenerateAIResponse(call: ModelCall): (r: Result<string>)
    ensures r.Err? <==> call.ModelThrew?
    ensures r.Ok? ==> r.value != "" && (r.value == ChatFallback || Some(r.value) == call.candidate)
    ensures call.ModelAnswered? && call.candidate.Some? && call.candidate.value != "" ==> r == Ok(call.candidate.value)
    ensures call.ModelAnswered? && (call.candidate.None? || call.candidate.value == "") ==> r == Ok(ChatFallback)
  {
    match call
    case ModelThrew(m) => Err(m)
    case ModelAnswered(c) => Ok(TextOr(c, ChatFallback))
  }

  /** `generateNotificationMessage`: the same shape with its own fallback; a non-empty
      text is the message, and a thrown call is not caught here either. */
  function GenerateNotificationMessage(call: ModelCall): (r: Result<string>)
    ensures r.Err? <==> call.ModelThrew?
    ensures r.Ok? ==> r.value != "" && (r.value == NotificationFallback || Some(r.value) == call.candidate)
    ensures call.ModelAnswered? && call.candidate.Some? && call.candidate.value != "" ==> r == Ok(call.candidate.value)
    ensures call.ModelAnswered? && (call.candidate.None? || call.candidate.value == "") ==> r == Ok(NotificationFallback)
  {
    match call
    case ModelThrew(m) => Err(m)
    case ModelAnswered(c) => Ok(TextOr(c, NotificationFallback))
  }

  /** The prompt of `generateNotificationMessage`; `recordJson` is the stringified row. */
  function NotificationPrompt(kind: string, eventType: string, recordJson: string): (p: string)
    ensures JsText.StartsWith(p, "Generate a concise notification about " + kind + " ")
    ensures JsText.Contains(p, eventType) && JsText.Contains(p, recordJson)
  {
    var lead := "Generate a concise notification about " + kind + " ";
    var prompt := lead + eventType + ":\n" + recordJson;
    assert prompt[..|lead|] == lead;
    JsText.ContainsMiddle(lead, eventType, ":\n" + recordJson);
    assert lead + eventType + (":\n" + recordJson) == prompt;
    JsText.ContainsItself(recordJson);
    JsText.ContainsInRight(lead + eventType + ":\n", recordJson, recordJson);
    prompt
  }

  // ---------------------------------------------------------------------------
  // `getContextData`

  datatype Filter = Equals(column: string, value: string) | AtLeast(column: string, value: string) | AssignedTo(userId: string)

  datatype Query = Query(table: string, columns: string, filters: seq<Filter>)

  function AttendanceQuery(userId: string, role: string, today: string): Query {
    if role == "admin" then Query("attendance", "*, profiles(email)", [AtLeast("created_at", today)])
    else Query("attendance", "*", [Equals("user_id", userId), AtLeast("created_at", today)])
  }

  function TasksQuery(userId: string, role: string): Query {
    if role == "admin" then Query("tasks", "*, profiles(email), assignees:task_assignees(user_id)", [])
    else Query("tasks", "*, assignees:task_assignees(user_id)", [AssignedTo(userId)])
  }

  /** Whether a query only reaches rows of `userId`. */
  predicate ScopedTo(q: Query, userId: string) {
    Equals("user_id", userId) in q.filters || AssignedTo(userId) in q.filters
  }

  /** An admin sees every user's data; anyone else only their own, and attendance is
      always limited to today. */
  lemma ContextScope(userId: string, role: string, today: string)
    ensures role == "admin" <==> !ScopedTo(AttendanceQuery(userId, role, today), userId)
    ensures role == "admin" <==> !ScopedTo(TasksQuery(userId, role), userId)
    ensures AtLeast("created_at", today) in AttendanceQuery(userId, role, today).filters
  {
  }

  /** Runs the two queries of the role; `run` gives each query's `data`, which is `null`
      on an error and then replaces the initial empty list. */
  method GetContextData(userId: string, role: string, today: string, run: Query -> JsValue)
    returns (attendance: JsValue, tasks: JsValue)
    ensures attendance == run(AttendanceQuery(userId, role, today))
    ensures tasks == run(TasksQuery(userId, role))
  {
    attendance := Arr([]);
    tasks := Arr([]);
    if role == "admin" {
      attendance := run(Query("attendance", "*, profiles(email)", [AtLeast("created_at", today)]));
      tasks := run(Query("tasks", "*, profiles(email), assignees:task_assignees(user_id)", []));
    } else {
      attendance := run(Query("attendance", "*", [Equals("user_id", userId), AtLeast("created_at", today)]));
      tasks := run(Query("tasks", "*, assignees:task_assignees(user_id)", [AssignedTo(userId)]));
    }
  }

  // ---------------------------------------------------------------------------
  // `handleUserMessage`

  datatype ChatResult = Answer(response: string, needsFollowUp: bool) | Failure(error: string)

  const ChatError: string := "Sorry, I'm having trouble processing your request. Please try again later."

  /** `handleUserMessage` as written. `model` answers a prompt. The call to
      `sendNotificationToTargets`, a name defined nowhere, throws a ReferenceError, so
      any answer that triggers notifications ends in the fixed error. */
  function HandleUserMessage(attendanceJson: string, tasksJson: string, message: string, role: string,
                             model: string -> ModelCall): (r: ChatResult)
    ensures r.Failure? ==> r.error == ChatError
    ensures r.Answer? ==> r.needsFollowUp == CheckFollowUp(r.response)
    ensures r.Answer? <==>
      && GenerateAIResponse(model(BuildChatPrompt(attendanceJson, tasksJson, message, role))).Ok?
      && DetectNotificationRequirements(GenerateAIResponse(model(BuildChatPrompt(attendanceJson, tasksJson, message, role))).value, role) == []
  {
    var reply := GenerateAIResponse(model(BuildChatPrompt(attendanceJson, tasksJson, message, role)));
    if reply.Err? then Failure(ChatError)
    else if DetectNotificationRequirements(reply.value, role) != [] then Failure(ChatError)
    else Answer(reply.value, CheckFollowUp(reply.value))
  }

  /** The handler's outcome when notifications work: the result, and the targets told. */
  datatype Handled = Handled(result: ChatResult, notified: seq<string>)

  /** `handleUserMessage` as evidently intended: the targets are notified of the answer
      and the answer is still returned. `notifyFails` stands for the notification
      insert throwing. */
  function HandleUserMessageIntended(attendanceJson: string, tasksJson: string, message: string, role: string,
                                     model: string -> ModelCall, notifyFails: bool): (h: Handled)
    ensures h.result.Failure? ==> h.result.error == ChatError
    ensures h.result.Answer? ==> h.result.needsFollowUp == CheckFollowUp(h.result.response)
  {
    var reply := GenerateAIResponse(model(BuildChatPrompt(attendanceJson, tasksJson, message, role)));
    if reply.Err? then Handled(Failure(ChatError), [])
    else
      var targets := DetectNotificationRequirements(reply.value, role);
      if targets != [] && notifyFails then Handled(Failure(ChatError), [])
      else Handled(Answer(reply.value, CheckFollowUp(reply.value)), targets)
  }

  /** The intended handler answers whenever the model answered and notifying did not
      fail, tells the targets exactly when the answer has a keyword, and agrees with
      the code as written whenever no keyword occurs. */
  lemma IntendedHandlerAnswers(attendanceJson: string, tasksJson: string, message: string, role: string,
                               model: string -> ModelCall, notifyFails: bool)
    ensures var prompt := BuildChatPrompt(attendanceJson, tasksJson, message, role);
            var reply := GenerateAIResponse(model(prompt));
            var h := HandleUserMessageIntended(attendanceJson, tasksJson, message, role, model, notifyFails);
            && (reply.Ok? && !notifyFails ==> h.result == Answer(reply.value, CheckFollowUp(reply.value)))
            && (reply.Ok? && !notifyFails ==> (h.notified != [] <==> DetectNotificationRequirements(reply.value, role) != []))
            && (reply.Err? ==> h.result == Failure(ChatError) && h.notified == [])
            && (reply.Ok? && DetectNotificationRequirements(reply.value, role) == [] ==>
                  h.result == HandleUserMessage(attendanceJson, tasksJson, message, role, model))
  {
  }

  const DeadlineText: string := "deadline is friday"

  lemma DeadlineTextTriggers()
    ensures DetectNotificationRequirements(DeadlineText, "user") == ["relevant_users"]
  {
    assert DeadlineText == [] + "deadline" + " is friday";
    KeywordTriggers([], " is friday", "user", 1);
  }

  lemma DeadlineTextAsksNothing()
    ensures !CheckFollowUp(DeadlineText)
  {
    assert '?' !in DeadlineText;
    assert JsText.IsLowerCase(DeadlineText);
    JsText.LowerOfLowerCase(DeadlineText);
    NoNeedMore();
  }

  lemma NoNeedMore()
    ensures !JsText.Contains(DeadlineText, "need more")
  {
    assert 'm' !in DeadlineText;
    if JsText.Contains(DeadlineText, "need more") {
      JsText.ContainedCharsOccur(DeadlineText, "need more", 'm');
    }
  }

  /** A model that always answers the counterexample text gives that text as the reply. */
  lemma DeadlineReply(prompt: string, model: string -> ModelCall)
    requires forall p :: model(p) == ModelAnswered(Some(DeadlineText))
    ensures GenerateAIResponse(model(prompt)) == Ok(DeadlineText)
  {
    assert model(prompt) == ModelAnswered(Some(DeadlineText));
  }

  /** The discrepancy on one input: an employee whose answer mentions a deadline gets
      the error as written, but the answer once notifications are sent. */
  lemma DeadlineAnswerIsLost(attendanceJson: string, tasksJson: string, message: string, model: string -> ModelCall)
    requires forall p :: model(p) == ModelAnswered(Some(DeadlineText))
    ensures HandleUserMessage(attendanceJson, tasksJson, message, "user", model) == Failure(ChatError)
    ensures HandleUserMessageIntended(attendanceJson, tasksJson, message, "user", model, false)
            == Handled(Answer(DeadlineText, false), ["relevant_users"])
  {
    DeadlineReply(BuildChatPrompt(attendanceJson, tasksJson, message, "user"), model);
    DeadlineTextTriggers();
    DeadlineTextAsksNothing();
  }

  // ---------------------------------------------------------------------------
  // Realtime notifications

  /** One row inserted into `notifications`. */
  datatype Notification = Notification(userId: JsValue, message: string, kind: string, systemGenerated: bool)

  /** `sendUserNotification`. */
  function UserNotice(userId: JsValue, message: string): Notification {
    Notification(userId, message, "chatbot", true)
  }

  /** The notices `sendTaskNotifications` inserts for the assignee rows, in row order. */
  function TaskNotices(rows: seq<map<string, JsValue>>, message: string): (r: seq<Notification>)
    ensures |r| == |rows|
    ensures forall k :: 0 <= k < |rows| ==> r[k] == UserNotice(Get(rows[k], "user_id"), message)
  {
    if rows == [] then [] else [UserNotice(Get(rows[0], "user_id"), message)] + TaskNotices(rows[1..], message)
  }

  /** Each assignee row yields exactly one notice, so a user assigned twice is told twice
      and a user with no row is not told at all. */
  lemma TaskNoticesPerAssignee(rows: seq<map<string, JsValue>>, message: string, u: JsValue)
    ensures |set k | 0 <= k < |rows| && TaskNotices(rows, message)[k].userId == u|
         == |set k | 0 <= k < |rows| && Get(rows[k], "user_id") == u|
  {
    var r := TaskNotices(rows, message);
    assert (set k | 0 <= k < |rows| && r[k].userId == u) == (set k | 0 <= k < |rows| && Get(rows[k], "user_id") == u);
  }

  /** The `notifications` table as far as these handlers write to it. */
  class NotificationLog {
    var notifications: seq<Notification>

    constructor ()
      ensures notifications == []
    {
      notifications := [];
    }

    /** `sendTaskNotifications`: `assignees` is the query's data; `None` is a `null`
        result, on which the `for … of` throws before inserting anything. */
    method SendTaskNotifications(assignees: Option<seq<map<string, JsValue>>>, message: string)
      returns (threw: bool)
      modifies this
      ensures threw <==> assignees.None?
      ensures assignees.None? ==> notifications == old(notifications)
      ensures assignees.Some? ==> notifications == old(notifications) + TaskNotices(assignees.value, message)
    {
      if assignees.None? {
        return true;
      }
      var rows := assignees.value;
      var i := 0;
      while i < |rows|
        invariant 0 <= i <= |rows|
        invariant notifications == old(notifications) + TaskNotices(rows[..i], message)
      {
        assert TaskNotices(rows[..i + 1], message) == TaskNotices(rows[..i], message) + [UserNotice(Get(rows[i], "user_id"), message)];
        notifications := notifications + [UserNotice(Get(rows[i], "user_id"), message)];
        i := i + 1;
      }
      assert rows[..i] == rows;
      threw := false;
    }

    /** `handleRealTimeUpdate` for a change to `table`. `model` answers the notification
        prompt; `assigneesOf` is the assignee query's data per task id. A thrown model
        call is not caught, so no notification follows it. */
    method HandleRealTimeUpdate(table: string, eventType: string, record: map<string, JsValue>, recordJson: string,
                                model: string -> ModelCall, assigneesOf: JsValue -> Option<seq<map<string, JsValue>>>)
      modifies this
      ensures table != "attendance" && table != "tasks" ==> notifications == old(notifications)
      ensures table == "attendance" ==>
        var m := GenerateNotificationMessage(model(NotificationPrompt("attendance", eventType, recordJson)));
        notifications == old(notifications) + (if m.Ok? then [Notification(Get(record, "user_id"), "attendance update: " + m.value, "system", false)] else [])
      ensures table == "tasks" ==>
        var m := GenerateNotificationMessage(model(NotificationPrompt("task", eventType, recordJson)));
        var rows := assigneesOf(Get(record, "id"));
        notifications == old(notifications) + (if m.Ok? && rows.Some? then TaskNotices(rows.value, m.value) else [])
    {
      if table == "attendance" {
        var m := GenerateNotificationMessage(model(NotificationPrompt("attendance", eventType, recordJson)));
        if m.Err? {
          return;
        }
        notifications := notifications + [Notification(Get(record, "user_id"), "attendance update: " + m.value, "system", false)];
      }
      if table == "tasks" {
        var m := GenerateNotificationMessage(model(NotificationPrompt("task", eventType, recordJson)));
        if m.Err? {
          return;
        }
        var _ := SendTaskNotifications(assigneesOf(Get(record, "id")), m.value);
      }
    }
  }
}
