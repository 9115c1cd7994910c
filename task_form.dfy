/** The task form (src/components/Task/TaskFrom.jsx): the new row is inserted first; only
    then is a calendar event attempted, and its failure never undoes the insert. */
module TaskForm {
  import opened Outcomes

  const HourMs: int := 3600000

  /** The signed-in user as `getUser` reports it. */
  datatype AuthUser = AuthUser(id: string, email: string)

  /** The row inserted into `tasks`. */
  datatype NewTask = NewTask(userId: string, title: string, description: string, dueDate: string)

  /** The calendar event; instants are milliseconds since the epoch. */
  datatype CalendarEvent = CalendarEvent(summary: string, description: string, startMs: int, endMs: int, attendees: seq<string>)

  /** What `createGoogleCalendarEvent` did: it threw, or it answered with its `success`
      flag and `error` text. */
  datatype SyncOutcome = SyncThrew(message: string) | SyncReplied(success: bool, error: string)

  /** The banner: its text and its type, "success" or "error". */
  datatype Notice = Notice(text: string, kind: string)

  const SyncedText: string := "✅ Task Created & Synced with Google Calendar."

  /** The calendar part of the handler, run once the insert succeeded. `accessToken` is
      the configured token ("" when unset); `dueMs` is the due date as an instant, `None`
      when it does not parse, where building the event throws. Returns the banner and
      the event handed to the calendar, if any. */
  function CalendarStep(accessToken: string, dueMs: Option<int>, title: string, description: string, email: string,
                        sync: CalendarEvent -> SyncOutcome): (r: (Notice, Option<CalendarEvent>))
    ensures r.0.kind == "success" <==> r.1.Some? && sync(r.1.value).SyncReplied? && sync(r.1.value).success
    ensures r.0.kind == "success" ==> r.0.text == SyncedText
    ensures r.0.kind != "success" ==> r.0.kind == "error"
    ensures r.1.Some? <==> accessToken != "" && dueMs.Some?
    ensures r.1.Some? ==> r.1.value.endMs == r.1.value.startMs + HourMs && r.1.value.attendees == [email]
    ensures r.1.Some? ==>
      r.1.value.startMs == dueMs.value && r.1.value.summary == title && r.1.value.description == description
    ensures accessToken == "" ==> r.0 == Notice("Google Calendar Error: Missing VITE_GOOGLE_ACCESS_TOKEN", "error")
    ensures accessToken != "" && dueMs.None? ==> r.0 == Notice("Google Calendar Error: Invalid time value", "error")
    ensures r.1.Some? && sync(r.1.value).SyncThrew? ==>
      r.0 == Notice("Google Calendar Error: " + sync(r.1.value).message, "error")
    ensures r.1.Some? && sync(r.1.value).SyncReplied? && !sync(r.1.value).success ==>
      r.0 == Notice("⚠️ Task saved but failed to sync: " + sync(r.1.value).error, "error")
  {
    if accessToken == "" then (Notice("Google Calendar Error: Missing VITE_GOOGLE_ACCESS_TOKEN", "error"), None)
    else if dueMs.None? then (Notice("Google Calendar Error: Invalid time value", "error"), None)
    else
      var event := CalendarEvent(title, description, dueMs.value, dueMs.value + HourMs, [email]);
      match sync(event)
      case SyncThrew(m) => (Notice("Google Calendar Error: " + m, "error"), Some(event))
      case SyncReplied(ok, err) =>
        if ok then (Notice(SyncedText, "success"), Some(event))
        else (Notice("⚠️ Task saved but failed to sync: " + err, "error"), Some(event))
  }

  class TaskForm {
    var title: string
    var description: string
    var dueDate: string
    var message: string
    var messageType: string
    /** Rows inserted into `tasks`. */
    var tasks: seq<NewTask>
    /** Events handed to the calendar. */
    var events: seq<CalendarEvent>

    constructor ()
      ensures title == "" && description == "" && dueDate == "" && message == "" && messageType == ""
      ensures tasks == [] && events == []
    {
      title, description, dueDate := "", "", "";
      message, messageType := "", "";
      tasks, events := [], [];
    }

    /** `handleSubmit`. `insertError` is the insert's error, if any, in which case no row
        is added; the other inputs are those of `CalendarStep`. */
    method HandleSubmit(user: Option<AuthUser>, insertError: Option<string>, accessToken: string, dueMs: Option<int>,
                        sync: CalendarEvent -> SyncOutcome)
      modifies this
      ensures user.None? ==>
        && message == "Authentication Error: Please log in to create tasks." && messageType == "error"
        && tasks == old(tasks) && events == old(events)
        && title == old(title) && description == old(description) && dueDate == old(dueDate)
      ensures user.Some? && insertError.Some? ==>
        && message == "Supabase Error: " + insertError.value && messageType == "error"
        && tasks == old(tasks) && events == old(events)
        && title == old(title) && description == old(description) && dueDate == old(dueDate)
      ensures user.Some? && insertError.None? ==>
        var r := CalendarStep(accessToken, dueMs, old(title), old(description), user.value.email, sync);
        && tasks == old(tasks) + [NewTask(user.value.id, old(title), old(description), old(dueDate))]
        && events == old(events) + (if r.1.Some? then [r.1.value] else [])
        && message == r.0.text && messageType == r.0.kind
        && title == "" && description == "" && dueDate == ""
    {
      if user.None? {
        message := "Authentication Error: Please log in to create tasks.";
        messageType := "error";
        return;
      }
      if insertError.Some? {
        message := "Supabase Error: " + insertError.value;
        messageType := "error";
        return;
      }
      tasks := tasks + [NewTask(user.value.id, title, description, dueDate)];
      var r := CalendarStep(accessToken, dueMs, title, description, user.value.email, sync);
      if r.1.Some? {
        events := events + [r.1.value];
      }
      message := r.0.text;
      messageType := r.0.kind;
      title := "";
      description := "";
      dueDate := "";
    }
  }
}
