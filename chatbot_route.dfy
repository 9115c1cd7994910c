/** The backend chatbot router (Backend/routes/chatbot.js): today's attendance and the
    task list become a one-line context, which is put into the prompt for the model,
    and the export route hands a fixed column list to the CSV writer. */
module ChatbotRoute {
  import opened Outcomes
  import opened JsValues
  import JsText

  /** A row of today's attendance: the name as rendered, and the check-in time, `None`
      for a missing or null one. */
  datatype AttendanceEntry = AttendanceEntry(name: string, checkInTime: Option<string>)

  /** A task row, each field as rendered into the template. */
  datatype TaskEntry = TaskEntry(assignedTo: string, status: string, taskTitle: string)

  function AttendanceLine(d: AttendanceEntry): (line: string)
    ensures d.checkInTime.Some? && d.checkInTime.value != "" ==> line == d.name + ": " + d.checkInTime.value
    ensures d.checkInTime.None? || d.checkInTime.value == "" ==> line == d.name + ": not checked in"
  {
    d.name + ": " + (if d.checkInTime.Some? && d.checkInTime.value != "" then d.checkInTime.value else "not checked in")
  }

  /** "assignee - title (status)". */
  function TaskLine(t: TaskEntry): (line: string)
    ensures JsText.StartsWith(line, t.assignedTo + " - ")
    ensures JsText.Contains(line, t.taskTitle)
    ensures JsText.Contains(line, "(" + t.status + ")") && line[|line| - 1] == ')'
    ensures |line| >= |t.status| + 3 && line[|line| - |t.status| - 3..] == " (" + t.status + ")"
  {
    var lead := t.assignedTo + " - ";
    var head := lead + t.taskTitle + " ";
    var tail := "(" + t.status + ")";
    assert (head + tail)[..|lead|] == lead;
    JsText.ContainsItself(t.taskTitle);
    JsText.ContainsInRight(lead, t.taskTitle, t.taskTitle);
    JsText.ContainsInLeft(lead + t.taskTitle, " ", t.taskTitle);
    JsText.ContainsInLeft(head, tail, t.taskTitle);
    JsText.ContainsItself(tail);
    JsText.ContainsInRight(head, tail, tail);
    assert (head + tail)[|head| - 1..] == " " + tail;
    head + tail
  }

  function AttendanceLines(rows: seq<AttendanceEntry>): (r: seq<string>)
    ensures |r| == |rows| && forall k :: 0 <= k < |rows| ==> r[k] == AttendanceLine(rows[k])
  {
    if rows == [] then [] else [AttendanceLine(rows[0])] + AttendanceLines(rows[1..])
  }

  function TaskLines(rows: seq<TaskEntry>): (r: seq<string>)
    ensures |r| == |rows| && forall k :: 0 <= k < |rows| ==> r[k] == TaskLine(rows[k])
  {
    if rows == [] then [] else [TaskLine(rows[0])] + TaskLines(rows[1..])
  }

  function AttendanceSummary(rows: seq<AttendanceEntry>): string {
    JsText.Join(AttendanceLines(rows), ", ")
  }

  function TaskSummary(rows: seq<TaskEntry>): string {
    JsText.Join(TaskLines(rows), ", ")
  }

  /** The context line: every attendance row and every task appears in it. */
  function Context(attendance: seq<AttendanceEntry>, tasks: seq<TaskEntry>): (ctx: string)
    ensures forall k :: 0 <= k < |attendance| ==> JsText.Contains(ctx, AttendanceLine(attendance[k]))
    ensures forall k :: 0 <= k < |tasks| ==> JsText.Contains(ctx, TaskLine(tasks[k]))
  {
    var a := AttendanceSummary(attendance);
    var t := TaskSummary(tasks);
    var head := "Attendance Today: " + a + " | Tasks: ";
    assert forall k :: 0 <= k < |attendance| ==> JsText.Contains(head + t, AttendanceLine(attendance[k])) by {
      forall k | 0 <= k < |attendance|
        ensures JsText.Contains(head + t, AttendanceLine(attendance[k]))
      {
        var line := AttendanceLine(attendance[k]);
        JsText.JoinContains(AttendanceLines(attendance), ", ", k);
        JsText.ContainsInRight("Attendance Today: ", a, line);
        JsText.ContainsInLeft("Attendance Today: " + a, " | Tasks: ", line);
        JsText.ContainsInLeft(head, t, line);
      }
    }
    assert forall k :: 0 <= k < |tasks| ==> JsText.Contains(head + t, TaskLine(tasks[k])) by {
      forall k | 0 <= k < |tasks|
        ensures JsText.Contains(head + t, TaskLine(tasks[k]))
      {
        JsText.JoinContains(TaskLines(tasks), ", ", k);
        JsText.ContainsInRight(head, t, TaskLine(tasks[k]));
      }
    }
    head + t
  }

  function Quoted(message: string): string {
    "\"" + message + "\""
  }

  const PromptLead: string := "You are an assistant for a Project Management Dashboard. Based on this data: "
  const PromptTail: string := ". Respond with a helpful summary."

  /** The prompt carries the whole context and quotes the user's message. */
  function Prompt(context: string, message: string): (p: string)
    ensures JsText.Contains(p, context)
    ensures JsText.Contains(p, Quoted(message))
  {
    var q := Quoted(message);
    var asked := PromptLead + context + ". User asked: ";
    JsText.ContainsItself(context);
    JsText.ContainsInRight(PromptLead, context, context);
    JsText.ContainsInLeft(PromptLead + context, ". User asked: ", context);
    JsText.ContainsInLeft(asked, q, context);
    JsText.ContainsInLeft(asked + q, PromptTail, context);
    JsText.ContainsItself(q);
    JsText.ContainsInRight(asked, q, q);
    JsText.ContainsInLeft(asked + q, PromptTail, q);
    asked + q + PromptTail
  }

  /** What `generateContent` gave: it threw, it resolved without a `response`, or the
      response's text. */
  datatype ModelResult = ModelThrew(message: string) | NoResponse | Text(reply: string)

  datatype Response = Response(status: int, body: map<string, JsValue>)

  /** `POST /`: both queries always run; an error from either ends the request before the
      model is asked. */
  function HandleChat(message: string, attendance: Result<seq<AttendanceEntry>>, tasks: Result<seq<TaskEntry>>,
                      model: string -> ModelResult): (r: Response)
    ensures r.status == 200 || r.status == 500
    ensures r.status == 200 <==>
      attendance.Ok? && tasks.Ok? && model(Prompt(Context(attendance.value, tasks.value), message)).Text?
    ensures r.status == 500 ==> "error" in r.body
  {
    if attendance.Err? || tasks.Err? then Response(500, map["error" := Str("Error fetching from Supabase")])
    else
      match model(Prompt(Context(attendance.value, tasks.value), message))
      case ModelThrew(m) => Response(500, map["error" := Str("Failed to respond"), "details" := Str(m)])
      case NoResponse => Response(500, map["error" := Str("Failed to respond"), "details" := Str("Gemini did not return a response")])
      case Text(reply) => Response(200, map["reply" := Str(reply)])
  }

  /** A fetch error is the fixed 500 "Error fetching from Supabase", whatever the model
      would have said. */
  lemma FetchErrorSkipsModel(message: string, attendance: Result<seq<AttendanceEntry>>, tasks: Result<seq<TaskEntry>>,
                             model1: string -> ModelResult, model2: string -> ModelResult)
    requires attendance.Err? || tasks.Err?
    ensures HandleChat(message, attendance, tasks, model1) == HandleChat(message, attendance, tasks, model2)
    ensures HandleChat(message, attendance, tasks, model1) == Response(500, map["error" := Str("Error fetching from Supabase")])
  {
  }

  /** With both lists fetched, the reply is exactly the model's text for the prompt built
      from them, and a missing response is a 500 "Failed to respond" like a thrown one,
      with its own details. */
  lemma ChatReplyIsModelText(message: string, attendance: seq<AttendanceEntry>, tasks: seq<TaskEntry>, model: string -> ModelResult)
    ensures var r := HandleChat(message, Ok(attendance), Ok(tasks), model);
            var m := model(Prompt(Context(attendance, tasks), message));
            && (r.status == 200 <==> m.Text?)
            && (m.Text? ==> r.body == map["reply" := Str(m.reply)])
            && (m.NoResponse? ==> r.body == map["error" := Str("Failed to respond"), "details" := Str("Gemini did not return a response")])
            && (m.ModelThrew? ==> r.body == map["error" := Str("Failed to respond"), "details" := Str(m.message)])
  {
  }

  // ---------------------------------------------------------------------------
  // `GET /export`

  const ExportFields: seq<string> := ["id", "user_id", "status", "latitude", "longitude", "timestamp"]

  /** The export's answer: a JSON error, or the rows given to the CSV writer with its
      column list and the attachment's file name. */
  datatype ExportReply = ExportError(status: int, error: string) | CsvFile(fields: seq<string>, rows: seq<JsValue>, filename: string)

  function HandleExport(fetched: Result<seq<JsValue>>): (r: ExportReply)
    ensures fetched.Err? ==> r == ExportError(500, "Failed to fetch attendance data")
    ensures fetched.Ok? ==> r.CsvFile? && r.rows == fetched.value && r.fields == ExportFields
  {
    match fetched
    case Err(_) => ExportError(500, "Failed to fetch attendance data")
    case Ok(data) => CsvFile(ExportFields, data, "attendance_export.csv")
  }

  /** The column list is fixed: six distinct names in one order, whatever the rows. */
  lemma ExportColumnsFixed(data1: seq<JsValue>, data2: seq<JsValue>)
    ensures HandleExport(Ok(data1)).fields == HandleExport(Ok(data2)).fields
    ensures |ExportFields| == 6 && forall i, j :: 0 <= i < j < 6 ==> ExportFields[i] != ExportFields[j]
  {
  }
}
