# HR dashboard decision logic in Dafny

This project models the decision logic of an HR web application: a React front end and an
Express back end over a hosted database, a calendar service, a video-meeting service and a
language model. Every call to one of those services is replaced by an input holding its
possible answers: data, an error, or a thrown exception. What is left is the application's
own logic:

- the admin's per-user attendance table;
- the check-in/check-out button with its elapsed-time text;
- the leave-request workflow;
- meeting scheduling on both the client and the server;
- the chatbot routes and notification rules;
- the role resolvers, route guards and sign-in navigation;
- account signup and login;
- three small front-end state machines.

One Dafny module models each source file. Three shared modules model JavaScript itself:

- `Outcomes` holds `Option` and `Result`.
- `JsValues` holds JSON values and truthiness.
- `JsText` holds `toLowerCase`, `includes`, `trim`, `split`, `join` and integer rendering.

React components whose handlers update state become classes. Their `useState` values are
fields, and each handler is a method whose postcondition gives the whole new state.
Expression-only code becomes functions, and lemmas state what the code promises. Tables
that the code inserts into are modelled as sequence fields.

## Model

| member | source | states |
|---|---|---|
| AttendanceMonitor.GroupByUser | src/components/Attendance/AdminAttendanceMonitor.jsx:25-44 | the grouping loop gives one row per distinct user id; each row holds that user's first check-in time and its location, and the last check-out time |
| AttendanceMonitor.AdminAttendanceMonitor.FetchAttendance | src/components/Attendance/AdminAttendanceMonitor.jsx:19-44 | on a fetch error the displayed rows are unchanged; otherwise they summarise the fetched events |
| AttendanceMonitor.FirstCheckinSnoc | src/components/Attendance/AdminAttendanceMonitor.jsx:36-38 | a later check-in never replaces an earlier one |
| AttendanceMonitor.ExpectedDaySnoc | src/components/Attendance/AdminAttendanceMonitor.jsx:36-41 | one more event changes only its own user's row, as the loop body does, and each check-out overwrites the previous one |
| AttendanceMonitor.AbsentUserDay | src/components/Attendance/AdminAttendanceMonitor.jsx:27-34 | a user not yet seen starts with a row whose fields are all null |
| AttendanceMonitor.GroupedStep | src/components/Attendance/AdminAttendanceMonitor.jsx:26-42 | one loop iteration keeps the dictionary and its key order an exact summary of the events processed so far |
| AttendanceMonitor.DistinctCard | src/components/Attendance/AdminAttendanceMonitor.jsx:44 | the distinct keys of the dictionary give as many rows as there are users |
| AttendanceMonitor.RowWithoutCheckin | src/components/Attendance/AdminAttendanceMonitor.jsx:29-38 | a row has no check-in exactly when it has no location, and exactly when its user has no check-in event |
| AttendanceMonitor.EveryUserHasRow | src/components/Attendance/AdminAttendanceMonitor.jsx:27-34 | an event of any type, including one that is neither check-in nor check-out, gives its user a row |
| AttendanceButton.JsRem | src/components/Attendance/Attendancebutton.jsx:42 | JavaScript's `%` takes the sign of the dividend and has magnitude below the divisor |
| AttendanceButton.ElapsedBounds | src/components/Attendance/Attendancebutton.jsx:40-42 | for a non-negative difference, hours are non-negative, 0 <= minutes < 60, and hours and minutes bound the difference from below to the minute |
| AttendanceButton.ElapsedParts | src/components/Attendance/Attendancebutton.jsx:40-42 | for a non-negative difference, hours are non-negative and 0 <= minutes < 60; a negative difference gives negative hours and minutes between -60 and 0 |
| AttendanceButton.WorkedTextReadsBack | src/components/Attendance/Attendancebutton.jsx:44-47 | the text shows hours when hours > 0, otherwise minutes, always with ".00"; it adds "s" exactly when the value exceeds 1, and the number can be read back from the text |
| AttendanceButton.PartsTextReadsBack | src/components/Attendance/Attendancebutton.jsx:44-47 | for non-negative hours and minutes, the text's leading numeral reads back as the shown value, followed by ".00 ", the unit, and "s" exactly when the value exceeds 1 |
| AttendanceButton.UnderAMinute | src/components/Attendance/Attendancebutton.jsx:44-47 | under a minute the text is "0.00 min" |
| AttendanceButton.LatestCheckinIsLatest | src/components/Attendance/Attendancebutton.jsx:24-31 | the check-out lookup finds nothing exactly when the user has no check-in; otherwise it gives the latest check-in time of any day |
| AttendanceButton.LatestCheckinIgnoresOthers | src/components/Attendance/Attendancebutton.jsx:27-28 | rows of other users do not affect the lookup |
| AttendanceButton.AttendanceButtons.HandleAttendance | src/components/Attendance/Attendancebutton.jsx:8-63 | the guards insert nothing; a check-out without a check-in alerts and inserts nothing; a check-in inserts with no lookup; the confirmation quotes the work hours from before the handler ran |
| LeaveAdmin.MergeStatus | src/components/Attendance/AdminLeaverequest.jsx:59-63 | the realtime merge keeps length, order, ids and all other fields, and changes only the status of rows with the patched id |
| LeaveAdmin.MergeIdempotent | src/components/Attendance/AdminLeaverequest.jsx:60-62 | applying the same patch twice equals applying it once |
| LeaveAdmin.MergeUnknownId | src/components/Attendance/AdminLeaverequest.jsx:60-62 | a patch for an id not in the list leaves the list unchanged |
| LeaveAdmin.MergeLastWriteWins | src/components/Attendance/AdminLeaverequest.jsx:60-62 | two patches of one id leave the later status |
| LeaveAdmin.MergeCommutes | src/components/Attendance/AdminLeaverequest.jsx:60-62 | patches of different ids commute |
| LeaveAdmin.ActionsOffered | src/components/Attendance/AdminLeaverequest.jsx:125-134 | Approve and Reject are each offered exactly while the status is "pending"; any other status offers nothing |
| LeaveAdmin.ActionsOnlyWhilePending | src/components/Attendance/AdminLeaverequest.jsx:125-134 | Approve and Reject are offered exactly when the status is "pending", and neither target status offers any action |
| LeaveAdmin.DecidedRowOffersNothing | src/components/Attendance/AdminLeaverequest.jsx:125-134 | once the chosen action's status is merged in, that row offers no more actions |
| LeaveAdmin.AdminLeaveRequests.FetchLeaveRequests | src/components/Attendance/AdminLeaverequest.jsx:12-48 | the list is queried only for an authenticated admin; otherwise the error is "User not authenticated" or "Access denied: Not an admin"; list errors fall back to "Failed to load leave requests"; loading ends false on every path |
| LeaveAdmin.AdminLeaveRequests.OnRealtimeUpdate | src/components/Attendance/AdminLeaverequest.jsx:57-63 | the list becomes the merge of the old list with the patch |
| LeaveAdmin.AdminLeaveRequests.UpdateStatus | src/components/Attendance/AdminLeaverequest.jsx:73-88 | the local list is never edited; a failure sets the fixed error |
| LeaveForm.LeaveRequestForm.FetchUser | src/components/LeaveRequest.jsx:14-24 | the user is set only when `getUser` succeeds with a user |
| LeaveForm.LeaveRequestForm.HandleSubmit | src/components/LeaveRequest.jsx:26-56 | with no user it alerts and inserts nothing; a successful insert adds one pending request copied from the fields and clears them; after an error the fields keep their values; loading ends false |
| LeaveForm.NewRequestIsActionable | src/components/LeaveRequest.jsx:41 | whatever the form fields, the row a submit inserts offers the admin exactly Approve and Reject |
| Schedule.TrimAll | src/components/pages/schedule.jsx:35-38 | each attendee piece is trimmed |
| Schedule.ParseAttendees | src/components/pages/schedule.jsx:35-38 | every parsed attendee is non-empty, comma-free and has no white space at either end |
| Schedule.DropEmpty | src/components/pages/schedule.jsx:38 | keeps exactly the non-empty pieces, each as many times as it occurs, and never adds one |
| Schedule.DropEmptyAppend | src/components/pages/schedule.jsx:38 | filtering a list filters each part of it on its own, so the kept pieces stay in order |
| Schedule.ParseKeepsEveryPiece | src/components/pages/schedule.jsx:35-38 | every comma-separated piece that is not blank appears in the parsed list, trimmed |
| Schedule.ParseAttendeesAppend | src/components/pages/schedule.jsx:35-38 | the text on either side of a comma is parsed on its own and the two lists are concatenated in order |
| Schedule.AttendeesRoundTrip | src/components/pages/schedule.jsx:35-38 | parsing clean addresses joined by commas gives back exactly those addresses |
| Schedule.IndexOf | src/components/pages/schedule.jsx:50-53 | gives the first position of a character |
| Schedule.EmailCheckIsPattern | src/components/pages/schedule.jsx:50-53 | an address passes the address check exactly when the regular expression matches it, both directions |
| Schedule.ValidEmailMatches | src/components/pages/schedule.jsx:50-53 | passing the address check implies matching the pattern: no white space, one '@' with text before it, and a '.' after it with a character on each side |
| Schedule.MatchingEmailIsValid | src/components/pages/schedule.jsx:50-53 | matching the pattern implies passing the address check |
| Schedule.Endpoint | src/components/pages/schedule.jsx:57-60 | "google" goes to the Google endpoint; any other platform goes to the Zoom endpoint |
| Schedule.Refusal | src/components/pages/schedule.jsx:40-53 | a form is sent exactly when title, date and time are filled in and at least one attendee is parsed, each matching the pattern; "All fields are required" exactly when a field or the list is empty; otherwise "Invalid email format" |
| Schedule.MeetingScheduler.BeginSubmit | src/components/pages/schedule.jsx:31-70 | a submit during scheduling does nothing; a refused form shows the refusal and sends nothing; otherwise it sends one request with the parsed attendee list to the routed URL |
| Schedule.MeetingScheduler.CompleteSubmit | src/components/pages/schedule.jsx:72-87 | the form resets to its defaults only on success; the error texts fall back to "Scheduling failed" and "Error occurred"; scheduling ends false every time |
| MeetingServer.LoadMeetings | Backend/server.js:28-35 | a failed read or parse gives the empty list |
| MeetingServer.MeetingDataError | Backend/server.js:55-61 | a request passes exactly when title, date and time are truthy and attendees is an array; otherwise it gets 400 "Missing or invalid fields" |
| MeetingServer.EmptyAttendeesPass | Backend/server.js:57 | an empty attendee array passes |
| MeetingServer.StoredMeeting | Backend/server.js:96-111 | the stored entry is the body with platform and link set, overriding any client-sent platform |
| MeetingServer.AttendeeObjects | Backend/server.js:80 | each attendee becomes one `{email}` object, in order |
| MeetingServer.GoogleEvent | Backend/server.js:73-80 | the event ends exactly one hour after it starts |
| MeetingServer.MeetingStore.constructor | Backend/server.js:41 | the list starts as the loaded meetings |
| MeetingServer.MeetingStore.ScheduleGoogle | Backend/server.js:70-105 | a rejected body appends nothing; a calendar failure appends nothing and gives 500; a success appends one entry at the end, which stays even if saving the file then fails |
| MeetingServer.MeetingStore.ScheduleZoom | Backend/server.js:108-119 | a valid body appends exactly one zoom entry at the end |
| MeetingServer.MeetingStore.AllMeetings | Backend/server.js:122-124 | returns every stored entry, in order |
| MeetingServer.FoundReplyReadsBack | Backend/server.js:144-161 | the record count can be read back from the "Found N ..." reply |
| MeetingServer.ChatbotRoute | Backend/server.js:127-171 | the answer is 400 exactly when the query is missing or falsy; a truthy non-string query is the catch-all 500; no status but 200, 400 and 500 |
| MeetingServer.TopicReply | Backend/server.js:132-166 | a topic is answered 200, or 500 exactly when the table it reads failed, and then only with "Error fetching attendance" or "Error fetching tasks" for that topic |
| MeetingServer.ChatbotAttendanceFirst | Backend/server.js:132-147 | a query mentioning attendance, in any case, never reads tasks |
| MeetingServer.ChatbotIgnoresCase | Backend/server.js:132-149 | routing ignores letter case |
| MeetingServer.QueryTopic | Backend/server.js:132-149 | a string query is about attendance exactly when its lower-cased text contains "attendance", and about tasks exactly when it contains "task" but not "attendance" |
| MeetingServer.RecordsReply | Backend/server.js:143-163 | a records answer is 200 with exactly the keys reply and records, holding the text and the rows |
| MeetingServer.ChatbotCountsRecords | Backend/server.js:143-146 | a fetched attendance list is answered with "Found N attendance records." and the rows themselves |
| MeetingServer.ChatbotCountsTasks | Backend/server.js:148-163 | a fetched task list, for a query naming tasks but not attendance, is answered with "Found N tasks." and the rows themselves, whatever the attendance result |
| MeetingServer.ChatbotDefault | Backend/server.js:166 | a query without either keyword gets the fixed reply |
| Summarize.CheckFollowUp | src/lib/summarize.js:16-18 | an answer asks for a follow-up exactly when it has a '?' or some stretch of it is "need more" in any letter case |
| Summarize.FollowUpIgnoresCase | src/lib/summarize.js:16-18 | follow-up detection ignores letter case |
| Summarize.FollowUpSurvivesAppend | src/lib/summarize.js:16-18 | a response that asks for a follow-up still does after more text is appended |
| Summarize.AnyKeyword | src/lib/summarize.js:188 | `some` over the keywords: true exactly when one keyword is contained |
| Summarize.Keywords | src/lib/summarize.js:184-186 | "admin" gets four keywords and every other role three, each non-empty and lower-case |
| Summarize.DetectNotificationRequirements | src/lib/summarize.js:183-191 | gives ["relevant_users"] exactly when the lower-cased response contains one of the role's keywords, otherwise [] |
| Summarize.DetectionIgnoresCase | src/lib/summarize.js:188 | detection ignores letter case |
| Summarize.DetectionNonAdmin | src/lib/summarize.js:184-186 | every role other than "admin" gets the employee keywords |
| Summarize.KeywordTriggers | src/lib/summarize.js:184-190 | a keyword anywhere in the response triggers notifications |
| Summarize.PromptRoleWording | src/lib/summarize.js:169-181 | the role string arrives as `isAdmin` (line 88), so any non-empty role, including 'user', selects the analytics line; only the empty string selects the personal line |
| Summarize.BuildChatPrompt | src/lib/summarize.js:169-181 | the prompt quotes the user's message and carries the wording the role string selects |
| Summarize.NotificationPrompt | src/lib/summarize.js:120 | the prompt starts with the kind and carries the event type and the whole stringified record |
| Summarize.TextOr | src/lib/summarize.js:100 | the candidate text is used when it is non-empty, otherwise the fallback, as at lines 100 and 132 |
| Summarize.GenerateAIResponse | src/lib/summarize.js:87-101 | a thrown call stays an error; a non-empty candidate text is returned as is, and only a missing or empty text falls back to the fixed apology |
| Summarize.GenerateNotificationMessage | src/lib/summarize.js:119-133 | a non-empty candidate text is returned as is, and only a missing or empty text falls back to "System update occurred."; a thrown call is not caught |
| Summarize.ContextScope | src/lib/summarize.js:61-81 | an admin's queries cover everyone; any other role's queries cover only that user; attendance starts from today |
| Summarize.GetContextData | src/lib/summarize.js:56-84 | the context data is the result of the role's two queries |
| Summarize.HandleUserMessage | src/lib/summarize.js:38-53 | as written, an answer comes back only when the model answered and no notification keyword occurs; every other case gives the fixed error object |
| Summarize.HandleUserMessageIntended | src/lib/summarize.js:38-53 | the corrected handler returns the fixed error or an answer with its follow-up flag |
| Summarize.IntendedHandlerAnswers | src/lib/summarize.js:42-48 | the corrected handler answers whenever the model answered, notifies exactly when the target list is non-empty, and agrees with the code as written when there are no targets |
| Summarize.DeadlineAnswerIsLost | src/lib/summarize.js:44-45 | an employee answer mentioning a deadline gives the error as written, but the answer plus one notification as intended |
| Summarize.DeadlineTextTriggers | src/lib/summarize.js:186-190 | the counterexample answer triggers notifications |
| Summarize.DeadlineTextAsksNothing | src/lib/summarize.js:17 | the counterexample answer asks for no follow-up |
| Summarize.TaskNotices | src/lib/summarize.js:157-166 | one 'chatbot' notice per assignee row, in row order |
| Summarize.TaskNoticesPerAssignee | src/lib/summarize.js:163-165 | each user is notified once per assignee row naming them |
| Summarize.NotificationLog.SendTaskNotifications | src/lib/summarize.js:157-166 | the loop inserts exactly the per-assignee notices; a null assignee result throws before any insert |
| Summarize.NotificationLog.HandleRealTimeUpdate | src/lib/summarize.js:104-116 | an attendance change inserts exactly one 'system' notice for `record.user_id` with "attendance update: "; a task change fans out to the assignees; a thrown model call inserts nothing |
| ChatbotRoute.AttendanceLine | Backend/routes/chatbot.js:29 | a row renders "name: time", or "name: not checked in" when the time is falsy |
| ChatbotRoute.AttendanceLines | Backend/routes/chatbot.js:29 | one rendered line per attendance row, in order |
| ChatbotRoute.TaskLines | Backend/routes/chatbot.js:29 | one "assignee - title (status)" line per task, in order |
| ChatbotRoute.Context | Backend/routes/chatbot.js:29 | every attendance line and every task line appears in the context |
| ChatbotRoute.TaskLine | Backend/routes/chatbot.js:29 | the line starts with the assignee and " - ", contains the title, and ends with the status in parentheses after a space |
| ChatbotRoute.Prompt | Backend/routes/chatbot.js:31 | the prompt contains the whole context and the user's message in double quotes |
| ChatbotRoute.HandleChat | Backend/routes/chatbot.js:10-43 | the answer is 200 exactly when both fetches succeeded and the model gave a text; otherwise it is 500 with an error field |
| ChatbotRoute.FetchErrorSkipsModel | Backend/routes/chatbot.js:24-27 | either fetch error gives exactly the 500 "Error fetching from Supabase", whatever the model would say |
| ChatbotRoute.ChatReplyIsModelText | Backend/routes/chatbot.js:33-41 | the reply is the model's text; a thrown call or a missing response is a 500 "Failed to respond" with the thrown message or the fixed details |
| ChatbotRoute.HandleExport | Backend/routes/chatbot.js:46-69 | a fetch error gives 500 "Failed to fetch attendance data"; otherwise the rows go to the CSV writer with the fixed columns |
| ChatbotRoute.ExportColumnsFixed | Backend/routes/chatbot.js:57-59 | the six distinct columns do not depend on the data |
| GeminiHandler.Classify | src/components/pages/gemini.js:13-18 | "attendance" wins over "task"; both tests are on the lower-cased query |
| GeminiHandler.ClassifyIgnoresCase | src/components/pages/gemini.js:14-16 | classification ignores letter case |
| GeminiHandler.LookupsScoped | src/components/pages/gemini.js:23-39 | both lookups filter on the user id; attendance starts seven days back; tasks exclude "done" |
| GeminiHandler.Handle | src/components/pages/gemini.js:7-52 | any method other than POST gets 405 and no lookup; a lookup is made exactly for a POST whose string query is classified; 400 exactly for an unclassified string query; 200 only after a lookup; no other status |
| GeminiHandler.UnknownQueryReadsNothing | src/components/pages/gemini.js:20 | a query with neither keyword gets 400 and no lookup |
| GeminiHandler.AttendanceQueryWins | src/components/pages/gemini.js:14-28 | an attendance query reads the user's attendance from seven days back, even if it also mentions tasks |
| GeminiHandler.NullDataAndFailures | src/components/pages/gemini.js:29-51 | null data is summarised as []; a model failure gives the fixed 500 |
| GeminiHandler.MissingQueryFails | src/components/pages/gemini.js:10-51 | a missing or non-string query gives the fixed 500 and no lookup |
| AuthRoutes.ValidatorLength | Backend/routes/authRoutes.js:12 | the length `isLength` measures is at most the number of characters, and equals it exactly when no character is a variation selector |
| AuthRoutes.SignupErrors | Backend/routes/authRoutes.js:9-15 | no errors exactly when the name is non-empty, the email is valid and the password has at least 6 characters other than the variation selectors U+FE0E and U+FE0F |
| AuthRoutes.SelectorIsNotCounted | Backend/routes/authRoutes.js:12 | "abcde" followed by U+FE0F has six characters yet fails the at-least-6 check |
| AuthRoutes.EffectiveRole | Backend/routes/authRoutes.js:29 | an omitted role becomes 'employee'; a given role is kept |
| AuthRoutes.FindByEmail | Backend/routes/authRoutes.js:20-50 | the lookup finds a stored user with that address, or reports that none exists |
| AuthRoutes.UserStore.Signup | Backend/routes/authRoutes.js:9-37 | validation errors give 400 with no lookup; a duplicate email gives 400 "User already exists"; faults give 500 "Server error"; all of these leave the store unchanged; otherwise one user is appended with the hashed password and the effective role; unique emails are preserved |
| AuthRoutes.LoginErrors | Backend/routes/authRoutes.js:40-45 | no errors exactly when the email is valid and a password is present |
| AuthRoutes.Login | Backend/routes/authRoutes.js:40-67 | validation errors give 400 with only the error list; a failed lookup gives 500; 200 exactly for a stored address whose hash matches the password; no other status |
| AuthRoutes.LoginDoesNotRevealAccounts | Backend/routes/authRoutes.js:51-54 | an unknown email and a wrong password get the identical 400 "Invalid Credentials" |
| AuthRoutes.LoginSuccess | Backend/routes/authRoutes.js:53-62 | success only for a stored user with a matching hash; the token signs {id, role} for "1h"; the returned user has id, name and role, and no password |
| AuthRoutes.SignedUpUserCanLogIn | Backend/routes/authRoutes.js:20-62 | a user just signed up can log in with the password given |
| AuthRoutes.FindAppended | Backend/routes/authRoutes.js:25-50 | a new address appended to the store is found by the login lookup |
| UserRole.GetUserRole | src/services/getUserRole.js:3-44 | the role is never empty, and anything but "guest" is the stored role of the session user's own profile |
| UserRole.StoredRoleReturned | src/services/getUserRole.js:36-39 | a stored non-empty role comes back unchanged |
| UserRole.NoUserNoLookup | src/services/getUserRole.js:11-20 | a session error or no user id gives "guest" without a lookup |
| UserRole.OnlyOwnRowRead | src/services/getUserRole.js:25-29 | only the session user's own profile row matters |
| RoleBased.GetUserRoleStrict | src/components/Routes/Rolebased.jsx:3-15 | null without a user; a lookup error is thrown; otherwise the stored role comes back as is |
| RoleBased.StrictAgreesWithLenient | src/components/Routes/Rolebased.jsx:6-12 | the strict resolver throws where the lenient one gives "guest", and the two agree on every stored non-empty role |
| ProtectedRoute.Decide | src/components/Auth/ProtectedRoute.jsx:27-30 | the placeholder shows exactly while loading; the children show exactly when the role equals the required role |
| ProtectedRoute.GuestIsRedirected | src/components/Auth/ProtectedRoute.jsx:28 | "guest" never opens a guarded route |
| ProtectedRoute.ProtectedRoute.FetchRole | src/components/Auth/ProtectedRoute.jsx:10-22 | a user error keeps the role null; otherwise the role comes from the lenient resolver; loading ends false |
| ProtectedRoute.FetchedDecision | src/components/Auth/ProtectedRoute.jsx:13-30 | after the fetch the guard opens exactly when the resolved role equals the required role; a user error redirects |
| AppRoutes.RequiredRole | src/App.jsx:59-93 | /tasks and /admin require "admin", /employee-dashboard requires "employee", every other path is unguarded |
| AppRoutes.LandingPage | src/App.jsx:23-27 | "admin" lands on /admin; every other role lands on /employee-dashboard |
| AppRoutes.LandingIsAdmitted | src/App.jsx:20-86 | the landing page admits exactly "admin" and "employee"; any other role goes on to /login |
| AppRoutes.AuthChangeHandler.HandleAuthChange | src/App.jsx:19-32 | SIGNED_IN sets the resolved role and navigates by role; SIGNED_OUT clears it and goes to "/"; any other event changes nothing |
| TaskForm.CalendarStep | src/components/Task/TaskFrom.jsx:42-70 | the type is "success" exactly when an event was sent and the calendar reported success; otherwise the banner is the missing-token, invalid-date, "Google Calendar Error: " or "Task saved but failed to sync: " text; the event is titled and described as the task, starts at the due instant, ends one hour later and invites only the creator |
| TaskForm.TaskForm.HandleSubmit | src/components/Task/TaskFrom.jsx:17-75 | with no user, nothing is inserted; an insert error makes no calendar call and keeps the fields; once the insert succeeds the new row stays whatever the sync does, and the fields are cleared |
| AnnouncementBoard.DefaultItem | src/components/Announcement/Announcementboard.jsx:8-13 | built-in item n has id n, a title, and the module-load time stamp |
| AnnouncementBoard.Defaults | src/components/Announcement/Announcementboard.jsx:8-13 | four built-in announcements with ids 1 to 4 |
| AnnouncementBoard.AnnouncementBoard.constructor | src/components/Announcement/Announcementboard.jsx:16 | the list starts as exactly the four defaults |
| AnnouncementBoard.AnnouncementBoard.FetchAnnouncements | src/components/Announcement/Announcementboard.jsx:22-26 | after a fetch the list is the defaults followed by the fetched rows; on an error it is unchanged |
| AnnouncementBoard.AnnouncementBoard.PostAnnouncement | src/components/Announcement/Announcementboard.jsx:30-46 | a successful post prepends exactly one item with no id and clears the fields; a failure leaves the list and the fields unchanged |
| ChatbotUi.BotMessage | src/components/Ai/chatbot.jsx:23-30 | the bot's text is `reply`, else `response`, else the fixed text; a failed fetch gives the fixed error |
| ChatbotUi.ChatWindow.SendMessage | src/components/Ai/chatbot.jsx:8-34 | whitespace-only input does nothing; otherwise the user message and one bot message are appended after the existing log, and the input is cleared |
| JsText.Lower | src/lib/summarize.js:17 | each character is mapped by itself: the ASCII capitals and the Kelvin sign to their lower-case letters, the rest unchanged |
| JsText.LowerKeepsOccurrence | src/lib/summarize.js:17 | a string occurring in the text occurs lower-cased in the lower-cased text |
| JsText.Trim | src/components/Ai/chatbot.jsx:9 | the result is the part of the input between its leading and its trailing white space, and has no white space at either end |
| JsText.TrimUnique | src/components/Ai/chatbot.jsx:9 | white space, then a string with no white space at either end, then white space, trims to exactly that string |
| JsText.TrimEmpty | src/components/Ai/chatbot.jsx:9 | the trimmed text is empty exactly when the input is all white space |
| JsText.SplitJoin | src/components/pages/schedule.jsx:36 | splitting comma-joined comma-free parts gives the parts back |
| JsText.JoinSplit | src/components/pages/schedule.jsx:36 | joining the split pieces with the separator gives back the string |
| JsText.SplitAtSeparator | src/components/pages/schedule.jsx:36 | splitting at a separator gives the pieces of the left side followed by those of the right side |
| JsText.ParseNatToString | src/components/Attendance/Attendancebutton.jsx:46-47 | a rendered integer parses back to itself |

## Left out

- Database, authentication, realtime, calendar, meeting and model clients: each call is an input with its possible answers. Subscriptions, unsubscriptions and async scheduling are not modelled.
- Time: clocks, time zones, ISO and `HH:mm:ss` formatting, and local midnight are inputs or opaque strings. Times used in arithmetic are integer milliseconds.
- Floating point: latitude, longitude and `toFixed(4)` are opaque strings. Hours and minutes are integers, as `Math.floor` makes them.
- AttendanceButton.WorkedTextReadsBack: `toFixed` switches to exponent notation for values of 10^21 and more; the model always renders decimal digits.
- JsText.Lower: only the ASCII capitals and U+212A KELVIN SIGN are mapped; they are the characters whose lower case is a single ASCII letter. Other letters keep their case, and U+0130, which JavaScript lower-cases to "i" followed by U+0307, stays one character, so the model keeps the length where JavaScript may not. Routing and keyword detection still agree: every keyword is ASCII and none ends in "i", so these characters never complete or break a match.
- AttendanceMonitor.GroupByUser: `Object.values` lists integer-like keys first; the model keeps plain insertion order.
- Schedule.MeetingScheduler.CompleteSubmit: the meetings list the page refetches after success is not modelled.
- MeetingServer.LoadMeetings: a file that parses to something other than an array of objects is not modelled.
- MeetingServer.GoogleEvent: the date and time texts are parsed outside the model; `startMs` is the parsed instant. Request ids and Zoom link suffixes are arbitrary strings.
- The zip, CSV and spreadsheet export of Backend/server.js:173-208 is not modelled. Neither are the CSV writer of Backend/routes/chatbot.js and the export button.
- AuthRoutes.UserStore.Signup: hashing, comparing and signing are opaque inputs. Body fields are strings, with "" for an absent field. The check-then-create race on a duplicate email is not modelled. A hash failure is not modelled. Validation error bodies keep only each error's `msg`, in AuthRoutes.UserStore.Signup and in AuthRoutes.Login; the `type`, `value`, `path` and `location` fields of the validator's error objects are not modelled.
- AuthRoutes.ValidatorLength: strings are sequences of code points, so an unpaired surrogate, which JavaScript strings can hold and `isLength` counts as one, cannot be written.
- ProtectedRoute.ProtectedRoute.FetchRole: the file imports the resolver under a differently cased path; the model assumes it resolves to src/services/getUserRole.js.
- AnnouncementBoard.AnnouncementBoard.PostAnnouncement: the handler prepends to the list its render saw; the model uses the current list, the same list when no fetch lands in between.
- Summarize.NotificationLog.HandleRealTimeUpdate: the payload is modelled as `table`, `eventType` and `record`, as the code reads it. Insert errors are ignored, as in the code.
- Summarize.GetContextData: `JSON.stringify` of the context data is an opaque text in the prompt.
- Pure rendering components, the login and signup pages, the dashboards, the model and calendar wrapper services, and the meeting clients are not part of this model.

## Findings

| source | as written | input that shows it | evidently intended | confidence | as-written member | corrected member |
|---|---|---|---|---|---|---|
| src/lib/summarize.js:44-45 | `handleUserMessage` calls `sendNotificationToTargets`, which is defined nowhere. The ReferenceError is caught, and the answer becomes the fixed error object | role 'user', model answer "deadline is friday" | notify the targets and still return the answer | not executed | Summarize.DeadlineAnswerIsLost | Summarize.HandleUserMessageIntended |
