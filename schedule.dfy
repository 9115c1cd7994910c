/** The meeting form (src/components/pages/schedule.jsx): the attendee field is split on
    commas, each address checked against the pattern `^[^\s@]+@[^\s@]+\.[^\s@]+$`, and the
    meeting is posted to the Google or the Zoom endpoint of the backend. */
module Schedule {
  import JsText

  // ---------------------------------------------------------------------------
  // Attendee parsing

  function TrimAll(parts: seq<string>): (r: seq<string>)
    ensures |r| == |parts|
    ensures forall k :: 0 <= k < |parts| ==> r[k] == JsText.Trim(parts[k])
  {
    if parts == [] then [] else [JsText.Trim(parts[0])] + TrimAll(parts[1..])
  }

  lemma TrimAllCons(x: string, rest: seq<string>)
    ensures TrimAll([x] + rest) == [JsText.Trim(x)] + TrimAll(rest)
  {
    assert ([x] + rest)[1..] == rest;
  }

  lemma {:induction false} TrimAllAppend(a: seq<string>, b: seq<string>)
    ensures TrimAll(a + b) == TrimAll(a) + TrimAll(b)
  {
    if a == [] {
      assert a + b == b;
    } else {
      var x, tail := a[0], a[1..];
      assert a == [x] + tail;
      calc {
        TrimAll(a + b);
        { assert a + b == [x] + (tail + b); }
        TrimAll([x] + (tail + b));
        { TrimAllCons(x, tail + b); }
        [JsText.Trim(x)] + TrimAll(tail + b);
        { TrimAllAppend(tail, b); }
        [JsText.Trim(x)] + (TrimAll(tail) + TrimAll(b));
        { ConsAssociates(JsText.Trim(x), TrimAll(tail), TrimAll(b)); }
        ([JsText.Trim(x)] + TrimAll(tail)) + TrimAll(b);
        { TrimAllCons(x, tail); }
        TrimAll(a) + TrimAll(b);
      }
    }
  }

  lemma ConsAssociates<T>(x: T, p: seq<T>, q: seq<T>)
    ensures [x] + (p + q) == ([x] + p) + q
  {
  }

  /** `filter(e => e.length > 0)`: the non-empty pieces, each as often as it occurs. */
  function DropEmpty(parts: seq<string>): (r: seq<string>)
    ensures |r| <= |parts|
    ensures forall e :: e in r <==> e in parts && e != ""
    ensures forall e :: e != "" ==> multiset(r)[e] == multiset(parts)[e]
  {
    if parts == [] then []
    else
      assert parts == [parts[0]] + parts[1..];
      if parts[0] == "" then DropEmpty(parts[1..])
      else [parts[0]] + DropEmpty(parts[1..])
  }

  /** Filtering keeps the order: it filters each part of a list on its own. */
  lemma {:induction false} DropEmptyAppend(a: seq<string>, b: seq<string>)
    ensures DropEmpty(a + b) == DropEmpty(a) + DropEmpty(b)
  {
    if a == [] {
      assert a + b == b;
    } else {
      assert (a + b)[0] == a[0] && (a + b)[1..] == a[1..] + b;
      DropEmptyAppend(a[1..], b);
    }
  }

  /** `attendees.split(",").map(e => e.trim()).filter(e => e.length > 0)`: every
      attendee it gives is non-empty, comma-free and trimmed. */
  function ParseAttendees(raw: string): (r: seq<string>)
    ensures forall e :: e in r ==> IsCleanAttendee(e)
  {
    var pieces := JsText.Split(raw, ',');
    var trimmed := TrimAll(pieces);
    assert forall k :: 0 <= k < |trimmed| ==> trimmed[k] == "" || IsCleanAttendee(trimmed[k]) by {
      forall k | 0 <= k < |trimmed|
        ensures trimmed[k] == "" || IsCleanAttendee(trimmed[k])
      {
        assert ',' !in pieces[k];
      }
    }
    DropEmpty(trimmed)
  }

  /** No address is lost: every comma-separated piece that is not blank is parsed into
      the list, trimmed. */
  lemma ParseKeepsEveryPiece(raw: string, k: int)
    requires 0 <= k < |JsText.Split(raw, ',')|
    requires JsText.Trim(JsText.Split(raw, ',')[k]) != ""
    ensures JsText.Trim(JsText.Split(raw, ',')[k]) in ParseAttendees(raw)
  {
    var trimmed := TrimAll(JsText.Split(raw, ','));
    assert trimmed[k] in trimmed;
  }

  /** Text on either side of a comma is parsed on its own, in order: nothing is lost,
      reordered or merged across the comma. */
  lemma ParseAttendeesAppend(x: string, y: string)
    ensures ParseAttendees(x + "," + y) == ParseAttendees(x) + ParseAttendees(y)
  {
    JsText.SplitAtSeparator(x, y, ',');
    TrimAllAppend(JsText.Split(x, ','), JsText.Split(y, ','));
    DropEmptyAppend(TrimAll(JsText.Split(x, ',')), TrimAll(JsText.Split(y, ',')));
  }

  /** A well-formed attendee: non-empty, no comma, no white space at either end. */
  predicate IsCleanAttendee(e: string) {
    e != [] && ',' !in e && !JsText.IsSpace(e[0]) && !JsText.IsSpace(e[|e| - 1])
  }

  lemma {:induction false} TrimAllClean(parts: seq<string>)
    requires forall k :: 0 <= k < |parts| ==> IsCleanAttendee(parts[k])
    ensures TrimAll(parts) == parts && DropEmpty(parts) == parts
  {
    if parts != [] {
      JsText.TrimTrimmed(parts[0]);
      TrimAllClean(parts[1..]);
    }
  }

  /** Parsing the list typed as "a,b,c" gives back exactly the clean addresses typed. */
  lemma AttendeesRoundTrip(emails: seq<string>)
    requires forall k :: 0 <= k < |emails| ==> IsCleanAttendee(emails[k])
    ensures ParseAttendees(JsText.Join(emails, ",")) == emails
  {
    if emails != [] {
      JsText.SplitJoin(emails, ',');
      TrimAllClean(emails);
    }
  }

  // ---------------------------------------------------------------------------
  // The address pattern

  /** `[^\s@]+`: a non-empty run without white space or '@'. */
  predicate IsPlainRun(s: string) {
    s != [] && forall i :: 0 <= i < |s| ==> !JsText.IsSpace(s[i]) && s[i] != '@'
  }

  /** The regular expression read literally: the whole string is a run, '@', a run,
      '.', a run, for some choice of the '@' and the '.' positions. */
  predicate MatchesEmailPattern(s: string) {
    exists at, dot :: 0 <= at < dot < |s| && s[at] == '@' && s[dot] == '.'
      && IsPlainRun(s[..at]) && IsPlainRun(s[at + 1..dot]) && IsPlainRun(s[dot + 1..])
  }

  function IndexOf(s: string, c: char): (k: nat)
    requires c in s
    ensures k < |s| && s[k] == c && c !in s[..k]
  {
    if s[0] == c then 0 else 1 + IndexOf(s[1..], c)
  }

  /** The address check as one would compute it: no white space, exactly one '@' with text
      before it, and after it a '.' with at least one character on each side. */
  predicate IsValidEmail(s: string) {
    && !JsText.HasSpace(s)
    && '@' in s
    && var at := IndexOf(s, '@');
       var domain := s[at + 1..];
       && at > 0
       && '@' !in domain
       && |domain| >= 3
       && '.' in domain[1..|domain| - 1]
  }

  /** Every string the computed check accepts matches the pattern. */
  lemma ValidEmailMatches(s: string)
    requires IsValidEmail(s)
    ensures MatchesEmailPattern(s)
  {
    var at := IndexOf(s, '@');
    var domain := s[at + 1..];
    var mid := domain[1..|domain| - 1];
    var j :| 0 <= j < |mid| && mid[j] == '.';
    var dot := at + 2 + j;
    assert s[dot] == mid[j];
    NoSpaceAnywhere(s);
    forall i | at < i < |s| ensures s[i] != '@' {
      assert s[i] == domain[i - at - 1];
    }
    assert IsPlainRun(s[..at]);
    assert IsPlainRun(s[at + 1..dot]);
    assert IsPlainRun(s[dot + 1..]);
  }

  lemma NoSpaceAnywhere(s: string)
    requires !JsText.HasSpace(s)
    ensures forall i :: 0 <= i < |s| ==> !JsText.IsSpace(s[i])
  {
  }

  /** Outside the chosen '@' a matching string has no '@' and nowhere white space. */
  lemma MatchPositions(s: string, at: int, dot: int)
    requires 0 <= at < dot < |s| && s[at] == '@' && s[dot] == '.'
    requires IsPlainRun(s[..at]) && IsPlainRun(s[at + 1..dot]) && IsPlainRun(s[dot + 1..])
    ensures forall i :: 0 <= i < |s| ==> !JsText.IsSpace(s[i])
    ensures forall i :: 0 <= i < |s| && i != at ==> s[i] != '@'
  {
    forall i | 0 <= i < |s|
      ensures !JsText.IsSpace(s[i]) && (i != at ==> s[i] != '@')
    {
      if i < at { assert s[i] == s[..at][i]; }
      else if at < i < dot { assert s[i] == s[at + 1..dot][i - at - 1]; }
      else if dot < i { assert s[i] == s[dot + 1..][i - dot - 1]; }
    }
  }

  /** A character found at one position only is first found there. */
  lemma {:induction false} IndexOfUnique(s: string, c: char, at: nat)
    requires at < |s| && s[at] == c
    requires forall i :: 0 <= i < |s| && i != at ==> s[i] != c
    ensures IndexOf(s, c) == at
  {
    var first := IndexOf(s, c);
    assert s[first] == c;
  }

  /** The part after the only '@' of a matching string has no '@', and a '.' with a
      character on each side. */
  lemma MatchDomain(s: string, at: int, dot: int)
    requires 0 <= at < dot < |s| && s[at] == '@' && s[dot] == '.'
    requires IsPlainRun(s[at + 1..dot]) && IsPlainRun(s[dot + 1..])
    requires forall i :: 0 <= i < |s| && i != at ==> s[i] != '@'
    ensures var domain := s[at + 1..];
      && '@' !in domain
      && |domain| >= 3
      && '.' in domain[1..|domain| - 1]
  {
    var domain := s[at + 1..];
    forall k | 0 <= k < |domain|
      ensures domain[k] != '@'
    {
      assert domain[k] == s[at + 1 + k];
    }
    assert domain[1..|domain| - 1][dot - at - 2] == s[dot];
  }

  /** Every string the pattern matches passes the computed check. */
  lemma MatchingEmailIsValid(s: string)
    requires MatchesEmailPattern(s)
    ensures IsValidEmail(s)
  {
    var at, dot :| 0 <= at < dot < |s| && s[at] == '@' && s[dot] == '.'
      && IsPlainRun(s[..at]) && IsPlainRun(s[at + 1..dot]) && IsPlainRun(s[dot + 1..]);
    ValidAtPositions(s, at, dot);
  }

  /** A string that matches with the '@' and the '.' at the given positions passes the
      computed check. */
  lemma ValidAtPositions(s: string, at: int, dot: int)
    requires 0 <= at < dot < |s| && s[at] == '@' && s[dot] == '.'
    requires IsPlainRun(s[..at]) && IsPlainRun(s[at + 1..dot]) && IsPlainRun(s[dot + 1..])
    ensures IsValidEmail(s)
  {
    MatchPositions(s, at, dot);
    assert !JsText.HasSpace(s);
    assert '@' in s;
    IndexOfUnique(s, '@', at);
    MatchDomain(s, at, dot);
  }

  /** The computed check accepts exactly the strings the pattern matches. */
  lemma EmailCheckIsPattern(s: string)
    ensures IsValidEmail(s) <==> MatchesEmailPattern(s)
  {
    if IsValidEmail(s) { ValidEmailMatches(s); }
    if MatchesEmailPattern(s) { MatchingEmailIsValid(s); }
  }

  // ---------------------------------------------------------------------------
  // Routing

  /** The backend endpoint for a platform: anything but "google" goes to Zoom. */
  function Endpoint(platform: string): (url: string)
    ensures url == "/api/google-meeting" <==> platform == "google"
    ensures url in {"/api/google-meeting", "/api/zoom-meeting"}
  {
    if platform == "google" then "/api/google-meeting" else "/api/zoom-meeting"
  }

  // ---------------------------------------------------------------------------
  // The form component

  datatype MeetingForm = MeetingForm(title: string, date: string, time: string, platform: string, attendees: string)

  /** The form's initial and reset value; `today` is the formatted current date. */
  function DefaultForm(today: string): MeetingForm {
    MeetingForm("", today, "09:00", "google", "")
  }

  /** The POST sent to the backend: the form with the parsed attendee list in place of
      the typed string. */
  datatype ScheduleRequest = ScheduleRequest(url: string, title: string, date: string, time: string,
                                             platform: string, attendees: seq<string>)

  datatype Toast = ErrorToast(text: string) | SuccessToast(text: string)

  /** The backend's answer: the fetch or JSON decoding threw, or a response with its
      `ok` flag and the `error` field of its body (none when absent or empty). */
  datatype ScheduleReply = Threw(message: string) | Replied(ok: bool, error: string)

  /** Why a submit is refused before anything is sent, "" when it is not: a form is sent
      exactly when title, date and time are filled in and the attendee field yields at
      least one address, each matching the address pattern. */
  function Refusal(f: MeetingForm): (r: string)
    ensures r == "" <==>
      && f.title != "" && f.date != "" && f.time != ""
      && |ParseAttendees(f.attendees)| > 0
      && forall e :: e in ParseAttendees(f.attendees) ==> MatchesEmailPattern(e)
    ensures r == "All fields are required" <==>
      f.title == "" || f.date == "" || f.time == "" || |ParseAttendees(f.attendees)| == 0
    ensures r in {"", "All fields are required", "Invalid email format"}
  {
    var list := ParseAttendees(f.attendees);
    ListCheckIsPattern(list);
    if f.title == "" || f.date == "" || f.time == "" || |list| == 0 then "All fields are required"
    else if exists k :: 0 <= k < |list| && !IsValidEmail(list[k]) then "Invalid email format"
    else ""
  }

  /** Every address of a list passes the address check exactly when each matches the pattern. */
  lemma ListCheckIsPattern(list: seq<string>)
    ensures (forall k :: 0 <= k < |list| ==> IsValidEmail(list[k])) <==>
            (forall e :: e in list ==> MatchesEmailPattern(e))
  {
    forall e | e in list
      ensures IsValidEmail(e) <==> MatchesEmailPattern(e)
    {
      EmailCheckIsPattern(e);
    }
  }

  class MeetingScheduler {
    var form: MeetingForm
    var isScheduling: bool
    var toasts: seq<Toast>
    /** Requests posted to the backend, in order. */
    var sent: seq<ScheduleRequest>

    constructor (today: string)
      ensures form == DefaultForm(today) && !isScheduling && toasts == [] && sent == []
    {
      form := DefaultForm(today);
      isScheduling := false;
      toasts := [];
      sent := [];
    }

    /** `handleSubmit` up to the request being sent. */
    method BeginSubmit()
      modifies this
      ensures form == old(form)
      ensures old(isScheduling) ==> isScheduling && toasts == old(toasts) && sent == old(sent)
      ensures !old(isScheduling) && Refusal(form) != "" ==>
        !isScheduling && toasts == old(toasts) + [ErrorToast(Refusal(form))] && sent == old(sent)
      ensures !old(isScheduling) && Refusal(form) == "" ==>
        && isScheduling && toasts == old(toasts)
        && sent == old(sent) + [ScheduleRequest("http://localhost:5000" + Endpoint(form.platform),
                                                form.title, form.date, form.time, form.platform,
                                                ParseAttendees(form.attendees))]
    {
      if isScheduling {
        return;
      }
      var attendeesList := ParseAttendees(form.attendees);
      if form.title == "" || form.date == "" || form.time == "" || |attendeesList| == 0 {
        toasts := toasts + [ErrorToast("All fields are required")];
        return;
      }
      var k := 0;
      while k < |attendeesList|
        invariant 0 <= k <= |attendeesList|
        invariant forall i :: 0 <= i < k ==> IsValidEmail(attendeesList[i])
      {
        if !IsValidEmail(attendeesList[k]) {
          toasts := toasts + [ErrorToast("Invalid email format")];
          return;
        }
        k := k + 1;
      }
      isScheduling := true;
      var endpoint := Endpoint(form.platform);
      sent := sent + [ScheduleRequest("http://localhost:5000" + endpoint, form.title, form.date, form.time,
                                      form.platform, attendeesList)];
    }

    /** `handleSubmit` after the backend answered: the form is reset only on success,
        and `isScheduling` is cleared on every path. */
    method CompleteSubmit(reply: ScheduleReply, today: string)
      requires isScheduling
      modifies this
      ensures !isScheduling && sent == old(sent)
      ensures reply.Replied? && reply.ok ==>
        form == DefaultForm(today) && toasts == old(toasts) + [SuccessToast("Meeting scheduled!")]
      ensures reply.Replied? && !reply.ok ==>
        form == old(form) && toasts == old(toasts) + [ErrorToast(if reply.error != "" then reply.error else "Scheduling failed")]
      ensures reply.Threw? ==>
        form == old(form) && toasts == old(toasts) + [ErrorToast(if reply.message != "" then reply.message else "Error occurred")]
    {
      if reply.Replied? && reply.ok {
        toasts := toasts + [SuccessToast("Meeting scheduled!")];
        form := DefaultForm(today);
      } else {
        var message := if reply.Threw? then reply.message
                       else if reply.error != "" then reply.error else "Scheduling failed";
        toasts := toasts + [ErrorToast(if message != "" then message else "Error occurred")];
      }
      isScheduling := false;
    }
  }
}
