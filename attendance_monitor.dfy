/** The admin's daily attendance table (src/components/Attendance/AdminAttendanceMonitor.jsx):
    today's attendance events, fetched in ascending `created_at` order, are grouped into one
    row per user in a dictionary built by a loop. */
module AttendanceMonitor {
  import opened Outcomes

  /** One fetched row of the `attendance` table. `time` is the event time already
      formatted as `HH:mm:ss`; `location` is the rendered latitude/longitude pair. */
  datatype AttendanceEvent = AttendanceEvent(userId: string, kind: string, time: string, location: string)

  /** One row of the admin table; `None` is the source's `null`. */
  datatype UserDay = UserDay(userId: string, checkin: Option<string>, checkout: Option<string>, location: Option<string>)

  // ---------------------------------------------------------------------------
  // What each row should hold, stated per user independently of the loop

  /** The user's earliest check-in event of the fetched list. */
  function FirstCheckin(events: seq<AttendanceEvent>, u: string): Option<AttendanceEvent> {
    if events == [] then None
    else if events[0].userId == u && events[0].kind == "checkin" then Some(events[0])
    else FirstCheckin(events[1..], u)
  }

  /** The time of the user's latest check-out event of the fetched list. */
  function LastCheckout(events: seq<AttendanceEvent>, u: string): Option<string> {
    if events == [] then None
    else
      var e := events[|events| - 1];
      if e.userId == u && e.kind == "checkout" then Some(e.time)
      else LastCheckout(events[..|events| - 1], u)
  }

  /** The row the admin should see for user `u`. */
  function ExpectedDay(events: seq<AttendanceEvent>, u: string): UserDay {
    var c := FirstCheckin(events, u);
    UserDay(u,
            if c.Some? then Some(c.value.time) else None,
            LastCheckout(events, u),
            if c.Some? then Some(c.value.location) else None)
  }

  function UserIds(events: seq<AttendanceEvent>): set<string> {
    set e | e in events :: e.userId
  }

  function RowIds(days: seq<UserDay>): seq<string> {
    seq(|days|, k requires 0 <= k < |days| => days[k].userId)
  }

  predicate Distinct(s: seq<string>) {
    forall i, j :: 0 <= i < j < |s| ==> s[i] != s[j]
  }

  /** `days` is a correct summary of `events`: exactly one row per user that appears,
      each holding that user's first check-in (with its location) and last check-out. */
  predicate SummarizesDay(events: seq<AttendanceEvent>, days: seq<UserDay>) {
    && Distinct(RowIds(days))
    && (set d | d in days :: d.userId) == UserIds(events)
    && |days| == |UserIds(events)|
    && forall d :: d in days ==> d == ExpectedDay(events, d.userId)
  }

  // ---------------------------------------------------------------------------
  // Lemmas that let the loop extend its prefix by one event

  /** A later check-in never replaces an earlier one. */
  lemma {:induction false} FirstCheckinSnoc(s: seq<AttendanceEvent>, e: AttendanceEvent, u: string)
    ensures FirstCheckin(s + [e], u) ==
      if FirstCheckin(s, u).Some? then FirstCheckin(s, u)
      else if e.userId == u && e.kind == "checkin" then Some(e)
      else None
  {
    if s != [] {
      assert (s + [e])[1..] == s[1..] + [e];
      FirstCheckinSnoc(s[1..], e, u);
    }
  }

  /** A user that has not appeared yet has an empty row. */
  lemma {:induction false} AbsentUserDay(s: seq<AttendanceEvent>, u: string)
    requires u !in UserIds(s)
    ensures FirstCheckin(s, u) == None && LastCheckout(s, u) == None
  {
    if s != [] {
      assert UserIds(s[1..]) <= UserIds(s);
      assert UserIds(s[..|s| - 1]) <= UserIds(s);
      AbsentUserDay(s[1..], u);
      AbsentUserDayLast(s[..|s| - 1], u);
    }
  }

  lemma {:induction false} AbsentUserDayLast(s: seq<AttendanceEvent>, u: string)
    requires u !in UserIds(s)
    ensures LastCheckout(s, u) == None
  {
    if s != [] {
      assert UserIds(s[..|s| - 1]) <= UserIds(s);
      AbsentUserDayLast(s[..|s| - 1], u);
    }
  }

  /** The row of `e`'s user after the loop body has handled `e`: the first check-in
      sets the check-in time and location, every check-out overwrites the check-out
      time, and any other event leaves the row as it is. */
  function Absorb(row: UserDay, e: AttendanceEvent): UserDay {
    if e.kind == "checkin" && row.checkin.None? then row.(checkin := Some(e.time), location := Some(e.location))
    else if e.kind == "checkout" then row.(checkout := Some(e.time))
    else row
  }

  /** One more event changes the expected row of its own user as the loop body does,
      and leaves every other user's row alone. */
  lemma ExpectedDaySnoc(s: seq<AttendanceEvent>, e: AttendanceEvent, u: string)
    ensures ExpectedDay(s + [e], u) == if u == e.userId then Absorb(ExpectedDay(s, u), e) else ExpectedDay(s, u)
  {
    FirstCheckinSnoc(s, e, u);
    assert (s + [e])[..|s + [e]| - 1] == s;
  }

  /** The loop invariant: `userMap` and its key order summarise the prefix `s`. */
  predicate Grouped(s: seq<AttendanceEvent>, userMap: map<string, UserDay>, order: seq<string>) {
    && Distinct(order)
    && (set u | u in order) == userMap.Keys == UserIds(s)
    && forall u :: u in userMap ==> userMap[u] == ExpectedDay(s, u)
  }

  /** The dictionary once `e`'s user has a row, empty if it is new. */
  function Seeded(userMap: map<string, UserDay>, e: AttendanceEvent): map<string, UserDay> {
    if e.userId in userMap then userMap else userMap[e.userId := UserDay(e.userId, None, None, None)]
  }

  /** The key order once `e`'s user has a row. */
  function NextOrder(userMap: map<string, UserDay>, order: seq<string>, e: AttendanceEvent): seq<string> {
    if e.userId in userMap then order else order + [e.userId]
  }

  function NextMap(userMap: map<string, UserDay>, e: AttendanceEvent): map<string, UserDay> {
    Seeded(userMap, e)[e.userId := Absorb(Seeded(userMap, e)[e.userId], e)]
  }

  lemma StepKeys(s: seq<AttendanceEvent>, e: AttendanceEvent, userMap: map<string, UserDay>, order: seq<string>)
    requires Grouped(s, userMap, order)
    ensures Distinct(NextOrder(userMap, order, e))
    ensures (set u | u in NextOrder(userMap, order, e)) == NextMap(userMap, e).Keys == UserIds(s + [e])
  {
    assert UserIds(s + [e]) == UserIds(s) + {e.userId};
    if e.userId !in userMap {
      assert (set u | u in order + [e.userId]) == (set u | u in order) + {e.userId};
    }
  }

  lemma StepRows(s: seq<AttendanceEvent>, e: AttendanceEvent, userMap: map<string, UserDay>, order: seq<string>)
    requires Grouped(s, userMap, order)
    ensures forall u :: u in NextMap(userMap, e) ==> NextMap(userMap, e)[u] == ExpectedDay(s + [e], u)
  {
    var m' := NextMap(userMap, e);
    if e.userId !in userMap {
      AbsentUserDay(s, e.userId);
    }
    forall u | u in m'
      ensures m'[u] == ExpectedDay(s + [e], u)
    {
      ExpectedDaySnoc(s, e, u);
    }
  }

  /** One loop iteration keeps the dictionary and its key order a summary of the
      events processed so far. */
  lemma GroupedStep(events: seq<AttendanceEvent>, i: nat, userMap: map<string, UserDay>, order: seq<string>)
    requires i < |events| && Grouped(events[..i], userMap, order)
    ensures Grouped(events[..i + 1], NextMap(userMap, events[i]), NextOrder(userMap, order, events[i]))
  {
    assert events[..i + 1] == events[..i] + [events[i]];
    StepKeys(events[..i], events[i], userMap, order);
    StepRows(events[..i], events[i], userMap, order);
  }

  lemma {:induction false} DistinctCard(s: seq<string>)
    requires Distinct(s)
    ensures |set x | x in s| == |s|
  {
    if s != [] {
      var t := s[..|s| - 1];
      DistinctCard(t);
      assert (set x | x in s) == (set x | x in t) + {s[|s| - 1]};
    }
  }

  /** The rows in key order, as `Object.values` lists them. */
  function RowsOf(userMap: map<string, UserDay>, order: seq<string>): seq<UserDay>
    requires forall k :: 0 <= k < |order| ==> order[k] in userMap
  {
    seq(|order|, k requires 0 <= k < |order| => userMap[order[k]])
  }

  /** Once the whole list is absorbed, the rows in key order summarise the day. */
  lemma GroupedSummarizes(events: seq<AttendanceEvent>, userMap: map<string, UserDay>, order: seq<string>)
    requires Grouped(events, userMap, order)
    ensures forall k :: 0 <= k < |order| ==> order[k] in userMap
    ensures SummarizesDay(events, RowsOf(userMap, order))
  {
    assert forall k :: 0 <= k < |order| ==> order[k] in (set u | u in order);
    var days := RowsOf(userMap, order);
    assert RowIds(days) == order;
    DistinctCard(order);
  }

  // ---------------------------------------------------------------------------
  // The grouping loop of `fetchAttendance`

  /** Builds `userMap` event by event, keeping the keys in insertion order as
      `Object.values` returns them, and returns the rows. */
  method GroupByUser(events: seq<AttendanceEvent>) returns (days: seq<UserDay>)
    ensures SummarizesDay(events, days)
  {
    var userMap: map<string, UserDay> := map[];
    var order: seq<string> := [];
    var i := 0;
    while i < |events|
      invariant 0 <= i <= |events|
      invariant Grouped(events[..i], userMap, order)
    {
      var entry := events[i];
      GroupedStep(events, i, userMap, order);
      var seeded := if entry.userId in userMap then userMap
                    else userMap[entry.userId := UserDay(entry.userId, None, None, None)];
      order := if entry.userId in userMap then order else order + [entry.userId];
      userMap := seeded[entry.userId := Absorb(seeded[entry.userId], entry)];
      i := i + 1;
    }
    assert events[..i] == events;
    GroupedSummarizes(events, userMap, order);
    days := RowsOf(userMap, order);
  }

  /** The state of the monitor component: the rows on display. */
  class AdminAttendanceMonitor {
    var attendanceData: seq<UserDay>

    constructor ()
      ensures attendanceData == []
    {
      attendanceData := [];
    }

    /** `fetchAttendance` with the query's answer as input: on an error the table on
        display is left as it was; otherwise it becomes the grouped rows. */
    method FetchAttendance(fetched: Result<seq<AttendanceEvent>>)
      modifies this
      ensures fetched.Err? ==> attendanceData == old(attendanceData)
      ensures fetched.Ok? ==> SummarizesDay(fetched.value, attendanceData)
    {
      if fetched.Err? {
        return;
      }
      attendanceData := GroupByUser(fetched.value);
    }
  }

  /** A user with no check-in has neither a check-in time nor a location, and an event
      of any other kind still gives its user a row. */
  lemma RowWithoutCheckin(events: seq<AttendanceEvent>, days: seq<UserDay>, d: UserDay)
    requires SummarizesDay(events, days) && d in days
    ensures d.checkin.None? <==> d.location.None?
    ensures d.checkin.None? <==> FirstCheckin(events, d.userId).None?
  {
  }

  /** Every user in the fetched list, whatever the kinds of its events, has a row. */
  lemma EveryUserHasRow(events: seq<AttendanceEvent>, days: seq<UserDay>, k: nat)
    requires SummarizesDay(events, days) && k < |events|
    ensures exists d :: d in days && d.userId == events[k].userId
  {
    assert events[k].userId in UserIds(events);
  }
}
