/** The employee's check-in / check-out buttons (src/components/Attendance/Attendancebutton.jsx):
    the guards before an attendance event is inserted, the look-up of the last check-in on
    check-out, and the elapsed-time arithmetic and text shown afterwards. */
module AttendanceButton {
  import opened Outcomes
  import JsText

  /** `1000 * 60 * 60` and `1000 * 60`. */
  const MsPerHour: int := 3600000
  const MsPerMinute: int := 60000

  // ---------------------------------------------------------------------------
  // Elapsed time

  /** JavaScript's `%`: the remainder has the sign of the dividend. */
  function JsRem(a: int, b: int): (r: int)
    requires b > 0
    ensures a >= 0 ==> 0 <= r < b
    ensures a < 0 ==> -b < r <= 0
  {
    if a >= 0 then a % b else -((-a) % b)
  }

  datatype Elapsed = Elapsed(hours: int, minutes: int)

  /** `Math.floor(diffMs / 3600000)` and `Math.floor((diffMs % 3600000) / 60000)`.
      Dividing by a positive number, Dafny's `/` rounds down like `Math.floor`. A check-in
      timestamped after the check-out clock (negative difference) gives negative hours
      and minutes down to -60. */
  function ElapsedParts(diffMs: int): (e: Elapsed)
    ensures diffMs >= 0 ==> e.hours >= 0 && 0 <= e.minutes < 60
    ensures diffMs < 0 ==> e.hours < 0 && -60 <= e.minutes <= 0
  {
    Elapsed(diffMs / MsPerHour, JsRem(diffMs, MsPerHour) / MsPerMinute)
  }

  /** For a non-negative difference: whole hours, then whole minutes below 60, and
      together they are the difference rounded down to the minute. */
  lemma ElapsedBounds(diffMs: int)
    requires diffMs >= 0
    ensures var e := ElapsedParts(diffMs);
      && e.hours >= 0
      && 0 <= e.minutes < 60
      && e.hours * MsPerHour + e.minutes * MsPerMinute <= diffMs
      && diffMs < e.hours * MsPerHour + (e.minutes + 1) * MsPerMinute
  {
    var h := diffMs / MsPerHour;
    var r := diffMs % MsPerHour;
    assert diffMs == h * MsPerHour + r;
    var m := r / MsPerMinute;
    assert r == m * MsPerMinute + r % MsPerMinute;
  }

  /** `n.toFixed(2)` for an integer `n`. */
  function Fixed2(n: int): string {
    JsText.IntToString(n) + ".00"
  }

  /** The text stored in `workHours`: hours when at least one hour has passed,
      otherwise minutes, with a plural "s" only above one. */
  function WorkedTextOf(e: Elapsed): string {
    if e.hours > 0 then Fixed2(e.hours) + " hr" + (if e.hours > 1 then "s" else "")
    else Fixed2(e.minutes) + " min" + (if e.minutes > 1 then "s" else "")
  }

  function WorkedText(diffMs: int): string {
    WorkedTextOf(ElapsedParts(diffMs))
  }

  /** The text of non-negative parts: its leading numeral reads back as the hours when
      there is at least one, and as the minutes otherwise, followed by ".00", the unit,
      and "s" exactly when the value exceeds one. */
  lemma PartsTextReadsBack(e: Elapsed)
    requires e.hours >= 0 && e.minutes >= 0
    ensures var text := WorkedTextOf(e);
      var value := if e.hours > 0 then e.hours else e.minutes;
      var unit := if e.hours > 0 then " hr" else " min";
      var digits := JsText.LeadingDigits(text);
      && JsText.ParseNat(digits) == value
      && text == digits + ".00" + unit + (if value > 1 then "s" else "")
  {
    var value: nat := if e.hours > 0 then e.hours else e.minutes;
    var numeral := JsText.NatToString(value);
    var text := WorkedTextOf(e);
    assert Fixed2(value) == numeral + ".00";
    assert text[..|numeral|] == numeral;
    assert text[|numeral|] == '.';
    JsText.LeadingDigitsOfNumeral(text, numeral);
    JsText.ParseNatToString(value);
  }

  /** What the text says, for a non-negative difference: the hours when at least one
      hour has passed, otherwise the minutes, read back from its leading numeral. */
  lemma WorkedTextReadsBack(diffMs: int)
    requires diffMs >= 0
    ensures var e := ElapsedParts(diffMs);
      var text := WorkedText(diffMs);
      var value := if e.hours > 0 then e.hours else e.minutes;
      var unit := if e.hours > 0 then " hr" else " min";
      && value >= 0
      && var digits := JsText.LeadingDigits(text);
      && JsText.ParseNat(digits) == value
      && text == digits + ".00" + unit + (if value > 1 then "s" else "")
  {
    ElapsedBounds(diffMs);
    PartsTextReadsBack(ElapsedParts(diffMs));
  }

  /** Less than a minute shows "0.00 min". */
  lemma UnderAMinute(diffMs: int)
    requires 0 <= diffMs < MsPerMinute
    ensures WorkedText(diffMs) == "0.00 min"
  {
    assert ElapsedParts(diffMs) == Elapsed(0, 0);
  }

  // ---------------------------------------------------------------------------
  // The attendance table and the check-in look-up

  /** A row of the `attendance` table; `createdAt` is the insertion time in ms and the
      coordinates are opaque. */
  datatype AttendanceRow = AttendanceRow(userId: string, kind: string, latitude: string, longitude: string, createdAt: int)

  predicate IsCheckinOf(r: AttendanceRow, u: string) {
    r.userId == u && r.kind == "checkin"
  }

  /** The check-out look-up: the user's check-ins ordered by `created_at` descending,
      first row. There is no filter on the day. */
  function LatestCheckin(rows: seq<AttendanceRow>, u: string): Option<int> {
    if rows == [] then None
    else
      var earlier := LatestCheckin(rows[..|rows| - 1], u);
      var r := rows[|rows| - 1];
      if IsCheckinOf(r, u) && (earlier.None? || r.createdAt >= earlier.value) then Some(r.createdAt)
      else earlier
  }

  /** The look-up finds nothing exactly when the user never checked in, and otherwise
      finds the time of one of the user's check-ins that no other is later than. */
  lemma {:induction false} LatestCheckinIsLatest(rows: seq<AttendanceRow>, u: string)
    ensures LatestCheckin(rows, u).None? <==> forall r :: r in rows ==> !IsCheckinOf(r, u)
    ensures LatestCheckin(rows, u).Some? ==>
      && (exists r :: r in rows && IsCheckinOf(r, u) && r.createdAt == LatestCheckin(rows, u).value)
      && (forall r :: r in rows && IsCheckinOf(r, u) ==> r.createdAt <= LatestCheckin(rows, u).value)
  {
    if rows != [] {
      var init := rows[..|rows| - 1];
      LatestCheckinIsLatest(init, u);
      assert rows == init + [rows[|rows| - 1]];
    }
  }

  /** Check-ins of other users never affect the look-up. */
  lemma {:induction false} LatestCheckinIgnoresOthers(rows: seq<AttendanceRow>, r: AttendanceRow, u: string)
    requires r.userId != u
    ensures LatestCheckin(rows + [r], u) == LatestCheckin(rows, u)
  {
    assert (rows + [r])[..|rows|] == rows;
  }

  /** The confirmation alert after a successful insert; on check-out it quotes
      `workHours` as it was when the handler started (`null` if never set). */
  function RecordedAlert(kind: string, workHours: Option<string>): string {
    kind + " recorded! " +
    (if kind == "checkout" then "You worked " + (if workHours.Some? then workHours.value else "null") + "." else "")
  }

  /** The component: its `workHours` state, the alerts it raised, and the attendance
      table it writes to. */
  class AttendanceButtons {
    var workHours: Option<string>
    var alerts: seq<string>
    var table: seq<AttendanceRow>

    constructor (existing: seq<AttendanceRow>)
      ensures workHours == None && alerts == [] && table == existing
    {
      workHours := None;
      alerts := [];
      table := existing;
    }

    /** `handleAttendance(kind)`. Inputs stand for the browser and the services:
        whether geolocation exists, the signed-in user's id, the position (none when the
        browser never calls back), the clock, whether the look-up query fails, and the
        insert's error. */
    method HandleAttendance(kind: string, geolocationSupported: bool, userId: Option<string>,
                            position: Option<(string, string)>, now: int,
                            lookupFails: bool, insertError: Option<string>)
      modifies this
      ensures !geolocationSupported ==>
        alerts == old(alerts) + ["Geolocation not supported"] && table == old(table) && workHours == old(workHours)
      ensures geolocationSupported && (userId.None? || userId.value == "") ==>
        alerts == old(alerts) + ["User not found"] && table == old(table) && workHours == old(workHours)
      ensures geolocationSupported && userId.Some? && userId.value != "" ==>
        var u := userId.value;
        var lookup := LatestCheckin(old(table), u);
        if position.None? then
          alerts == old(alerts) && table == old(table) && workHours == old(workHours)
        else if kind == "checkout" && (lookupFails || lookup.None?) then
          alerts == old(alerts) + ["No check-in record found"] && table == old(table) && workHours == old(workHours)
        else
          && workHours == (if kind == "checkout" then Some(WorkedText(now - lookup.value)) else old(workHours))
          && if insertError.Some? then
               alerts == old(alerts) + [insertError.value] && table == old(table)
             else
               && table == old(table) + [AttendanceRow(u, kind, position.value.0, position.value.1, now)]
               && alerts == old(alerts) + [RecordedAlert(kind, old(workHours))]
    {
      if !geolocationSupported {
        alerts := alerts + ["Geolocation not supported"];
        return;
      }
      if userId.None? || userId.value == "" {
        alerts := alerts + ["User not found"];
        return;
      }
      if position.None? {
        return;
      }
      var u := userId.value;
      var shownBefore := workHours;
      if kind == "checkout" {
        var lastCheckin := LatestCheckin(table, u);
        if lookupFails || lastCheckin.None? {
          alerts := alerts + ["No check-in record found"];
          return;
        }
        workHours := Some(WorkedText(now - lastCheckin.value));
      }
      if insertError.Some? {
        alerts := alerts + [insertError.value];
      } else {
        table := table + [AttendanceRow(u, kind, position.value.0, position.value.1, now)];
        alerts := alerts + [RecordedAlert(kind, shownBefore)];
      }
    }
  }
}
