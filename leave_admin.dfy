/** The admin's leave-request list (src/components/Attendance/AdminLeaverequest.jsx): an
    admin-only load, a realtime status patch merged into the local list by id, the
    Approve/Reject actions offered on pending rows, and the status update request. */
module LeaveAdmin {
  import opened Outcomes

  datatype LeaveRequest = LeaveRequest(
    id: string, userId: string, leaveType: string, startDate: string, endDate: string,
    reason: string, status: string, appliedAt: string)

  // ---------------------------------------------------------------------------
  // The realtime merge

  /** `prev.map(req => req.id === id ? { ...req, status } : req)`: the status of the rows
      carrying that id changes, and nothing else does: the length, the order, every
      other row and every other field stay as they were. */
  function MergeStatus(list: seq<LeaveRequest>, id: string, status: string): (r: seq<LeaveRequest>)
    ensures |r| == |list|
    ensures forall k :: 0 <= k < |list| ==>
      && r[k].(status := list[k].status) == list[k]
      && r[k].status == (if list[k].id == id then status else list[k].status)
  {
    seq(|list|, k requires 0 <= k < |list| => if list[k].id == id then list[k].(status := status) else list[k])
  }

  /** At-least-once delivery is harmless: the same patch twice is the patch once. */
  lemma MergeIdempotent(list: seq<LeaveRequest>, id: string, status: string)
    ensures MergeStatus(MergeStatus(list, id, status), id, status) == MergeStatus(list, id, status)
  {
  }

  /** A patch for an id that is not in the list leaves the list unchanged. */
  lemma MergeUnknownId(list: seq<LeaveRequest>, id: string, status: string)
    requires forall k :: 0 <= k < |list| ==> list[k].id != id
    ensures MergeStatus(list, id, status) == list
  {
  }

  /** Two patches of the same row: the later one wins. */
  lemma MergeLastWriteWins(list: seq<LeaveRequest>, id: string, s1: string, s2: string)
    ensures MergeStatus(MergeStatus(list, id, s1), id, s2) == MergeStatus(list, id, s2)
  {
  }

  /** Patches of different rows may arrive in either order. */
  lemma MergeCommutes(list: seq<LeaveRequest>, id1: string, s1: string, id2: string, s2: string)
    requires id1 != id2
    ensures MergeStatus(MergeStatus(list, id1, s1), id2, s2) == MergeStatus(MergeStatus(list, id2, s2), id1, s1)
  {
  }

  // ---------------------------------------------------------------------------
  // The actions column

  datatype Action = Approve | Reject

  /** The status `updateStatus` is called with for each button. */
  function TargetStatus(a: Action): string {
    match a
    case Approve => "approved"
    case Reject => "rejected"
  }

  /** The buttons rendered for a row with this status. */
  function ActionsOffered(status: string): (actions: seq<Action>)
    ensures Approve in actions <==> status == "pending"
    ensures Reject in actions <==> status == "pending"
    ensures status != "pending" ==> actions == []
  {
    if status == "pending" then [Approve, Reject] else []
  }

  /** Buttons are offered only on pending rows, and each one leads to "approved" or
      "rejected", where no button is offered any more. */
  lemma ActionsOnlyWhilePending(status: string, a: Action)
    ensures a in ActionsOffered(status) <==> status == "pending"
    ensures ActionsOffered(TargetStatus(a)) == []
  {
  }

  /** Once the admin's decision comes back through the realtime patch, the row offers
      no further action. */
  lemma DecidedRowOffersNothing(list: seq<LeaveRequest>, k: nat, a: Action)
    requires k < |list| && a in ActionsOffered(list[k].status)
    ensures var r := MergeStatus(list, list[k].id, TargetStatus(a));
      |r| == |list| && ActionsOffered(r[k].status) == []
  {
  }

  // ---------------------------------------------------------------------------
  // The component's state

  class AdminLeaveRequests {
    var leaveRequests: seq<LeaveRequest>
    var loading: bool
    var error: Option<string>

    constructor ()
      ensures leaveRequests == [] && loading && error == None
    {
      leaveRequests := [];
      loading := true;
      error := None;
    }

    /** `fetchLeaveRequests`. `authUser` is the signed-in user's id (none when
        `getUser` fails or has no user), `storedRole` the answer of the role query on
        the `users` table, and `listed` the answer of the leave-request query; `fetched`
        tells whether that last query was issued. The `finally` clause clears
        `loading` on every path, early returns included. */
    method FetchLeaveRequests(authUser: Option<string>, storedRole: Result<string>,
                              listed: Result<Option<seq<LeaveRequest>>>)
      returns (fetched: bool)
      modifies this
      ensures !loading
      ensures fetched <==> authUser.Some? && storedRole == Ok("admin")
      ensures authUser.None? ==>
        error == Some("User not authenticated") && leaveRequests == old(leaveRequests)
      ensures authUser.Some? && storedRole != Ok("admin") ==>
        error == Some("Access denied: Not an admin") && leaveRequests == old(leaveRequests)
      ensures fetched && listed.Err? ==>
        && error == Some(if listed.error == "" then "Failed to load leave requests" else listed.error)
        && leaveRequests == old(leaveRequests)
      ensures fetched && listed.Ok? ==>
        error == None && leaveRequests == (if listed.value.Some? then listed.value.value else [])
    {
      loading := true;
      error := None;
      fetched := false;
      if authUser.None? {
        error := Some("User not authenticated");
      } else if storedRole.Err? || storedRole.value != "admin" {
        error := Some("Access denied: Not an admin");
      } else {
        fetched := true;
        if listed.Err? {
          error := Some(if listed.error == "" then "Failed to load leave requests" else listed.error);
        } else {
          leaveRequests := if listed.value.Some? then listed.value.value else [];
        }
      }
      loading := false;
    }

    /** The realtime `UPDATE` handler. */
    method OnRealtimeUpdate(id: string, status: string)
      modifies this
      ensures leaveRequests == MergeStatus(old(leaveRequests), id, status)
      ensures loading == old(loading) && error == old(error)
    {
      leaveRequests := MergeStatus(leaveRequests, id, status);
    }

    /** `updateStatus(id, status)` with the update's error as input: it never edits
        the local list (the realtime patch does), and on failure it sets the error. */
    method UpdateStatus(id: string, status: string, updateError: Option<string>)
      modifies this
      ensures leaveRequests == old(leaveRequests) && loading == old(loading)
      ensures error == if updateError.Some? then Some("Failed to update leave request status") else old(error)
    {
      if updateError.Some? {
        error := Some("Failed to update leave request status");
      }
    }
  }
}
