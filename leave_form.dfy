/** The employee's leave-request form (src/components/LeaveRequest.jsx): submitting inserts
    a pending request built from the form fields and clears the form on success. */
module LeaveForm {
  import opened Outcomes
  import LeaveAdmin

  /** The row the form inserts into `leave_requests`. */
  datatype NewLeave = NewLeave(userId: string, leaveType: string, startDate: string, endDate: string,
                               reason: string, status: string)

  /** The row a submit inserts: the form's fields, always with status "pending". */
  function NewRequest(userId: string, leaveType: string, startDate: string, endDate: string, reason: string): NewLeave {
    NewLeave(userId, leaveType, startDate, endDate, reason, "pending")
  }

  class LeaveRequestForm {
    var leaveType: string
    var startDate: string
    var endDate: string
    var reason: string
    var loading: bool
    var user: Option<string>
    var alerts: seq<string>
    /** Rows this form has inserted into `leave_requests`. */
    var inserted: seq<NewLeave>

    constructor ()
      ensures leaveType == "" && startDate == "" && endDate == "" && reason == ""
      ensures !loading && user == None && alerts == [] && inserted == []
    {
      leaveType, startDate, endDate, reason := "", "", "", "";
      loading := false;
      user := None;
      alerts := [];
      inserted := [];
    }

    /** The mount effect: `getUser`'s answer; on an error or no user nothing is set. */
    method FetchUser(signedIn: Result<Option<string>>)
      modifies this
      ensures user == if signedIn.Ok? && signedIn.value.Some? then signedIn.value else old(user)
      ensures leaveType == old(leaveType) && startDate == old(startDate) && endDate == old(endDate)
      ensures reason == old(reason) && loading == old(loading) && alerts == old(alerts) && inserted == old(inserted)
    {
      if signedIn.Ok? && signedIn.value.Some? {
        user := signedIn.value;
      }
    }

    /** `handleSubmit` with the insert's error as input. */
    method HandleSubmit(insertError: Option<string>)
      modifies this
      ensures user == old(user)
      ensures user.Some? ==> !loading
      ensures user.None? ==>
        && loading == old(loading) && alerts == old(alerts) + ["User not authenticated"] && inserted == old(inserted)
        && leaveType == old(leaveType) && startDate == old(startDate) && endDate == old(endDate) && reason == old(reason)
      ensures user.Some? && insertError.Some? ==>
        && alerts == old(alerts) + ["Failed to submit leave request"] && inserted == old(inserted)
        && leaveType == old(leaveType) && startDate == old(startDate) && endDate == old(endDate) && reason == old(reason)
      ensures user.Some? && insertError.None? ==>
        && alerts == old(alerts) + ["Leave request submitted successfully"]
        && inserted == old(inserted) + [NewRequest(user.value, old(leaveType), old(startDate), old(endDate), old(reason))]
        && leaveType == "" && startDate == "" && endDate == "" && reason == ""
    {
      if user.None? {
        alerts := alerts + ["User not authenticated"];
        return;
      }
      loading := true;
      if insertError.Some? {
        alerts := alerts + ["Failed to submit leave request"];
      } else {
        inserted := inserted + [NewRequest(user.value, leaveType, startDate, endDate, reason)];
        alerts := alerts + ["Leave request submitted successfully"];
        leaveType := "";
        startDate := "";
        endDate := "";
        reason := "";
      }
      loading := false;
    }
  }

  /** Whatever the fields, the request a submit inserts starts pending, so the admin is
      offered exactly the Approve and Reject actions on it. */
  lemma NewRequestIsActionable(userId: string, leaveType: string, startDate: string, endDate: string, reason: string)
    ensures var n := NewRequest(userId, leaveType, startDate, endDate, reason);
      LeaveAdmin.ActionsOffered(n.status) == [LeaveAdmin.Approve, LeaveAdmin.Reject]
  {
  }
}
