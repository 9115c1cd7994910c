/** The lenient role resolver (src/services/getUserRole.js): the signed-in user's role
    from the `profiles` table, with every failure turned into "guest". */
module UserRole {
  import opened Outcomes

  /** The answer of the single-row `profiles` lookup: an error result, a thrown
      exception, or the row's `role` (`None` when the row or its role is null). */
  datatype ProfileAnswer = ProfileError(message: string) | ProfileThrew(message: string) | Profile(role: Option<string>)

  /** `getUserRole`. `session` is `getSession`'s outcome: an error, or the session's
      user id when there is one; `lookup` answers the lookup for a user id. The function
      never throws: the catch-all answers "guest" as well. */
  function GetUserRole(session: Result<Option<string>>, lookup: string -> ProfileAnswer): (role: string)
    ensures role != ""
    ensures role != "guest" ==>
      && session.Ok? && session.value.Some? && session.value.value != ""
      && lookup(session.value.value).Profile?
      && lookup(session.value.value).role == Some(role)
  {
    match session
    case Err(_) => "guest"
    case Ok(user) =>
      if user.None? || user.value == "" then "guest"
      else
        match lookup(user.value)
        case ProfileError(_) => "guest"
        case ProfileThrew(_) => "guest"
        case Profile(r) => if r.Some? && r.value != "" then r.value else "guest"
  }

  /** A stored non-empty role is returned exactly as stored. */
  lemma StoredRoleReturned(userId: string, lookup: string -> ProfileAnswer, stored: string)
    requires userId != "" && stored != "" && lookup(userId) == Profile(Some(stored))
    ensures GetUserRole(Ok(Some(userId)), lookup) == stored
  {
  }

  /** Without a session user nothing is looked up: the answer is "guest" whatever the
      profiles table holds. */
  lemma NoUserNoLookup(session: Result<Option<string>>, lookup1: string -> ProfileAnswer, lookup2: string -> ProfileAnswer)
    requires session.Err? || session.value.None? || session.value.value == ""
    ensures GetUserRole(session, lookup1) == GetUserRole(session, lookup2) == "guest"
  {
  }

  /** Only the signed-in user's own profile row matters. */
  lemma OnlyOwnRowRead(userId: string, lookup1: string -> ProfileAnswer, lookup2: string -> ProfileAnswer)
    requires lookup1(userId) == lookup2(userId)
    ensures GetUserRole(Ok(Some(userId)), lookup1) == GetUserRole(Ok(Some(userId)), lookup2)
  {
  }
}
