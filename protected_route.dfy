/** The route guard (src/components/Auth/ProtectedRoute.jsx): a role fetched once, a
    placeholder while loading, then the children or a redirect to /login. */
module ProtectedRoute {
  import opened Outcomes
  import UserRole

  datatype View = Placeholder | Children | RedirectToLogin

  /** The render decision; `None` is the `null` role. */
  function Decide(loading: bool, role: Option<string>, requiredRole: string): (v: View)
    ensures loading <==> v == Placeholder
    ensures v == Children <==> !loading && role.Some? && role.value != "" && role.value == requiredRole
  {
    if loading then Placeholder
    else if role.None? || role.value == "" || role.value != requiredRole then RedirectToLogin
    else Children
  }

  /** "guest", the fallback role, never opens a guarded route. */
  lemma GuestIsRedirected(requiredRole: string)
    requires requiredRole != "guest"
    ensures Decide(false, Some("guest"), requiredRole) == RedirectToLogin
  {
  }

  class ProtectedRoute {
    var role: Option<string>
    var loading: bool
    const requiredRole: string

    constructor (requiredRole: string)
      ensures role.None? && loading && this.requiredRole == requiredRole
    {
      role := None;
      loading := true;
      this.requiredRole := requiredRole;
    }

    /** `fetchRole`. `userError` is whether `getUser` reported an error; the returned
        `data` object is always present, so only the error stops the fetch. The role
        then comes from the lenient resolver, which takes no argument. */
    method FetchRole(userError: bool, session: Result<Option<string>>, lookup: string -> UserRole.ProfileAnswer)
      modifies this
      ensures !loading
      ensures userError ==> role == old(role)
      ensures !userError ==> role == Some(UserRole.GetUserRole(session, lookup))
    {
      if userError {
        loading := false;
        return;
      }
      var userRole := UserRole.GetUserRole(session, lookup);
      role := Some(userRole);
      loading := false;
    }

    /** What the component renders in its current state. */
    function Render(): View
      reads this
    {
      Decide(loading, role, requiredRole)
    }
  }

  /** Once the role is fetched the guard opens exactly for the required role: a user
      error leaves the role null and redirects, and every resolver failure gives "guest". */
  lemma FetchedDecision(userError: bool, session: Result<Option<string>>, lookup: string -> UserRole.ProfileAnswer, requiredRole: string)
    ensures var role := if userError then None else Some(UserRole.GetUserRole(session, lookup));
            && (userError ==> Decide(false, role, requiredRole) == RedirectToLogin)
            && (!userError ==> (Decide(false, role, requiredRole) == Children <==> UserRole.GetUserRole(session, lookup) == requiredRole))
  {
  }
}
