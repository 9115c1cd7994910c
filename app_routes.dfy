/** The router (src/App.jsx): which role each path requires, and where an
    authentication event sends the user. */
module AppRoutes {
  import opened Outcomes
  import UserRole
  import ProtectedRoute

  /** The role a path's guard requires; `None` for the unguarded pages and for paths
      with no route. */
  function RequiredRole(path: string): (r: Option<string>)
    ensures path == "/tasks" || path == "/admin" ==> r == Some("admin")
    ensures path == "/employee-dashboard" ==> r == Some("employee")
    ensures path !in {"/tasks", "/admin", "/employee-dashboard"} ==> r.None?
  {
    if path == "/tasks" || path == "/admin" then Some("admin")
    else if path == "/employee-dashboard" then Some("employee")
    else None
  }

  /** Where a sign-in lands: admins on /admin, every other role on the employee page. */
  function LandingPage(role: string): (path: string)
    ensures path == "/admin" <==> role == "admin"
    ensures path == "/admin" || path == "/employee-dashboard"
  {
    if role == "admin" then "/admin" else "/employee-dashboard"
  }

  /** The landing page's guard opens exactly for "admin" and "employee"; any other role,
      "guest" included, is sent on to /login. */
  lemma LandingIsAdmitted(role: string)
    ensures var path := LandingPage(role);
            RequiredRole(path).Some?
            && (ProtectedRoute.Decide(false, Some(role), RequiredRole(path).value) == ProtectedRoute.Children
                <==> role == "admin" || role == "employee")
  {
  }

  /** `AuthChangeHandler`'s state and the navigations it has issued. */
  class AuthChangeHandler {
    var userRole: Option<string>
    var navigations: seq<string>

    constructor ()
      ensures userRole.None? && navigations == []
    {
      userRole := None;
      navigations := [];
    }

    /** `handleAuthChange` for `event`; the role on sign-in comes from the lenient
        resolver. */
    method HandleAuthChange(event: string, session: Result<Option<string>>, lookup: string -> UserRole.ProfileAnswer)
      modifies this
      ensures event == "SIGNED_IN" ==>
        var role := UserRole.GetUserRole(session, lookup);
        userRole == Some(role) && navigations == old(navigations) + [LandingPage(role)]
      ensures event == "SIGNED_OUT" ==> userRole.None? && navigations == old(navigations) + ["/"]
      ensures event != "SIGNED_IN" && event != "SIGNED_OUT" ==>
        userRole == old(userRole) && navigations == old(navigations)
    {
      if event == "SIGNED_IN" {
        var role := UserRole.GetUserRole(session, lookup);
        userRole := Some(role);
        if role == "admin" {
          navigations := navigations + ["/admin"];
        } else {
          navigations := navigations + ["/employee-dashboard"];
        }
      } else if event == "SIGNED_OUT" {
        userRole := None;
        navigations := navigations + ["/"];
      }
    }
  }
}
