/** The strict role resolver (src/components/Routes/Rolebased.jsx): `null` without a
    user, the lookup error thrown to the caller, otherwise the stored role. */
module RoleBased {
  import opened Outcomes
  import UserRole

  /** `getUserRole` of the routes folder. `user` is the id of `getUser`'s user, if any.
      `Err` is a thrown error; `Ok(None)` is `null` (no user, or a null stored role). */
  function GetUserRoleStrict(user: Option<string>, lookup: string -> UserRole.ProfileAnswer): (r: Result<Option<string>>)
    ensures user.None? ==> r == Ok(None)
    ensures user.Some? && lookup(user.value).Profile? ==> r == Ok(lookup(user.value).role)
    ensures r.Err? <==> user.Some? && !lookup(user.value).Profile?
  {
    match user
    case None => Ok(None)
    case Some(id) =>
      match lookup(id)
      case ProfileError(m) => Err(m)
      case ProfileThrew(m) => Err(m)
      case Profile(role) => Ok(role)
  }

  /** For the same user and the same profiles table, the strict resolver fails exactly
      where the lenient one falls back to "guest", and agrees with it on every stored
      non-empty role. */
  lemma StrictAgreesWithLenient(userId: string, lookup: string -> UserRole.ProfileAnswer)
    requires userId != ""
    ensures GetUserRoleStrict(Some(userId), lookup).Err? ==> UserRole.GetUserRole(Ok(Some(userId)), lookup) == "guest"
    ensures var r := GetUserRoleStrict(Some(userId), lookup);
            r.Ok? && r.value.Some? && r.value.value != "" ==> UserRole.GetUserRole(Ok(Some(userId)), lookup) == r.value.value
    ensures UserRole.GetUserRole(Ok(Some(userId)), lookup) != "guest" ==>
            GetUserRoleStrict(Some(userId), lookup) == Ok(Some(UserRole.GetUserRole(Ok(Some(userId)), lookup)))
  {
  }
}
