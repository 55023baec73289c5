/**
  `isAdminMiddleware`: lets a request through only for an authenticated
  ADMIN caller. Its single effect, one call of `next` with or without an
  error, is modelled as the value it passes.
*/
module IsAdminMiddleware {
  import opened Wrappers
  import opened UserModel
  import opened Exceptions

  /** The claims the JWT strategy attaches as `req.user`; the role is
      whatever text the token carries. */
  datatype JwtPayload = JwtPayload(id: int, role: string)

  /** `next()` or `next(error)`. */
  datatype NextCall = Next | NextWithError(error: HttpError)

  function IsAdmin(user: Option<JwtPayload>): (r: NextCall)
    ensures r == Next <==> user.Some? && user.value.role == RoleName(ADMIN)
    ensures user.None? ==> r == NextWithError(UserNotFound)
    ensures user.Some? && user.value.role != RoleName(ADMIN) ==> r == NextWithError(Forbidden)
  {
    if user.None? then NextWithError(UserNotFound)
    else if user.value.role != RoleName(ADMIN) then NextWithError(Forbidden)
    else Next
  }

  /** The existence check comes first: a missing caller is never "forbidden",
      and no caller who is present is "not found". */
  lemma ExistenceBeforeRole(user: Option<JwtPayload>)
    ensures IsAdmin(user) == NextWithError(Forbidden) ==> user.Some?
    ensures IsAdmin(user) == NextWithError(UserNotFound) <==> user.None?
  {
  }

  /** A rejected request carries a 403 or a 404, never anything else. */
  lemma RejectionStatus(user: Option<JwtPayload>)
    requires IsAdmin(user).NextWithError?
    ensures Status(IsAdmin(user).error) == 404 || Status(IsAdmin(user).error) == 403
    ensures user.Some? <==> Status(IsAdmin(user).error) == 403
  {
  }

  /** A USER token is refused; the user id plays no part in the decision. */
  lemma OnlyRoleDecides(id1: int, id2: int, role: string)
    ensures IsAdmin(Some(JwtPayload(id1, role))) == IsAdmin(Some(JwtPayload(id2, role)))
    ensures IsAdmin(Some(JwtPayload(id1, RoleName(USER)))) == NextWithError(Forbidden)
  {
  }
}
