/** The `EnsureUserIsActive` middleware in front of the authenticated API. */
module ActiveUserMiddleware {
  import opened Common
  import opened Users

  /** The request goes on, or a JSON error. */
  datatype Gate = Next | Reject(status: int, code: string, message: string)

  const Unauthenticated: string := "UNAUTHENTICATED"
  const UnauthenticatedMessage: string := "Authentication required."
  const AccountDisabled: string := "ACCOUNT_DISABLED"
  const AccountDisabledMessage: string := "Your account has been deactivated. Please contact an administrator."

  /**
   * `handle`: only a signed-in, active user gets through; no user is a 401,
   * a deactivated one a 403.
   */
  function Handle(user: Option<User>): (g: Gate)
    ensures g == Next <==> user.Some? && user.value.isActive
    ensures g == Reject(401, Unauthenticated, UnauthenticatedMessage) <==> user.None?
    ensures g == Reject(403, AccountDisabled, AccountDisabledMessage) <==> user.Some? && !user.value.isActive
  {
    if user.None? then Reject(401, Unauthenticated, UnauthenticatedMessage)
    else if !user.value.isActive then Reject(403, AccountDisabled, AccountDisabledMessage)
    else Next
  }

  /** Deactivating a user shuts them out at once, whatever tokens they still hold. */
  lemma DeactivatedIsLockedOut(u: User)
    ensures Handle(Some(u.(isActive := false))).Reject?
    ensures Handle(Some(u.(isActive := false))).status == 403
  {
  }
}
