/**
 * The `Guest` anonymous user and the authorization decorators
 * `permission_required`, `admin_required` and `confirm_required`, as gates a
 * request passes before its handler runs.
 */
module Guards {

  /**
   * Who `current_user` is: the `Guest` anonymous user, or a signed-in member.
   * A member's permission set and admin flag stand in for the role lookups of
   * the user model, which is not part of this model.
   */
  datatype Principal = Guest | Member(confirmed: bool, permissions: set<string>, admin: bool)

  /** The permission `admin_required` asks for. */
  const ADMINISTER: string := "ADMINISTER"

  /** `current_user.can(permission_name)`: `Guest.can` always answers false. */
  function Can(p: Principal, permission: string): (r: bool)
    ensures r <==> p.Member? && permission in p.permissions
  {
    match p
    case Guest => false
    case Member(_, permissions, _) => permission in permissions
  }

  /** `current_user.is_admin`: `Guest.is_admin` is always false. */
  function IsAdmin(p: Principal): (r: bool)
    ensures r ==> p.Member?
  {
    match p
    case Guest => false
    case Member(_, _, admin) => admin
  }

  /** What a decorated view does: run the wrapped handler, abort, redirect with a flash, or fail on a missing attribute. */
  datatype Gate = Proceed | Abort(status: int) | RedirectTo(endpoint: string, flashCategory: string) | AttributeFault

  /** `permission_required(permission_name)`: abort with 403 unless the user can. */
  function PermissionRequired(p: Principal, permission: string): (g: Gate)
    ensures g == Proceed <==> Can(p, permission)
    ensures g != Proceed ==> g == Abort(403)
  {
    if !Can(p, permission) then Abort(403) else Proceed
  }

  /** `admin_required`: `permission_required('ADMINISTER')`. */
  function AdminRequired(p: Principal): (g: Gate)
    ensures g == Proceed <==> p.Member? && ADMINISTER in p.permissions
    ensures g != Proceed ==> g == Abort(403)
  {
    PermissionRequired(p, ADMINISTER)
  }

  /**
   * `confirm_required`: an unconfirmed member is sent to `main.index` with a
   * warning; a confirmed one reaches the handler. `Guest` has no `confirmed`
   * attribute, so reading it fails.
   */
  function ConfirmRequired(p: Principal): (g: Gate)
    ensures p.Member? ==> (g == Proceed <==> p.confirmed)
    ensures p.Member? && !p.confirmed ==> g == RedirectTo("main.index", "warning")
    ensures p.Guest? ==> g == AttributeFault
  {
    match p
    case Guest => AttributeFault
    case Member(confirmed, _, _) =>
      if !confirmed then RedirectTo("main.index", "warning") else Proceed
  }

  /** The anonymous user gets through none of the gates and is never an admin. */
  lemma GuestPassesNoGate(permission: string)
    ensures !Can(Guest, permission) && !IsAdmin(Guest)
    ensures PermissionRequired(Guest, permission) == Abort(403)
    ensures AdminRequired(Guest) == Abort(403)
    ensures ConfirmRequired(Guest) != Proceed
  {
  }

  /** Permission and confirmation are independent: passing one gate says nothing about the other. */
  lemma GatesIndependent()
    ensures ConfirmRequired(Member(false, {ADMINISTER}, true)) != Proceed && AdminRequired(Member(false, {ADMINISTER}, true)) == Proceed
    ensures ConfirmRequired(Member(true, {}, false)) == Proceed && AdminRequired(Member(true, {}, false)) == Abort(403)
  {
  }
}
