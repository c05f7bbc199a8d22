/**
 * The role gate of the dashboard's views (common/decorators.py):
 * `role_required(allowed_roles)` wraps a view so that an anonymous visitor is
 * sent to the login page, a user whose role is not allowed is sent to the
 * no-permission page, and everyone else gets the view's own response.
 */
module RoleGate {
  import opened Wrappers

  /** The parts of `request.user` the gate reads; `role` is `None` when the attribute is missing or null. */
  datatype RequestUser = RequestUser(isAuthenticated: bool, role: Option<string>)

  /** A request: its user and whatever else the view receives (`*args`, `**kwargs`). */
  datatype Request<A> = Request(user: RequestUser, args: A)

  /** What the wrapped view answers: a redirect to a named URL, or the inner view's response. */
  datatype Response<R> = Redirect(target: string) | ViewResponse(response: R)

  const LoginPage: string := "login"
  const NoPermissionPage: string := "no_permission"

  /**
   * `_wrapped_view(request, ...)`: authentication is checked first, then the
   * role against `allowedRoles` (by equality, so a `None` entry admits users
   * without a role), and only then is the view called, with the request
   * unchanged.
   */
  function Guarded<A, R>(allowedRoles: seq<Option<string>>, view: Request<A> -> R, request: Request<A>): (r: Response<R>)
    ensures !request.user.isAuthenticated ==> r == Redirect(LoginPage)
    ensures request.user.isAuthenticated && request.user.role !in allowedRoles ==> r == Redirect(NoPermissionPage)
    ensures r.ViewResponse? <==> request.user.isAuthenticated && request.user.role in allowedRoles
    ensures r.ViewResponse? ==> r.response == view(request)
  {
    if !request.user.isAuthenticated then Redirect(LoginPage)
    else if request.user.role !in allowedRoles then Redirect(NoPermissionPage)
    else ViewResponse(view(request))
  }

  /** `role_required(allowed_roles)(view_func)`: the wrapped view. */
  function RoleRequired<A(!new), R>(allowedRoles: seq<Option<string>>, view: Request<A> -> R): (r: Request<A> -> Response<R>)
    ensures forall request: Request<A> :: !request.user.isAuthenticated ==> r(request) == Redirect(LoginPage)
    ensures forall request: Request<A> :: r(request).ViewResponse? <==> request.user.isAuthenticated && request.user.role in allowedRoles
    ensures forall request: Request<A> :: r(request).ViewResponse? ==> r(request).response == view(request)
  {
    request => Guarded(allowedRoles, view, request)
  }

  /** With the default empty list, the view is never called: every request is redirected. */
  lemma DefaultDeniesEveryone<A(!new), R>(view: Request<A> -> R, request: Request<A>)
    ensures RoleRequired([], view)(request).Redirect?
    ensures request.user.isAuthenticated ==> RoleRequired([], view)(request) == Redirect(NoPermissionPage)
  {
  }

  /** An anonymous visitor goes to the login page whatever its role and whatever the list. */
  lemma AuthenticationComesFirst<A, R>(allowed: seq<Option<string>>, view: Request<A> -> R,
                                       user: RequestUser, args: A)
    requires !user.isAuthenticated
    ensures forall role :: Guarded(allowed, view, Request(user.(role := role), args)) == Redirect(LoginPage)
  {
  }

  /** Only the set of allowed roles matters, not their order or repetition. */
  lemma OnlyTheSetMatters<A, R>(a: seq<Option<string>>, b: seq<Option<string>>,
                                view: Request<A> -> R, request: Request<A>)
    requires forall x :: x in a <==> x in b
    ensures Guarded(a, view, request) == Guarded(b, view, request)
  {
  }

  /** Allowing more roles never turns an admitted request away. */
  lemma MoreRolesAdmitMore<A, R>(a: seq<Option<string>>, b: seq<Option<string>>,
                                 view: Request<A> -> R, request: Request<A>)
    requires forall x :: x in a ==> x in b
    requires Guarded(a, view, request).ViewResponse?
    ensures Guarded(b, view, request) == Guarded(a, view, request)
  {
  }
}
