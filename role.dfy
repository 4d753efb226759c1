/** The role middleware (`server/src/middlewares/role.js`), a guard built from a list of
    allowed roles, and the two protected routes of `server/src/routes/users.js`, which run
    it after the authentication middleware. */
module RoleGuard {
  import opened Base
  import opened UserModel
  import opened Tokens
  import opened Auth

  const Denied: string := "Access denied: insufficient permissions"

  /** `roleMiddleware(roles)` on a request whose `req.user` is `user`. */
  function Guard(roles: seq<Role>, user: Option<Principal>): (f: Flow)
    ensures f == Next <==> user.Some? && user.value.role in roles
    ensures f != Next ==> f == Reject(403, Denied)
  {
    if user.None? || user.value.role !in roles then Reject(403, Denied) else Next
  }

  /** The middleware itself: it only reads `req.user`. */
  method RoleMiddleware(roles: seq<Role>, req: Request) returns (f: Flow)
    ensures f == Next <==> req.user.Some? && req.user.value.role in roles
    ensures f != Next ==> f == Reject(403, Denied)
  {
    f := Guard(roles, req.user);
  }

  /** The roles `PUT /:id` admits. */
  const UpdateRoles: seq<Role> := [Admin]

  /** The middleware chain of `GET /:id` (authentication only) and `PUT /:id`
      (authentication, then the guard): what reaches the controller, or the first refusal. */
  function ReadRoute(header: Option<string>): Flow {
    var r := Authenticate(header);
    if r.Ok? then Next else Reject(r.status, r.message)
  }

  function UpdateRoute(header: Option<string>): Flow {
    var r := Authenticate(header);
    if r.Ok? then Guard(UpdateRoles, Some(r.value)) else Reject(r.status, r.message)
  }

  /** Who may update a user: exactly a caller whose token verifies with the role `Admin`.
      Without a usable token the answer is 401 from the first middleware, before any role
      is looked at; with a token for another role it is 403. */
  lemma UpdateRouteGate(header: Option<string>)
    ensures UpdateRoute(header) == Next <==>
      Authenticate(header).Ok? && Authenticate(header).value.role == Admin
    ensures !Authenticate(header).Ok? ==> UpdateRoute(header) == ReadRoute(header)
    ensures !Authenticate(header).Ok? ==> UpdateRoute(header).status == 401
    ensures Authenticate(header).Ok? && Authenticate(header).value.role != Admin ==>
      UpdateRoute(header) == Reject(403, Denied)
  {
  }

  /** With a token the service signed for an account, reading any user is allowed and
      updating is allowed exactly for the role the token was signed with being `Admin`. */
  lemma SignedTokenRoutes(c: Claims, expiresIn: string)
    ensures ReadRoute(Some(BearerPrefix + Sign(c, expiresIn))) == Next
    ensures UpdateRoute(Some(BearerPrefix + Sign(c, expiresIn))) == Next <==> c.role == Admin
  {
    var h := Some(BearerPrefix + Sign(c, expiresIn));
    AuthenticateSigned(c, expiresIn);
    assert UpdateRoute(h) == Guard(UpdateRoles, Some(Principal(c.id, c.role)));
  }
}
