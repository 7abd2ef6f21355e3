/** The route table of routes/authRoutes.js and how Express runs a route's guard chain
    before its handler. The handlers getAllUsers, revokeUser and deleteUser are routed but
    their bodies are not part of this model: only who may reach them is. */
module AuthRoutes {
  import opened Js
  import opened Http
  import opened Users
  import opened AuthMiddleware
  import AuthController

  datatype Verb = Get | Post | Put | Delete

  datatype Guard = ProtectGuard | AdminGuard

  datatype Handler =
    | Register | Login | GetMe
    | GetPendingUsers | GetAllUsers | ApproveUser | RevokeUser | RejectUser | DeleteUser

  datatype Route = Route(verb: Verb, path: string, guards: seq<Guard>, handler: Handler)

  predicate IsAdminHandler(h: Handler) {
    h.GetPendingUsers? || h.GetAllUsers? || h.ApproveUser? || h.RevokeUser? || h.RejectUser? || h.DeleteUser?
  }

  /** The routes, in registration order. */
  const Routes: seq<Route> := [
    Route(Post, "/register", [], Register),
    Route(Post, "/login", [], Login),
    Route(Get, "/me", [ProtectGuard], GetMe),
    Route(Get, "/pending-users", [ProtectGuard, AdminGuard], GetPendingUsers),
    Route(Get, "/all-users", [ProtectGuard, AdminGuard], GetAllUsers),
    Route(Put, "/approve/:userId", [ProtectGuard, AdminGuard], ApproveUser),
    Route(Put, "/revoke/:userId", [ProtectGuard, AdminGuard], RevokeUser),
    Route(Delete, "/reject/:userId", [ProtectGuard, AdminGuard], RejectUser),
    Route(Delete, "/delete/:userId", [ProtectGuard, AdminGuard], DeleteUser)
  ]

  /** Runs a guard chain: each guard either calls `next()` (the chain goes on, `protect`
      setting `req.user`) or answers the request (the chain stops with that reply).
      `Ok(reqUser)` means the handler runs with that `req.user`. */
  function RunGuards(guards: seq<Guard>, reqUser: Option<User>, authorization: Option<string>,
                     users: seq<User>, verify: string -> Option<UserId>): (r: Reply<Option<User>>)
    ensures guards == [] ==> r == Ok(reqUser)
    ensures r.Ok? || r.Unauthorized? || r.Forbidden?
  {
    if guards == [] then Ok(reqUser)
    else
      var step := match guards[0]
        case ProtectGuard => Protect(authorization, users, verify)
        case AdminGuard => Admin(reqUser);
      match step
      case Ok(u) => RunGuards(guards[1..], Some(u), authorization, users, verify)
      case Created(u) => RunGuards(guards[1..], Some(u), authorization, users, verify)
      case BadRequest(e) => BadRequest(e)
      case Unauthorized(e) => Unauthorized(e)
      case Forbidden(e) => Forbidden(e)
      case NotFound(e) => NotFound(e)
  }

  /** What a request to `route` gets before (or instead of) its handler. */
  function Dispatch(route: Route, authorization: Option<string>, users: seq<User>,
                    verify: string -> Option<UserId>): (r: Reply<Option<User>>)
    ensures route.guards == [] ==> r == Ok(None)
    ensures r.Ok? || r.Unauthorized? || r.Forbidden?
  {
    RunGuards(route.guards, None, authorization, users, verify)
  }

  /** The failure of `protect`, carried over to the chain's reply type. */
  function Refusal(r: Reply<User>): (f: Reply<Option<User>>)
    requires !r.Ok? && !r.Created?
    ensures f.Status() == r.Status()
  {
    match r
    case BadRequest(e) => BadRequest(e)
    case Unauthorized(e) => Unauthorized(e)
    case Forbidden(e) => Forbidden(e)
    case NotFound(e) => NotFound(e)
  }

  /** The chain `protect, admin`: the handler runs exactly for an approved admin; a request
      `protect` refuses gets protect's reply, and an approved non-admin gets 403. */
  lemma ProtectThenAdmin(authorization: Option<string>, users: seq<User>, verify: string -> Option<UserId>)
    ensures var r := RunGuards([ProtectGuard, AdminGuard], None, authorization, users, verify);
            var p := Protect(authorization, users, verify);
            && (r.Ok? <==> p.Ok? && p.value.role == AdminRole)
            && (r.Ok? ==> r.value == Some(p.value))
            && (!p.Ok? ==> r == Refusal(p))
            && (p.Ok? && p.value.role != AdminRole ==> r == Forbidden(AdminOnly))
  {
    var p := Protect(authorization, users, verify);
    assert [ProtectGuard, AdminGuard][1..] == [AdminGuard];
    assert [AdminGuard][1..] == [];
    if p.Ok? {
      assert RunGuards([AdminGuard], Some(p.value), authorization, users, verify)
          == (if p.value.role == AdminRole then Ok(Some(p.value)) else Forbidden(AdminOnly));
    }
  }

  /** register and login run for every request; /me runs exactly when `protect` passes. */
  lemma PublicAndMeRoutes(authorization: Option<string>, users: seq<User>, verify: string -> Option<UserId>)
    ensures Dispatch(Routes[0], authorization, users, verify) == Ok(None)
    ensures Dispatch(Routes[1], authorization, users, verify) == Ok(None)
    ensures var r := Dispatch(Routes[2], authorization, users, verify);
            var p := Protect(authorization, users, verify);
            && (r.Ok? <==> p.Ok?)
            && (p.Ok? ==> r == Ok(Some(p.value)))
            && (!p.Ok? ==> r == Refusal(p))
  {
    assert [ProtectGuard][1..] == [];
  }

  /** Every admin route runs `protect` before `admin`, so its handler runs only for an
      approved admin, and an approved non-admin reaches /me but gets 403 on each of them. */
  lemma AdminRoutesNeedApprovedAdmin(i: nat, authorization: Option<string>, users: seq<User>,
                                     verify: string -> Option<UserId>)
    requires i < |Routes| && IsAdminHandler(Routes[i].handler)
    ensures Routes[i].guards == [ProtectGuard, AdminGuard]
    ensures var r := Dispatch(Routes[i], authorization, users, verify);
            var p := Protect(authorization, users, verify);
            && (r.Ok? <==> p.Ok? && p.value.role == AdminRole && p.value.isApproved)
            && (p.Ok? && p.value.role != AdminRole ==>
                  r == Forbidden(AdminOnly) && Dispatch(Routes[2], authorization, users, verify).Ok?)
  {
    ProtectThenAdmin(authorization, users, verify);
    PublicAndMeRoutes(authorization, users, verify);
  }

  /** The guard chain of each handler, as the table binds it. */
  lemma GuardsByHandler(i: nat)
    requires i < |Routes|
    ensures Routes[i].handler.Register? || Routes[i].handler.Login? ==> Routes[i].guards == []
    ensures Routes[i].handler.GetMe? ==> Routes[i].guards == [ProtectGuard]
    ensures IsAdminHandler(Routes[i].handler) <==> Routes[i].guards == [ProtectGuard, AdminGuard]
  {
  }

  /** The token a successful login issues opens /me for the same account, once sent in the
      header the client builds, provided token verification inverts signing. */
  lemma LoginTokenReachesMe(users: seq<User>, body: AuthController.LoginBody,
                            comparePassword: (User, string) -> bool, sign: UserId -> string,
                            verify: string -> Option<UserId>)
    requires IdsUnique(users)
    requires AuthController.Login(users, body, comparePassword, sign).Ok?
    requires var token := AuthController.Login(users, body, comparePassword, sign).value.token;
             && token != "" && ' ' !in token
             && verify(token) == Some(AuthController.Login(users, body, comparePassword, sign).value.user.id)
    ensures var token := AuthController.Login(users, body, comparePassword, sign).value.token;
            Dispatch(Routes[2], Some("Bearer " + token), users, verify)
              == Ok(Some(FindByEmail(users, body.email.value).value))
  {
    var token := AuthController.Login(users, body, comparePassword, sign).value.token;
    var u := FindByEmail(users, body.email.value).value;
    ProtectAcceptsClientHeader(token, users, verify, u);
    PublicAndMeRoutes(Some("Bearer " + token), users, verify);
  }
}
