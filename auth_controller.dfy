/** The account handlers of controllers/authController.js: register, login, getMe,
    getPendingUsers, approveUser and rejectUser. Password comparison (`comparePassword`)
    and token signing (`generateToken`) are function parameters: they belong to bcrypt and
    jsonwebtoken, which are not part of this model. */
module AuthController {
  import opened Js
  import opened Http
  import opened Users

  const MinPasswordLength := 6

  /** `req.body` of POST /register; a `None` field was not sent. */
  datatype RegisterBody = RegisterBody(
    fullName: Option<string>,
    email: Option<string>,
    password: Option<string>,
    confirmPassword: Option<string>)

  /** The `user` object of a successful registration reply. */
  datatype RegisterSummary = RegisterSummary(id: UserId, fullName: string, email: string, isApproved: bool)

  /** `req.body` of POST /login. */
  datatype LoginBody = LoginBody(email: Option<string>, password: Option<string>)

  /** The `user` object of a successful login reply. */
  datatype LoginSummary = LoginSummary(id: UserId, fullName: string, email: string, role: string, isApproved: bool)

  datatype LoginSuccess = LoginSuccess(token: string, user: LoginSummary)

  predicate AllFieldsPresent(body: RegisterBody) {
    Truthy(body.fullName) && Truthy(body.email) && Truthy(body.password) && Truthy(body.confirmPassword)
  }

  /** The ordered validation of `register`: the first failing check gives the error. */
  function RegisterValidation(body: RegisterBody): (r: Option<string>)
    ensures r.None? <==> AllFieldsPresent(body) && body.password.value == body.confirmPassword.value
                          && Utf16Length(body.password.value) >= MinPasswordLength
    ensures !AllFieldsPresent(body) ==> r == Some("All fields are required")
    ensures AllFieldsPresent(body) && body.password.value != body.confirmPassword.value ==>
              r == Some("Passwords do not match")
    ensures AllFieldsPresent(body) && body.password.value == body.confirmPassword.value
              && Utf16Length(body.password.value) < MinPasswordLength ==>
              r == Some("Password must be at least 6 characters")
  {
    if !AllFieldsPresent(body) then Some("All fields are required")
    else if body.password.value != body.confirmPassword.value then Some("Passwords do not match")
    else if Utf16Length(body.password.value) < MinPasswordLength then Some("Password must be at least 6 characters")
    else None
  }

  /** `register`: validates, refuses a known email, and otherwise creates one record from
      fullName, email and password, leaving role and isApproved to the schema. */
  method Register(store: UserStore, body: RegisterBody) returns (reply: Reply<RegisterSummary>)
    requires store.Valid()
    modifies store
    ensures store.Valid()
    ensures RegisterValidation(body).Some? ==>
              reply == BadRequest(RegisterValidation(body).value) && unchanged(store)
    ensures RegisterValidation(body).None? && FindByEmail(old(store.users), body.email.value).Some? ==>
              reply == BadRequest("Email already registered") && unchanged(store)
    ensures RegisterValidation(body).None? && FindByEmail(old(store.users), body.email.value).None? ==>
              && |store.users| == |old(store.users)| + 1
              && var u := store.users[|old(store.users)|];
              && store.users == old(store.users) + [u]
              && u.fullName == body.fullName.value && u.email == body.email.value
              && u.password == body.password.value
              && u.role == store.defaults.role && u.isApproved == store.defaults.isApproved
              && u.approvedBy.None? && u.approvedAt.None?
              && (forall v :: v in old(store.users) ==> v.id != u.id)
              && reply == Created(RegisterSummary(u.id, u.fullName, u.email, u.isApproved))
  {
    var invalid := RegisterValidation(body);
    if invalid.Some? {
      return BadRequest(invalid.value);
    }
    var existing := FindByEmail(store.users, body.email.value);
    if existing.Some? {
      return BadRequest("Email already registered");
    }
    var u := store.Create(NewUser(body.fullName.value, body.email.value, body.password.value, None, None));
    reply := Created(RegisterSummary(u.id, u.fullName, u.email, u.isApproved));
  }

  const InvalidCredentials := "Invalid email or password"
  const PendingApproval := "Your account is pending admin approval"

  /** `login`. `comparePassword(u, p)` stands for `u.comparePassword(p)` and `sign` for
      `generateToken`. */
  function Login(users: seq<User>, body: LoginBody,
                 comparePassword: (User, string) -> bool, sign: UserId -> string): (r: Reply<LoginSuccess>)
    ensures !Truthy(body.email) || !Truthy(body.password) ==>
              r == BadRequest("Email and password are required")
    ensures Truthy(body.email) && Truthy(body.password) && FindByEmail(users, body.email.value).None? ==>
              r == Unauthorized(InvalidCredentials)
    ensures r.Ok? || r.Forbidden? ==>
              var u := FindByEmail(users, body.email.value);
              && Truthy(body.email) && Truthy(body.password)
              && u.Some? && comparePassword(u.value, body.password.value)
              && (r.Ok? <==> u.value.isApproved)
    ensures Truthy(body.email) && Truthy(body.password) && FindByEmail(users, body.email.value).Some? ==>
              var u := FindByEmail(users, body.email.value).value;
              && (!comparePassword(u, body.password.value) ==> r == Unauthorized(InvalidCredentials))
              && (comparePassword(u, body.password.value) && !u.isApproved ==> r == Forbidden(PendingApproval))
              && (comparePassword(u, body.password.value) && u.isApproved ==> r.Ok?)
    ensures r.Ok? ==>
              var u := FindByEmail(users, body.email.value).value;
              r.value == LoginSuccess(sign(u.id), LoginSummary(u.id, u.fullName, u.email, u.role, u.isApproved))
    ensures r.Ok? || r.BadRequest? || r.Unauthorized? || r.Forbidden?
  {
    if !Truthy(body.email) || !Truthy(body.password) then BadRequest("Email and password are required")
    else match FindByEmail(users, body.email.value)
      case None => Unauthorized(InvalidCredentials)
      case Some(u) =>
        if !comparePassword(u, body.password.value) then Unauthorized(InvalidCredentials)
        else if !u.isApproved then Forbidden(PendingApproval)
        else Ok(LoginSuccess(sign(u.id), LoginSummary(u.id, u.fullName, u.email, u.role, u.isApproved)))
  }

  /** An unknown email and a wrong password for a known email get the identical reply, so a
      caller cannot tell which of the two it was. */
  lemma LoginHidesWhichCredentialFailed(users: seq<User>, unknown: LoginBody, wrong: LoginBody,
                                        comparePassword: (User, string) -> bool, sign: UserId -> string)
    requires Truthy(unknown.email) && Truthy(unknown.password) && FindByEmail(users, unknown.email.value).None?
    requires Truthy(wrong.email) && Truthy(wrong.password) && FindByEmail(users, wrong.email.value).Some?
    requires !comparePassword(FindByEmail(users, wrong.email.value).value, wrong.password.value)
    ensures Login(users, unknown, comparePassword, sign) == Login(users, wrong, comparePassword, sign)
    ensures Login(users, unknown, comparePassword, sign).Status() == 401
  {
  }

  /** No token is ever issued to an unapproved account: correct credentials give 403. */
  lemma LoginRefusesUnapproved(users: seq<User>, body: LoginBody,
                               comparePassword: (User, string) -> bool, sign: UserId -> string)
    requires Truthy(body.email) && Truthy(body.password)
    requires FindByEmail(users, body.email.value).Some?
    requires !FindByEmail(users, body.email.value).value.isApproved
    ensures !Login(users, body, comparePassword, sign).Ok?
    ensures comparePassword(FindByEmail(users, body.email.value).value, body.password.value) ==>
              Login(users, body, comparePassword, sign).Status() == 403
  {
  }

  /** `getMe`: the caller's own record without its password (`null` once it is gone). */
  function GetMe(users: seq<User>, reqUser: User): (r: Reply<Option<PublicUser>>)
    ensures r.Ok?
    ensures r.value.Some? <==> FindById(users, reqUser.id).Some?
    ensures r.value.Some? ==> r.value.value == Public(FindById(users, reqUser.id).value)
  {
    match FindById(users, reqUser.id)
    case None => Ok(None)
    case Some(u) => Ok(Some(Public(u)))
  }

  /** `User.find({ isApproved: false }).select('-password')`, in natural order. */
  function PendingUsers(users: seq<User>): (r: seq<PublicUser>)
    ensures |r| <= |users|
    ensures forall p :: p in r ==> !p.isApproved
    ensures forall u :: u in users ==> (Public(u) in r <==> !u.isApproved)
    ensures forall p :: p in r ==> exists u :: u in users && !u.isApproved && Public(u) == p
  {
    if users == [] then []
    else (if users[0].isApproved then [] else [Public(users[0])]) + PendingUsers(users[1..])
  }

  /** `getPendingUsers` */
  function GetPendingUsers(users: seq<User>): (r: Reply<seq<PublicUser>>)
    ensures r.Ok? && r.Status() == 200
    ensures forall p :: p in r.value <==> exists u :: u in users && !u.isApproved && p == Public(u)
  {
    Ok(PendingUsers(users))
  }

  /** `approveUser`: `actorId` is `req.user.id`, `now` is `new Date()`. */
  method ApproveUser(store: UserStore, actorId: UserId, userId: UserId, now: Timestamp)
    returns (reply: Reply<PublicUser>)
    requires store.Valid()
    modifies store
    ensures store.Valid()
    ensures FindById(old(store.users), userId).None? ==>
              reply == NotFound("User not found") && unchanged(store)
    ensures FindById(old(store.users), userId).Some? ==>
              && store.users == WithApproval(old(store.users), userId, actorId, now)
              && store.nextId == old(store.nextId)
              && reply == Ok(Public(Approved(FindById(old(store.users), userId).value, actorId, now)))
  {
    WithApprovalLookup(store.users, userId, actorId, now, userId);
    var u := store.FindByIdAndApprove(userId, actorId, now);
    if u.None? {
      return NotFound("User not found");
    }
    reply := Ok(Public(u.value));
  }

  /** `rejectUser`: removes the record; an unknown id gives 404. */
  method RejectUser(store: UserStore, userId: UserId) returns (reply: Reply<string>)
    requires store.Valid()
    modifies store
    ensures store.Valid()
    ensures FindById(old(store.users), userId).None? ==>
              reply == NotFound("User not found") && unchanged(store)
    ensures FindById(old(store.users), userId).Some? ==>
              && store.users == WithoutId(old(store.users), userId)
              && store.nextId == old(store.nextId)
              && reply == Ok("User rejected and removed")
  {
    var u := store.FindByIdAndDelete(userId);
    if u.None? {
      return NotFound("User not found");
    }
    reply := Ok("User rejected and removed");
  }

  /** Nothing on the server keeps an admin from being rejected: removing the only admin
      leaves a collection with no admin at all. */
  lemma RejectCanRemoveLastAdmin(users: seq<User>, admin: User)
    requires IdsUnique(users) && admin in users && admin.role == AdminRole && AdminCount(users) == 1
    ensures AdminCount(WithoutId(users, admin.id)) == 0
  {
    var r := WithoutId(users, admin.id);
    FindByIdUnique(users, admin);
    var i := IndexOfId(users, admin.id).value;
    RemoveAtFacts(users, i);
    forall v | v in r ensures v.role != AdminRole {
      if v.role == AdminRole {
        OtherAdminCounts(users, admin, v);
      }
    }
  }

  /** Two admins with different ids make the admin count at least two. */
  lemma {:induction false} OtherAdminCounts(users: seq<User>, a: User, b: User)
    requires a in users && b in users && a.role == AdminRole && b.role == AdminRole && a.id != b.id
    ensures AdminCount(users) >= 2
  {
    if users[0] == a {
      assert b in users[1..];
      assert AdminCount(users[1..]) >= 1;
    } else if users[0] == b {
      assert a in users[1..];
      assert AdminCount(users[1..]) >= 1;
    } else {
      OtherAdminCounts(users[1..], a, b);
    }
  }
}
