/** The two Express middlewares of middleware/authMiddleware.js. `protect` reads the bearer
    token, verifies it and loads the user; `admin` lets only admins through. Token
    verification (`jwt.verify`) is a function parameter: `None` is a verification that throws
    (bad signature, expired, malformed), `Some(id)` the decoded `{ id }`. */
module AuthMiddleware {
  import opened Js
  import opened Http
  import opened Users

  const NoToken := "Not authorized, no token"
  const TokenFailed := "Not authorized, token failed"
  const UserNotFound := "User not found"
  const NotApproved := "Account not approved"
  const AdminOnly := "Access denied. Admin only."

  /** `s.split(' ')`: the pieces between single spaces, empty pieces included. */
  function Split(s: string): (r: seq<string>)
    ensures |r| >= 1
  {
    if s == [] then [""]
    else
      var rest := Split(s[1..]);
      if s[0] == ' ' then [""] + rest
      else [[s[0]] + rest[0]] + rest[1..]
  }

  /** A string without spaces splits into itself. */
  lemma {:induction false} SplitWithoutSpace(s: string)
    requires ' ' !in s
    ensures Split(s) == [s]
  {
    if s != [] {
      assert ' ' !in s[1..];
      SplitWithoutSpace(s[1..]);
      assert [s[0]] + s[1..] == s;
    }
  }

  /** Splitting a word without spaces followed by more text glues the word onto the first piece. */
  lemma {:induction false} SplitAfterWord(w: string, s: string)
    requires ' ' !in w
    ensures Split(w + s) == [w + Split(s)[0]] + Split(s)[1..]
  {
    if w == [] {
      assert w + s == s;
      assert w + Split(s)[0] == Split(s)[0];
      assert Split(s) == [Split(s)[0]] + Split(s)[1..];
    } else {
      assert (w + s)[0] == w[0] && w[0] != ' ';
      assert (w + s)[1..] == w[1..] + s;
      SplitAfterWord(w[1..], s);
      var rest := Split(w[1..] + s);
      assert rest[0] == w[1..] + Split(s)[0] && rest[1..] == Split(s)[1..];
      assert [w[0]] + (w[1..] + Split(s)[0]) == w + Split(s)[0];
    }
  }

  /** `authorization.split(' ')[1]` once the header starts with 'Bearer'; `None` is `undefined`. */
  function BearerToken(authorization: Option<string>): (token: Option<string>)
    ensures token.Some? ==> Truthy(authorization) && "Bearer" <= authorization.value
    ensures token.Some? ==> ' ' !in token.value
  {
    if Truthy(authorization) && "Bearer" <= authorization.value then
      var pieces := Split(authorization.value);
      if |pieces| > 1 then
        SplitPiecesHaveNoSpace(authorization.value, 1);
        Some(pieces[1])
      else None
    else None
  }

  lemma {:induction false} SplitPiecesHaveNoSpace(s: string, k: nat)
    requires k < |Split(s)|
    ensures ' ' !in Split(s)[k]
  {
    if s != [] {
      var rest := Split(s[1..]);
      if s[0] == ' ' {
        if k > 0 { SplitPiecesHaveNoSpace(s[1..], k - 1); }
      } else if k == 0 {
        SplitPiecesHaveNoSpace(s[1..], 0);
      } else {
        SplitPiecesHaveNoSpace(s[1..], k);
      }
    }
  }

  /** The header the client builds, `Bearer ${token}`, parses back to the same token when the
      token has no space in it (a JWT never has). */
  lemma BearerHeaderRoundTrip(token: string)
    requires ' ' !in token
    ensures BearerToken(Some("Bearer " + token)) == Some(token)
  {
    var h := "Bearer " + token;
    assert h == "Bearer" + (" " + token);
    SplitAfterWord("Bearer", " " + token);
    assert (" " + token)[1..] == token;
    SplitWithoutSpace(token);
    assert Split(" " + token) == ["", token];
  }

  /** `protect`. */
  function Protect(authorization: Option<string>, users: seq<User>,
                   verify: string -> Option<UserId>): (r: Reply<User>)
    ensures r.Ok? <==>
              var token := BearerToken(authorization);
              && Truthy(token)
              && verify(token.value).Some?
              && FindById(users, verify(token.value).value).Some?
              && FindById(users, verify(token.value).value).value.isApproved
    ensures r.Ok? ==> r.value in users && r.value.isApproved
                      && r.value.id == verify(BearerToken(authorization).value).value
    ensures !Truthy(BearerToken(authorization)) ==> r == Unauthorized(NoToken)
    ensures Truthy(BearerToken(authorization)) && verify(BearerToken(authorization).value).None? ==>
              r == Unauthorized(TokenFailed)
    ensures r == Unauthorized(UserNotFound) <==>
              var token := BearerToken(authorization);
              Truthy(token) && verify(token.value).Some? && FindById(users, verify(token.value).value).None?
    ensures r == Forbidden(NotApproved) <==>
              var token := BearerToken(authorization);
              && Truthy(token) && verify(token.value).Some?
              && FindById(users, verify(token.value).value).Some?
              && !FindById(users, verify(token.value).value).value.isApproved
    ensures r.Ok? || r.Unauthorized? || r == Forbidden(NotApproved)
  {
    var token := BearerToken(authorization);
    if !Truthy(token) then Unauthorized(NoToken)
    else match verify(token.value)
      case None => Unauthorized(TokenFailed)
      case Some(id) =>
        match FindById(users, id)
        case None => Unauthorized(UserNotFound)
        case Some(u) => if !u.isApproved then Forbidden(NotApproved) else Ok(u)
  }

  /** `admin`: `reqUser` is `req.user`, absent when `protect` did not run before it. */
  function Admin(reqUser: Option<User>): (r: Reply<User>)
    ensures r.Ok? <==> reqUser.Some? && reqUser.value.role == AdminRole
    ensures r.Ok? ==> r.value == reqUser.value
    ensures !r.Ok? ==> r == Forbidden(AdminOnly)
  {
    if reqUser.Some? && reqUser.value.role == AdminRole then Ok(reqUser.value) else Forbidden(AdminOnly)
  }

  /** A missing header, or one not starting with 'Bearer', is refused with 401 'no token'. */
  lemma ProtectWithoutBearerHeader(authorization: Option<string>, users: seq<User>,
                                   verify: string -> Option<UserId>)
    requires !Truthy(authorization) || !("Bearer" <= authorization.value)
    ensures Protect(authorization, users, verify) == Unauthorized(NoToken)
  {
  }

  /** A request carrying the header the client builds from a token that verifies to the id of
      an approved stored user passes `protect` with that user as `req.user`. */
  lemma ProtectAcceptsClientHeader(token: string, users: seq<User>, verify: string -> Option<UserId>, u: User)
    requires token != "" && ' ' !in token
    requires IdsUnique(users) && u in users && u.isApproved
    requires verify(token) == Some(u.id)
    ensures Protect(Some("Bearer " + token), users, verify) == Ok(u)
  {
    BearerHeaderRoundTrip(token);
    FindByIdUnique(users, u);
  }
}
