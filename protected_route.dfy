/** client/src/components/ProtectedRoute.jsx: what a guarded page renders, decided from the
    auth context's `loading` and `user` and the route's `adminOnly` flag. */
module ProtectedRoute {
  import opened Js
  import opened Http
  import Users
  import AuthMiddleware

  /** The three things the guard can render. */
  datatype View = Spinner | Redirect(to: string) | Children

  /** The logged-in user as the client holds it; only the role is read. */
  datatype ClientUser = ClientUser(role: string)

  /** The guard, with `adminOnly` defaulting to false at the call site. */
  function Decide(loading: bool, user: Option<ClientUser>, adminOnly: bool): (v: View)
    ensures loading ==> v == Spinner
    ensures !loading && user.None? ==> v == Redirect("/login")
    ensures !loading && user.Some? && adminOnly && user.value.role != Users.AdminRole ==> v == Redirect("/")
    ensures v == Children <==> !loading && user.Some? && (!adminOnly || user.value.role == Users.AdminRole)
  {
    if loading then Spinner
    else if user.None? then Redirect("/login")
    else if adminOnly && user.value.role != Users.AdminRole then Redirect("/")
    else Children
  }

  /** Without `adminOnly`, every logged-in user sees the page once loading is over. */
  lemma AnyUserPassesByDefault(role: string)
    ensures Decide(false, Some(ClientUser(role)), false) == Children
  {
  }

  /** For a settled session, the admin-only page and the server's `admin` middleware decide
      alike on the same account: the page renders exactly when `admin` calls `next()`. */
  lemma AdminOnlyMatchesServer(u: Users.User)
    ensures Decide(false, Some(ClientUser(u.role)), true) == Children <==> AuthMiddleware.Admin(Some(u)).Ok?
  {
  }
}
