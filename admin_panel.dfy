/** client/src/components/AdminPanel.jsx: the admin dashboard's list filter, the actions each
    row offers, and the state its handlers update. Each awaited request is a parameter holding
    how it settled; the `[filter, allUsers]` effect that recomputes the shown list is the
    `ApplyFilter` method, run after every change to either. */
module AdminPanel {
  import opened Js
  import Users

  const FetchError := "Failed to fetch users"
  const ApproveError := "Failed to approve user"
  const RevokeError := "Failed to revoke user"
  const DeleteError := "Failed to delete user"

  /** One row of `response.data.users`, with the fields the table reads. */
  datatype UserRow = UserRow(id: string, fullName: string, email: string, role: string, isApproved: bool)

  /** `response.data.stats`, computed by the server and shown as is. */
  datatype Stats = Stats(total: nat, active: nat, pending: nat, admins: nat)

  /** The three filter tabs: 'all', 'pending', 'approved'. */
  datatype Filter = All | Pending | Approved

  /** `users.filter(u => u.isApproved === approved)`, in the list's order. */
  function KeepApproval(users: seq<UserRow>, approved: bool): (r: seq<UserRow>)
    ensures |r| <= |users|
    ensures forall u :: u in r <==> u in users && u.isApproved == approved
  {
    if users == [] then []
    else
      var rest := KeepApproval(users[1..], approved);
      assert users == [users[0]] + users[1..];
      if users[0].isApproved == approved then [users[0]] + rest else rest
  }

  /** `applyFilter`: the list the table shows under each tab. */
  function FilterUsers(filter: Filter, users: seq<UserRow>): (r: seq<UserRow>)
    ensures filter.All? ==> r == users
    ensures filter.Pending? ==> forall u :: u in r <==> u in users && !u.isApproved
    ensures filter.Approved? ==> forall u :: u in r <==> u in users && u.isApproved
  {
    match filter
    case All => users
    case Pending => KeepApproval(users, false)
    case Approved => KeepApproval(users, true)
  }

  /** `a` is `b` with some elements left out, the rest in their order. */
  ghost predicate SubsequenceOf(a: seq<UserRow>, b: seq<UserRow>)
    decreases |b|
  {
    if a == [] then true
    else if b == [] then false
    else if a[0] == b[0] then SubsequenceOf(a[1..], b[1..])
    else SubsequenceOf(a, b[1..])
  }

  /** Both filters keep the order of the full list. */
  lemma {:induction false} KeepApprovalKeepsOrder(users: seq<UserRow>, approved: bool)
    ensures SubsequenceOf(KeepApproval(users, approved), users)
  {
    if users != [] {
      KeepApprovalKeepsOrder(users[1..], approved);
    }
  }

  /** The 'pending' and 'approved' tabs together show every row exactly as often as the
      full list holds it. */
  lemma {:induction false} FiltersPartition(users: seq<UserRow>)
    ensures multiset(FilterUsers(Pending, users)) + multiset(FilterUsers(Approved, users)) == multiset(users)
  {
    if users != [] {
      FiltersPartition(users[1..]);
      assert users == [users[0]] + users[1..];
    }
  }

  /** `!u.isApproved`: the Approve button. */
  predicate ShowsApprove(u: UserRow) {
    !u.isApproved
  }

  /** `u.isApproved && u.role !== 'admin'`: the Revoke button. */
  predicate ShowsRevoke(u: UserRow) {
    u.isApproved && u.role != Users.AdminRole
  }

  /** `u.role !== 'admin'`: the Delete button. */
  predicate ShowsDelete(u: UserRow) {
    u.role != Users.AdminRole
  }

  /** An admin row never offers Revoke or Delete; Approve and Revoke never show together; and a
      row shows no button at all exactly when it is an approved admin. */
  lemma RowActions(u: UserRow)
    ensures u.role == Users.AdminRole ==> !ShowsRevoke(u) && !ShowsDelete(u)
    ensures !(ShowsApprove(u) && ShowsRevoke(u))
    ensures ShowsRevoke(u) ==> ShowsDelete(u)
    ensures !ShowsApprove(u) && !ShowsRevoke(u) && !ShowsDelete(u) <==> u.isApproved && u.role == Users.AdminRole
  {
  }

  /** The 'pending' tab lists exactly the rows that offer Approve; no row of the 'approved' tab
      offers it. */
  lemma PendingTabIsApprovable(users: seq<UserRow>)
    ensures forall u :: u in FilterUsers(Pending, users) <==> u in users && ShowsApprove(u)
    ensures forall u :: u in FilterUsers(Approved, users) ==> !ShowsApprove(u)
  {
  }

  /** A request the panel sends. */
  datatype AdminRequest = GetAllUsers | PutApprove(userId: string) | PutRevoke(userId: string) | DeleteUser(userId: string)

  /** How a write request settled: `serverError` is `error.response?.data?.error`. */
  datatype Outcome = Succeeded | Failed(serverError: Option<string>)

  /** The part of the panel's state that fetches and writes update. */
  datatype PanelView = PanelView(allUsers: seq<UserRow>, stats: Stats, loading: bool, error: string)

  /** The effect of `fetchAllUsers`: a reply replaces the list and the stats and clears the
      error; a failure keeps both and sets the error; `loading` ends false either way. */
  function FetchEffect(response: Fetch<(seq<UserRow>, Stats)>, before: PanelView): (after: PanelView)
    ensures !after.loading
    ensures response.Resolved? ==>
              after.allUsers == response.value.0 && after.stats == response.value.1 && after.error == ""
    ensures response.Rejected? ==>
              after.allUsers == before.allUsers && after.stats == before.stats && after.error == FetchError
  {
    match response
    case Resolved(data) => PanelView(data.0, data.1, false, "")
    case Rejected => PanelView(before.allUsers, before.stats, false, FetchError)
  }

  /** The effect of an approve, revoke or delete: a failed write sets `message` and changes
      nothing else; a successful one refetches and then clears the error, so a failed refetch
      keeps the old list and stats and shows no error. */
  function WriteEffect(outcome: Outcome, message: string, refetch: Fetch<(seq<UserRow>, Stats)>,
                       before: PanelView): (after: PanelView)
    ensures outcome.Failed? ==> after == before.(error := message)
    ensures outcome.Succeeded? ==> !after.loading && after.error == ""
    ensures outcome.Succeeded? && refetch.Resolved? ==>
              after.allUsers == refetch.value.0 && after.stats == refetch.value.1
    ensures outcome.Succeeded? && refetch.Rejected? ==>
              after.allUsers == before.allUsers && after.stats == before.stats
  {
    if outcome.Failed? then before.(error := message)
    else FetchEffect(refetch, before).(error := "")
  }

  /** `error.response?.data?.error || 'Failed to delete user'` */
  function DeleteFailureMessage(serverError: Option<string>): (m: string)
    ensures Truthy(serverError) ==> m == serverError.value
    ensures !Truthy(serverError) ==> m == DeleteError
  {
    if Truthy(serverError) then serverError.value else DeleteError
  }

  class PanelState {
    var allUsers: seq<UserRow>
    var filteredUsers: seq<UserRow>
    var stats: Stats
    var loading: bool
    var error: string
    var filter: Filter

    /** The shown list is the filter of the full list. */
    ghost predicate Valid()
      reads this
    {
      filteredUsers == FilterUsers(filter, allUsers)
    }

    function View(): PanelView
      reads this
    {
      PanelView(allUsers, stats, loading, error)
    }

    constructor ()
      ensures Valid()
      ensures allUsers == [] && filteredUsers == [] && stats == Stats(0, 0, 0, 0)
      ensures loading && error == "" && filter == All
    {
      allUsers, filteredUsers := [], [];
      stats := Stats(0, 0, 0, 0);
      loading, error, filter := true, "", All;
    }

    /** The effect on `[filter, allUsers]`. */
    method ApplyFilter()
      modifies this`filteredUsers
      ensures Valid()
    {
      filteredUsers := FilterUsers(filter, allUsers);
    }

    /** The mount effect: a non-admin is sent to '/' and nothing is fetched. */
    method Mount(isAdmin: bool, response: Fetch<(seq<UserRow>, Stats)>)
      returns (navigateTo: Option<string>, requests: seq<AdminRequest>)
      requires Valid()
      modifies this`allUsers, this`filteredUsers, this`stats, this`error, this`loading
      ensures Valid()
      ensures !isAdmin ==> navigateTo == Some("/") && requests == [] && unchanged(this)
      ensures isAdmin ==>
                navigateTo.None? && requests == [GetAllUsers] && View() == FetchEffect(response, old(View()))
    {
      if !isAdmin {
        return Some("/"), [];
      }
      navigateTo := None;
      requests := FetchAllUsers(response);
    }

    /** `fetchAllUsers` */
    method FetchAllUsers(response: Fetch<(seq<UserRow>, Stats)>) returns (requests: seq<AdminRequest>)
      requires Valid()
      modifies this`allUsers, this`filteredUsers, this`stats, this`error, this`loading
      ensures Valid()
      ensures requests == [GetAllUsers]
      ensures View() == FetchEffect(response, old(View()))
    {
      requests := [GetAllUsers];
      match response {
        case Resolved(data) =>
          allUsers := data.0;
          stats := data.1;
          error := "";
        case Rejected =>
          error := FetchError;
      }
      loading := false;
      ApplyFilter();
    }

    /** A filter tab. */
    method SetFilter(f: Filter)
      modifies this`filter, this`filteredUsers
      ensures Valid()
      ensures filter == f && filteredUsers == FilterUsers(f, allUsers)
    {
      filter := f;
      ApplyFilter();
    }

    /** The shared body of `handleApprove`, `handleRevoke` and a confirmed `handleDelete`: the
        write, then on success a refetch and a cleared error. */
    method WriteThenRefetch(write: AdminRequest, outcome: Outcome, message: string,
                            refetch: Fetch<(seq<UserRow>, Stats)>) returns (requests: seq<AdminRequest>)
      requires Valid()
      modifies this`allUsers, this`filteredUsers, this`stats, this`error, this`loading
      ensures Valid()
      ensures requests == if outcome.Succeeded? then [write, GetAllUsers] else [write]
      ensures View() == WriteEffect(outcome, message, refetch, old(View()))
    {
      if outcome.Failed? {
        error := message;
        return [write];
      }
      var fetched := FetchAllUsers(refetch);
      error := "";
      requests := [write] + fetched;
    }

    /** `handleApprove(userId)` */
    method HandleApprove(userId: string, outcome: Outcome, refetch: Fetch<(seq<UserRow>, Stats)>)
      returns (requests: seq<AdminRequest>)
      requires Valid()
      modifies this`allUsers, this`filteredUsers, this`stats, this`error, this`loading
      ensures Valid()
      ensures requests == if outcome.Succeeded? then [PutApprove(userId), GetAllUsers] else [PutApprove(userId)]
      ensures View() == WriteEffect(outcome, ApproveError, refetch, old(View()))
    {
      requests := WriteThenRefetch(PutApprove(userId), outcome, ApproveError, refetch);
    }

    /** `handleRevoke(userId)` */
    method HandleRevoke(userId: string, outcome: Outcome, refetch: Fetch<(seq<UserRow>, Stats)>)
      returns (requests: seq<AdminRequest>)
      requires Valid()
      modifies this`allUsers, this`filteredUsers, this`stats, this`error, this`loading
      ensures Valid()
      ensures requests == if outcome.Succeeded? then [PutRevoke(userId), GetAllUsers] else [PutRevoke(userId)]
      ensures View() == WriteEffect(outcome, RevokeError, refetch, old(View()))
    {
      requests := WriteThenRefetch(PutRevoke(userId), outcome, RevokeError, refetch);
    }

    /** `handleDelete(userId)`: nothing at all unless the confirmation is accepted; a failed
        delete shows the server's error when it sent one. */
    method HandleDelete(userId: string, confirmed: bool, outcome: Outcome, refetch: Fetch<(seq<UserRow>, Stats)>)
      returns (requests: seq<AdminRequest>)
      requires Valid()
      modifies this`allUsers, this`filteredUsers, this`stats, this`error, this`loading
      ensures Valid()
      ensures !confirmed ==> requests == [] && unchanged(this)
      ensures confirmed ==>
                && requests == (if outcome.Succeeded? then [DeleteUser(userId), GetAllUsers] else [DeleteUser(userId)])
                && var message := if outcome.Failed? then DeleteFailureMessage(outcome.serverError) else DeleteError;
                   View() == WriteEffect(outcome, message, refetch, old(View()))
    {
      if !confirmed {
        return [];
      }
      var message := if outcome.Failed? then DeleteFailureMessage(outcome.serverError) else DeleteError;
      requests := WriteThenRefetch(DeleteUser(userId), outcome, message, refetch);
    }
  }
}
