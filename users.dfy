/** The user collection as the controller, the middleware and the seed script see it.
    The Mongoose model behind it (models/User) is not part of this model: the collection
    is a sequence of records in natural (insertion) order, ids are issued by the store,
    and the schema defaults for `role` and `isApproved` are a parameter of the store. */
module Users {
  import opened Js

  type UserId = nat

  /** An opaque timestamp (`new Date()`). */
  type Timestamp = int

  const AdminRole := "admin"

  /** A stored user. `password` is whatever the caller handed to the store; hashing by the
      schema's pre-save hook is not modelled. */
  datatype User = User(
    id: UserId,
    fullName: string,
    email: string,
    password: string,
    role: string,
    isApproved: bool,
    approvedBy: Option<UserId>,
    approvedAt: Option<Timestamp>)

  /** A user without its password: the result of `.select('-password')`. */
  datatype PublicUser = PublicUser(
    id: UserId,
    fullName: string,
    email: string,
    role: string,
    isApproved: bool,
    approvedBy: Option<UserId>,
    approvedAt: Option<Timestamp>)

  /** The values the schema gives to fields that a new document leaves unset. */
  datatype SchemaDefaults = SchemaDefaults(role: string, isApproved: bool)

  /** The fields passed to `User.create` / `new User(...)`; `None` leaves a field to its default. */
  datatype NewUser = NewUser(
    fullName: string,
    email: string,
    password: string,
    role: Option<string>,
    isApproved: Option<bool>)

  function Public(u: User): (p: PublicUser)
    ensures p.id == u.id && p.fullName == u.fullName && p.email == u.email && p.role == u.role
    ensures p.isApproved == u.isApproved && p.approvedBy == u.approvedBy && p.approvedAt == u.approvedAt
  {
    PublicUser(u.id, u.fullName, u.email, u.role, u.isApproved, u.approvedBy, u.approvedAt)
  }

  ghost predicate IdsUnique(users: seq<User>) {
    forall i, j :: 0 <= i < j < |users| ==> users[i].id != users[j].id
  }

  /** The position of the record with id `id`, if there is one. */
  function IndexOfId(users: seq<User>, id: UserId): (r: Option<nat>)
    ensures r.Some? ==> r.value < |users| && users[r.value].id == id
    ensures r.Some? ==> forall j :: 0 <= j < r.value ==> users[j].id != id
    ensures r.None? <==> forall j :: 0 <= j < |users| ==> users[j].id != id
  {
    if users == [] then None
    else if users[0].id == id then Some(0)
    else match IndexOfId(users[1..], id)
      case None => None
      case Some(k) => Some(k + 1)
  }

  /** `User.findById(id)` */
  function FindById(users: seq<User>, id: UserId): (r: Option<User>)
    ensures r.Some? ==> r.value in users && r.value.id == id
    ensures r.None? <==> forall u :: u in users ==> u.id != id
  {
    match IndexOfId(users, id)
    case None => None
    case Some(i) => Some(users[i])
  }

  /** `User.findOne(filter)`: the first record in natural order that matches. */
  function FindFirst(users: seq<User>, matches: User -> bool): (r: Option<User>)
    ensures r.Some? ==> r.value in users && matches(r.value)
    ensures r.None? <==> forall u :: u in users ==> !matches(u)
  {
    if users == [] then None
    else if matches(users[0]) then Some(users[0])
    else FindFirst(users[1..], matches)
  }

  /** `User.findOne({ email })` */
  function FindByEmail(users: seq<User>, email: string): (r: Option<User>)
    ensures r.Some? ==> r.value in users && r.value.email == email
    ensures r.None? <==> forall u :: u in users ==> u.email != email
  {
    FindFirst(users, (u: User) => u.email == email)
  }

  /** `User.findOne({ role })` */
  function FindByRole(users: seq<User>, role: string): (r: Option<User>)
    ensures r.Some? ==> r.value in users && r.value.role == role
    ensures r.None? <==> forall u :: u in users ==> u.role != role
  {
    FindFirst(users, (u: User) => u.role == role)
  }

  /** The number of records whose role is 'admin'. */
  function AdminCount(users: seq<User>): (n: nat)
    ensures n <= |users|
    ensures n == 0 <==> FindByRole(users, AdminRole).None?
  {
    if users == [] then 0
    else AdminCount(users[1..]) + (if users[0].role == AdminRole then 1 else 0)
  }

  lemma {:induction false} AdminCountAppend(users: seq<User>, u: User)
    ensures AdminCount(users + [u]) == AdminCount(users) + (if u.role == AdminRole then 1 else 0)
  {
    if users != [] {
      assert (users + [u])[1..] == users[1..] + [u];
      AdminCountAppend(users[1..], u);
    }
  }

  /** The record `User.create`/`save` stores for `fields` under a freshly issued id. */
  function Instantiate(fields: NewUser, id: UserId, defaults: SchemaDefaults): (u: User)
    ensures u.id == id && u.fullName == fields.fullName && u.email == fields.email
    ensures u.password == fields.password
    ensures u.role == fields.role.GetOr(defaults.role)
    ensures u.isApproved == fields.isApproved.GetOr(defaults.isApproved)
    ensures u.approvedBy.None? && u.approvedAt.None?
  {
    User(id, fields.fullName, fields.email, fields.password,
         fields.role.GetOr(defaults.role), fields.isApproved.GetOr(defaults.isApproved), None, None)
  }

  /** A record after the approve update `{ isApproved: true, approvedBy, approvedAt }`. */
  function Approved(u: User, approver: UserId, at: Timestamp): (v: User)
    ensures v.isApproved && v.approvedBy == Some(approver) && v.approvedAt == Some(at)
    ensures v.(isApproved := u.isApproved, approvedBy := u.approvedBy, approvedAt := u.approvedAt) == u
  {
    u.(isApproved := true, approvedBy := Some(approver), approvedAt := Some(at))
  }

  /** The collection after `findByIdAndUpdate(id, approve-update)`. */
  function WithApproval(users: seq<User>, id: UserId, approver: UserId, at: Timestamp): (r: seq<User>)
    ensures |r| == |users|
    ensures forall k :: 0 <= k < |users| ==> r[k].id == users[k].id
    ensures forall k :: 0 <= k < |users| && users[k].id != id ==> r[k] == users[k]
  {
    match IndexOfId(users, id)
    case None => users
    case Some(i) => users[i := Approved(users[i], approver, at)]
  }

  /** The collection after `findByIdAndDelete(id)`. */
  function WithoutId(users: seq<User>, id: UserId): (r: seq<User>)
    ensures |users| - 1 <= |r| <= |users|
    ensures forall u :: u in r ==> u in users
  {
    match IndexOfId(users, id)
    case None => users
    case Some(i) => users[..i] + users[i + 1..]
  }

  /** Approving touches only the target: every other id is found unchanged, the target is
      found approved and stamped, and an absent id leaves the collection as it was. */
  lemma WithApprovalLookup(users: seq<User>, id: UserId, approver: UserId, at: Timestamp, other: UserId)
    ensures |WithApproval(users, id, approver, at)| == |users|
    ensures other != id ==> FindById(WithApproval(users, id, approver, at), other) == FindById(users, other)
    ensures FindById(users, id).None? ==> WithApproval(users, id, approver, at) == users
    ensures FindById(users, id).Some? ==>
      FindById(WithApproval(users, id, approver, at), id) == Some(Approved(FindById(users, id).value, approver, at))
  {
    var r := WithApproval(users, id, approver, at);
    match IndexOfId(users, id)
    case None =>
    case Some(i) =>
      IndexOfIdUpdate(users, i, Approved(users[i], approver, at), other);
      IndexOfIdUpdate(users, i, Approved(users[i], approver, at), id);
  }

  /** Replacing a record by one with the same id does not move any id. */
  lemma {:induction false} IndexOfIdUpdate(users: seq<User>, i: nat, v: User, x: UserId)
    requires i < |users| && v.id == users[i].id
    ensures IndexOfId(users[i := v], x) == IndexOfId(users, x)
  {
    if i > 0 {
      assert users[i := v][1..] == users[1..][i - 1 := v];
      IndexOfIdUpdate(users[1..], i - 1, v, x);
    }
  }

  /** Approval is idempotent: approving twice with the same stamp equals approving once. */
  lemma ApproveIdempotent(users: seq<User>, id: UserId, approver: UserId, at: Timestamp)
    ensures WithApproval(WithApproval(users, id, approver, at), id, approver, at) == WithApproval(users, id, approver, at)
  {
    match IndexOfId(users, id)
    case None =>
    case Some(i) =>
      IndexOfIdUpdate(users, i, Approved(users[i], approver, at), id);
  }

  /** With unique ids, `findById` finds exactly the record that carries the id. */
  lemma FindByIdUnique(users: seq<User>, u: User)
    requires IdsUnique(users) && u in users
    ensures FindById(users, u.id) == Some(u)
  {
    var v := FindById(users, u.id).value;
    var a :| 0 <= a < |users| && users[a] == u;
    var b :| 0 <= b < |users| && users[b] == v;
    assert a == b;
  }

  /** Removing the record at `i` keeps ids unique and keeps exactly the other records. */
  lemma RemoveAtFacts(users: seq<User>, i: nat)
    requires IdsUnique(users) && i < |users|
    ensures IdsUnique(users[..i] + users[i + 1..])
    ensures forall u :: u in users[..i] + users[i + 1..] <==> u in users && u.id != users[i].id
  {
    var r := users[..i] + users[i + 1..];
    assert forall k :: 0 <= k < |r| ==> r[k] == users[if k < i then k else k + 1];
    forall u ensures u in r <==> u in users && u.id != users[i].id {
      if u in users && u.id != users[i].id {
        var k :| 0 <= k < |users| && users[k] == u;
        assert r[if k < i then k else k - 1] == u;
      }
    }
  }

  /** In a collection with unique ids, deleting `id` removes exactly that record: it is no
      longer found, every other id is found as before, and the size drops by one. */
  lemma WithoutIdLookup(users: seq<User>, id: UserId, other: UserId)
    requires IdsUnique(users)
    ensures FindById(WithoutId(users, id), id).None?
    ensures other != id ==> FindById(WithoutId(users, id), other) == FindById(users, other)
    ensures |WithoutId(users, id)| == if FindById(users, id).Some? then |users| - 1 else |users|
    ensures IdsUnique(WithoutId(users, id))
  {
    match IndexOfId(users, id)
    case None =>
    case Some(i) =>
      var r := users[..i] + users[i + 1..];
      RemoveAtFacts(users, i);
      if other != id {
        match FindById(users, other)
        case None =>
        case Some(u) =>
          FindByIdUnique(r, u);
      }
  }

  /** A store that owns the user collection, as Mongoose's `User` model does. */
  class UserStore {
    var users: seq<User>
    var nextId: nat
    const defaults: SchemaDefaults

    ghost predicate Valid()
      reads this
    {
      IdsUnique(users) && forall u :: u in users ==> u.id < nextId
    }

    constructor (defaults: SchemaDefaults)
      ensures Valid() && users == [] && this.defaults == defaults
    {
      users := [];
      nextId := 0;
      this.defaults := defaults;
    }

    /** `User.create(fields)` / `new User(fields).save()`: appends one record under a fresh id. */
    method Create(fields: NewUser) returns (u: User)
      requires Valid()
      modifies this
      ensures Valid()
      ensures u == Instantiate(fields, old(nextId), defaults)
      ensures forall v :: v in old(users) ==> v.id != u.id
      ensures users == old(users) + [u]
    {
      u := Instantiate(fields, nextId, defaults);
      users := users + [u];
      nextId := nextId + 1;
    }

    /** `User.findByIdAndUpdate(id, { isApproved: true, approvedBy, approvedAt }, { new: true })` */
    method FindByIdAndApprove(id: UserId, approver: UserId, at: Timestamp) returns (r: Option<User>)
      requires Valid()
      modifies this`users
      ensures Valid()
      ensures users == WithApproval(old(users), id, approver, at)
      ensures r == FindById(users, id)
      ensures r.None? <==> FindById(old(users), id).None?
    {
      var i := IndexOfId(users, id);
      if i.Some? {
        var v := Approved(users[i.value], approver, at);
        IndexOfIdUpdate(users, i.value, v, id);
        users := users[i.value := v];
        assert forall k :: 0 <= k < |users| ==> users[k].id == old(users)[k].id;
        r := Some(v);
      } else {
        r := None;
      }
    }

    /** `User.findByIdAndDelete(id)`: returns the removed record, if any. */
    method FindByIdAndDelete(id: UserId) returns (r: Option<User>)
      requires Valid()
      modifies this`users
      ensures Valid()
      ensures users == WithoutId(old(users), id)
      ensures r == FindById(old(users), id)
    {
      r := FindById(users, id);
      WithoutIdLookup(users, id, id);
      var i := IndexOfId(users, id);
      if i.Some? {
        assert forall u :: u in users[..i.value] + users[i.value + 1..] ==> u in users;
        users := users[..i.value] + users[i.value + 1..];
      }
    }
  }
}
