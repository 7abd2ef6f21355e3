/** scripts/createAdmin.js: seeds the first admin account unless an admin already exists.
    Connecting to MongoDB, logging and `process.exit` are not modelled. */
module CreateAdmin {
  import opened Js
  import opened Users

  const SeedFullName := "Admin User"
  const SeedEmail := "admin@example.com"
  const SeedPassword := "admin123"

  /** What one run of the script did: found an admin (whose email it logs), or created one. */
  datatype SeedResult = AlreadyExists(email: string) | CreatedAdmin(user: User)

  /** The fields of the seeded account. */
  function SeedFields(): (f: NewUser)
    ensures f.role == Some(AdminRole) && f.isApproved == Some(true)
    ensures f.fullName == SeedFullName && f.email == SeedEmail
  {
    NewUser(SeedFullName, SeedEmail, SeedPassword, Some(AdminRole), Some(true))
  }

  /** `createAdminUser`: check for an admin, then create and save one. */
  method CreateAdminUser(store: UserStore) returns (result: SeedResult)
    requires store.Valid()
    modifies store
    ensures store.Valid()
    ensures FindByRole(old(store.users), AdminRole).Some? ==>
              result == AlreadyExists(FindByRole(old(store.users), AdminRole).value.email) && unchanged(store)
    ensures FindByRole(old(store.users), AdminRole).None? ==>
              && result.CreatedAdmin?
              && store.users == old(store.users) + [result.user]
              && result.user.role == AdminRole && result.user.isApproved
              && result.user.fullName == SeedFullName && result.user.email == SeedEmail
              && result.user.password == SeedPassword
              && (forall v :: v in old(store.users) ==> v.id != result.user.id)
    ensures AdminCount(store.users) == if AdminCount(old(store.users)) == 0 then 1 else AdminCount(old(store.users))
  {
    var existing := FindByRole(store.users, AdminRole);
    if existing.Some? {
      return AlreadyExists(existing.value.email);
    }
    var u := store.Create(SeedFields());
    AdminCountAppend(old(store.users), u);
    result := CreatedAdmin(u);
  }

  /** Running the script any number of times creates at most one admin in total: the
      collection grows by at most one record, and only when there was no admin. */
  method RunRepeatedly(store: UserStore, runs: nat)
    requires store.Valid()
    modifies store
    ensures store.Valid()
    ensures AdminCount(store.users) == if AdminCount(old(store.users)) == 0 && runs > 0 then 1
                                       else AdminCount(old(store.users))
    ensures |store.users| <= |old(store.users)| + 1
    ensures AdminCount(old(store.users)) > 0 || runs == 0 ==> store.users == old(store.users)
  {
    var k := 0;
    while k < runs
      invariant 0 <= k <= runs
      invariant store.Valid()
      invariant AdminCount(store.users) == if AdminCount(old(store.users)) == 0 && k > 0 then 1
                                           else AdminCount(old(store.users))
      invariant |store.users| <= |old(store.users)| + 1
      invariant k > 0 && AdminCount(old(store.users)) == 0 ==> |store.users| == |old(store.users)| + 1
      invariant AdminCount(old(store.users)) > 0 || k == 0 ==> store.users == old(store.users)
    {
      var _ := CreateAdminUser(store);
      k := k + 1;
    }
  }
}
