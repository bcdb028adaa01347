/** The data service of the administration tool. Users and roles are kept in two
    slots of the browser's key-value store, each holding a whole collection. Every
    operation reads the collection, validates, and writes the whole collection back
    only when validation passed. Ids and timestamps, which the service takes from the
    clock, are parameters here. */
module Api {
  import opened Seqs
  import Text

  /** An ISO-8601 time stamp as the clock renders it. */
  type Timestamp = string

  datatype User = User(id: int, name: string, email: string, createdAt: Timestamp, updatedAt: Timestamp)

  /** The fields a caller supplies to create a user; the empty string stands for an absent field. */
  datatype UserDraft = UserDraft(name: string, email: string)

  /** The fields an update may carry; `None` is a field the patch does not mention. */
  datatype UserPatch = UserPatch(name: Option<string>, email: Option<string>)

  /** A role. `permissions` is absent when the role was created without that field;
      the seeded roles carry no `updatedAt`. */
  datatype Role = Role(
    id: int,
    name: string,
    description: string,
    permissions: Option<seq<string>>,
    isDefault: bool,
    createdAt: Timestamp,
    updatedAt: Option<Timestamp>)

  datatype RoleDraft = RoleDraft(name: string, description: string, permissions: Option<seq<string>>)

  datatype RolePatch = RolePatch(name: Option<string>, description: Option<string>, permissions: Option<seq<string>>)

  /** The reasons the service gives for refusing an operation. */
  datatype ApiError =
    | NameAndEmailRequired
    | EmailExists
    | UserNotFound
    | RoleNameRequired
    | RoleNameExists
    | RoleNotFound
    | DefaultRoleNotModifiable
    | DefaultRoleNotDeletable

  datatype Outcome<T> = Ok(value: T) | Err(error: ApiError)

  /** What a successful delete reports. */
  datatype Deletion = Deletion(id: int, deletedAt: Timestamp)

  /** Reading a slot: an absent key reads as the empty collection. */
  function Stored<T>(slot: Option<seq<T>>): seq<T> {
    if slot.Some? then slot.value else []
  }

  // ---------------------------------------------------------------------------
  // Users
  // ---------------------------------------------------------------------------

  function UserIdIs(id: int): User -> bool {
    (u: User) => u.id == id
  }

  function UserIdIsNot(id: int): User -> bool {
    (u: User) => u.id != id
  }

  function EmailIs(email: string): User -> bool {
    (u: User) => u.email == email
  }

  /** Two stored users differ in id, and in email unless the email is empty. */
  predicate DistinctUsers(a: User, b: User) {
    a.id != b.id && (a.email == "" || a.email != b.email)
  }

  /** Ids are unique and no non-empty email is stored twice. */
  ghost predicate UsersValid(us: seq<User>) {
    Pairwise(us, DistinctUsers)
  }

  /** The record built from a draft (`{ ...userData, id, createdAt, updatedAt }`). */
  function NewUser(draft: UserDraft, id: int, now: Timestamp): (u: User)
    ensures u.id == id && u.name == draft.name && u.email == draft.email
    ensures u.createdAt == u.updatedAt == now
  {
    User(id, draft.name, draft.email, now, now)
  }

  /** The merge `{ ...user, ...patch, updatedAt }`: mentioned fields take the patch's
      value, the others and the id keep theirs. */
  function PatchUser(u: User, patch: UserPatch, now: Timestamp): (r: User)
    ensures r.id == u.id && r.createdAt == u.createdAt && r.updatedAt == now
    ensures r.name == (if patch.name.Some? then patch.name.value else u.name)
    ensures r.email == (if patch.email.Some? then patch.email.value else u.email)
  {
    User(u.id, patch.name.GetOr(u.name), patch.email.GetOr(u.email), u.createdAt, now)
  }

  /** The email test of an update: the patch names a non-empty email that is not the
      user's own and that some stored user already has. */
  predicate EmailConflict(us: seq<User>, k: int, patch: UserPatch)
    requires 0 <= k < |us|
    ensures EmailConflict(us, k, patch) ==>
      (patch.email.Some? && patch.email.value != "" &&
       exists i :: 0 <= i < |us| && i != k && us[i].email == patch.email.value)
  {
    && patch.email.Some?
    && patch.email.value != ""
    && patch.email.value != us[k].email
    && Any(us, EmailIs(patch.email.value))
  }

  // ---------------------------------------------------------------------------
  // Roles
  // ---------------------------------------------------------------------------

  function RoleIdIs(id: int): Role -> bool {
    (r: Role) => r.id == id
  }

  function RoleIdIsNot(id: int): Role -> bool {
    (r: Role) => r.id != id
  }

  /** The role's name equals `name` up to case. */
  function NameMatches(name: string): Role -> bool {
    (r: Role) => Text.ToLower(r.name) == Text.ToLower(name)
  }

  predicate IsDefaultRole(r: Role) {
    r.isDefault
  }

  /** Two stored roles differ in id, and in name up to case unless the name is empty. */
  predicate DistinctRoles(a: Role, b: Role) {
    a.id != b.id && (a.name == "" || Text.ToLower(a.name) != Text.ToLower(b.name))
  }

  ghost predicate RolesValid(rs: seq<Role>) {
    Pairwise(rs, DistinctRoles)
  }

  /** The protected roles of a collection, in order. */
  function Protected(rs: seq<Role>): (ps: seq<Role>)
    ensures forall r :: r in ps <==> r in rs && r.isDefault
  {
    Filter(rs, IsDefaultRole)
  }

  /** The three roles `getRoles` shows when no roles are stored. */
  function DefaultRoles(now: Timestamp): (rs: seq<Role>)
    ensures |rs| == 3
    ensures forall i :: 0 <= i < |rs| ==> rs[i].id == i + 1 && rs[i].isDefault
    ensures forall i :: 0 <= i < |rs| ==> rs[i].createdAt == now && rs[i].updatedAt.None?
    ensures rs[0].name == "Admin" && rs[1].name == "Editor" && rs[2].name == "Viewer"
    ensures rs[0].permissions.Some? && |rs[0].permissions.value| == 7
    ensures "view_users" !in rs[0].permissions.value
  {
    [
      Role(1, "Admin", "Full system access",
           Some(["create_user", "edit_user", "delete_user", "manage_roles", "assign_roles", "view_roles", "manage_permissions"]),
           true, now, None),
      Role(2, "Editor", "Can edit content and manage users",
           Some(["edit_user", "view_users", "view_roles"]), true, now, None),
      Role(3, "Viewer", "Read-only access",
           Some(["view_users", "view_roles"]), true, now, None)
    ]
  }

  /** The record built from a draft: never a default role. */
  function NewRole(draft: RoleDraft, id: int, now: Timestamp): (r: Role)
    ensures r.id == id && !r.isDefault
    ensures r.name == draft.name && r.description == draft.description && r.permissions == draft.permissions
    ensures r.createdAt == now && r.updatedAt == Some(now)
  {
    Role(id, draft.name, draft.description, draft.permissions, false, now, Some(now))
  }

  /** The merge `{ ...role, ...patch, updatedAt }`. */
  function PatchRole(r: Role, patch: RolePatch, now: Timestamp): (r': Role)
    ensures r'.id == r.id && r'.isDefault == r.isDefault && r'.createdAt == r.createdAt
    ensures r'.updatedAt == Some(now)
    ensures r'.name == (if patch.name.Some? then patch.name.value else r.name)
    ensures r'.description == (if patch.description.Some? then patch.description.value else r.description)
    ensures r'.permissions == (if patch.permissions.Some? then patch.permissions else r.permissions)
  {
    Role(r.id, patch.name.GetOr(r.name), patch.description.GetOr(r.description),
         if patch.permissions.Some? then patch.permissions else r.permissions,
         r.isDefault, r.createdAt, Some(now))
  }

  /** The name test of an update: the patch names a non-empty name other than the role's
      own, and some stored role, the role itself included, has that name up to case. */
  predicate RenameConflict(rs: seq<Role>, k: int, patch: RolePatch)
    requires 0 <= k < |rs|
  {
    && patch.name.Some?
    && patch.name.value != ""
    && patch.name.value != rs[k].name
    && Any(rs, NameMatches(patch.name.value))
  }

  // ---------------------------------------------------------------------------
  // Facts about the collections the validations keep
  // ---------------------------------------------------------------------------

  /** In a valid collection the index `findIndex` returns for an id is the only record
      with that id, so an update rewrites that user and no other. */
  lemma UserIndexUnique(us: seq<User>, k: int)
    requires UsersValid(us) && 0 <= k < |us|
    ensures FindIndex(us, UserIdIs(us[k].id)) == k
    ensures forall i :: 0 <= i < |us| && i != k ==> us[i].id != us[k].id
  {
    forall i | 0 <= i < |us| && i != k ensures us[i].id != us[k].id {
      if i < k { assert DistinctUsers(us[i], us[k]); } else { assert DistinctUsers(us[k], us[i]); }
    }
  }

  /** In a valid collection deleting a stored user's id removes that record alone. */
  lemma UserDeleteRemovesOne(us: seq<User>, k: int)
    requires UsersValid(us) && 0 <= k < |us|
    ensures Filter(us, UserIdIsNot(us[k].id)) == us[..k] + us[k + 1..]
  {
    UserIndexUnique(us, k);
    FilterRemovesOne(us, UserIdIsNot(us[k].id), k);
  }

  /** The role counterpart of `UserIndexUnique`. */
  lemma RoleIndexUnique(rs: seq<Role>, k: int)
    requires RolesValid(rs) && 0 <= k < |rs|
    ensures FindIndex(rs, RoleIdIs(rs[k].id)) == k
    ensures forall i :: 0 <= i < |rs| && i != k ==> rs[i].id != rs[k].id
  {
    forall i | 0 <= i < |rs| && i != k ensures rs[i].id != rs[k].id {
      if i < k { assert DistinctRoles(rs[i], rs[k]); } else { assert DistinctRoles(rs[k], rs[i]); }
    }
  }

  /** In a valid collection deleting a stored role's id removes that record alone. */
  lemma RoleDeleteRemovesOne(rs: seq<Role>, k: int)
    requires RolesValid(rs) && 0 <= k < |rs|
    ensures Filter(rs, RoleIdIsNot(rs[k].id)) == rs[..k] + rs[k + 1..]
  {
    RoleIndexUnique(rs, k);
    FilterRemovesOne(rs, RoleIdIsNot(rs[k].id), k);
  }

  /** An update that passed the email test keeps the user invariant. */
  lemma UpdateKeepsUsersValid(us: seq<User>, k: int, patch: UserPatch, now: Timestamp)
    requires UsersValid(us) && 0 <= k < |us| && !EmailConflict(us, k, patch)
    ensures UsersValid(us[k := PatchUser(us[k], patch, now)])
  {
    var u := PatchUser(us[k], patch, now);
    forall i | 0 <= i < |us| && i != k ensures DistinctUsers(us[i], u) && DistinctUsers(u, us[i]) {
      if i < k { assert DistinctUsers(us[i], us[k]); } else { assert DistinctUsers(us[k], us[i]); }
      if patch.email.Some? && patch.email.value != "" && patch.email.value != us[k].email {
        assert !EmailIs(patch.email.value)(us[i]);
      }
    }
    PairwiseUpdate(us, k, u, DistinctUsers);
  }

  /** An update that passed the name test keeps the role invariant. */
  lemma UpdateKeepsRolesValid(rs: seq<Role>, k: int, patch: RolePatch, now: Timestamp)
    requires RolesValid(rs) && 0 <= k < |rs| && !RenameConflict(rs, k, patch)
    ensures RolesValid(rs[k := PatchRole(rs[k], patch, now)])
  {
    var r := PatchRole(rs[k], patch, now);
    forall i | 0 <= i < |rs| && i != k ensures DistinctRoles(rs[i], r) && DistinctRoles(r, rs[i]) {
      if i < k { assert DistinctRoles(rs[i], rs[k]); } else { assert DistinctRoles(rs[k], rs[i]); }
      if patch.name.Some? && patch.name.value != "" && patch.name.value != rs[k].name {
        assert !NameMatches(patch.name.value)(rs[i]);
      }
    }
    PairwiseUpdate(rs, k, r, DistinctRoles);
  }

  /** In a valid collection, deleting a role that is not protected keeps every protected role. */
  lemma DeleteKeepsProtected(rs: seq<Role>, k: int)
    requires RolesValid(rs) && 0 <= k < |rs| && !rs[k].isDefault
    ensures Protected(Filter(rs, RoleIdIsNot(rs[k].id))) == Protected(rs)
  {
    var id := rs[k].id;
    forall i | 0 <= i < |rs| && IsDefaultRole(rs[i]) ensures RoleIdIsNot(id)(rs[i]) {
      if i < k { assert DistinctRoles(rs[i], rs[k]); }
      if k < i { assert DistinctRoles(rs[k], rs[i]); }
    }
    FilterImplied(rs, RoleIdIsNot(id), IsDefaultRole);
  }

  /** Because the name test scans the role being renamed too, a rename that changes only
      the case of the name is refused. */
  lemma CaseOnlyRenameConflicts(rs: seq<Role>, k: int, patch: RolePatch)
    requires 0 <= k < |rs|
    requires patch.name.Some? && patch.name.value != "" && patch.name.value != rs[k].name
    requires Text.ToLower(patch.name.value) == Text.ToLower(rs[k].name)
    ensures RenameConflict(rs, k, patch)
  {
    assert NameMatches(patch.name.value)(rs[k]);
  }

  /** The seed satisfies the uniqueness the validations keep, and every seeded role is
      protected. */
  lemma DefaultRolesValid(now: Timestamp)
    ensures RolesValid(DefaultRoles(now))
    ensures Protected(DefaultRoles(now)) == DefaultRoles(now)
  {
    var rs := DefaultRoles(now);
    assert Text.ToLower(rs[0].name)[0] == 'a';
    assert Text.ToLower(rs[1].name)[0] == 'e';
    assert Text.ToLower(rs[2].name)[0] == 'v';
    FilterAllKept(rs, IsDefaultRole);
  }

  // ---------------------------------------------------------------------------
  // The store and the eight operations
  // ---------------------------------------------------------------------------

  class Store {
    /** The `users` slot; `None` while the key has never been written. */
    var users: Option<seq<User>>
    /** The `roles` slot. */
    var roles: Option<seq<Role>>

    constructor ()
      ensures users == None && roles == None
      ensures Valid()
    {
      users := None;
      roles := None;
    }

    /** The uniqueness the validations maintain. */
    ghost predicate Valid()
      reads this
    {
      UsersValid(Stored(users)) && RolesValid(Stored(roles))
    }

    method GetUsers() returns (r: seq<User>)
      ensures r == Stored(users)
    {
      r := Stored(users);
    }

    method CreateUser(draft: UserDraft, id: int, now: Timestamp) returns (res: Outcome<User>)
      requires forall u :: u in Stored(users) ==> u.id != id
      modifies this
      ensures roles == old(roles)
      ensures draft.name == "" || draft.email == "" ==> res == Err(NameAndEmailRequired) && users == old(users)
      ensures draft.name != "" && draft.email != "" && Any(Stored(old(users)), EmailIs(draft.email)) ==>
        res == Err(EmailExists) && users == old(users)
      ensures res.Ok? <==> draft.name != "" && draft.email != "" && !Any(Stored(old(users)), EmailIs(draft.email))
      ensures res.Ok? ==> res.value == NewUser(draft, id, now) && users == Some(Stored(old(users)) + [res.value])
      ensures old(Valid()) ==> Valid()
    {
      var us := Stored(users);
      if draft.name == "" || draft.email == "" {
        return Err(NameAndEmailRequired);
      }
      if Any(us, EmailIs(draft.email)) {
        return Err(EmailExists);
      }
      var u := NewUser(draft, id, now);
      if UsersValid(us) {
        PairwiseSnoc(us, u, DistinctUsers);
      }
      users := Some(us + [u]);
      res := Ok(u);
    }

    method UpdateUser(id: int, patch: UserPatch, now: Timestamp) returns (res: Outcome<User>)
      modifies this
      ensures roles == old(roles)
      ensures res == Err(UserNotFound) <==> forall u :: u in Stored(old(users)) ==> u.id != id
      ensures var us := Stored(old(users)); var k := FindIndex(us, UserIdIs(id));
        if k == -1 then res == Err(UserNotFound) && users == old(users)
        else if EmailConflict(us, k, patch) then res == Err(EmailExists) && users == old(users)
        else res == Ok(PatchUser(us[k], patch, now)) && users == Some(us[k := res.value])
      ensures old(Valid()) ==> Valid()
    {
      var us := Stored(users);
      var k := FindIndex(us, UserIdIs(id));
      if k == -1 {
        return Err(UserNotFound);
      }
      if EmailConflict(us, k, patch) {
        return Err(EmailExists);
      }
      var u := PatchUser(us[k], patch, now);
      if UsersValid(us) {
        UpdateKeepsUsersValid(us, k, patch, now);
      }
      users := Some(us[k := u]);
      res := Ok(u);
    }

    method DeleteUser(id: int, now: Timestamp) returns (res: Outcome<Deletion>)
      modifies this
      ensures roles == old(roles)
      ensures var us := Stored(old(users));
        if forall u :: u in us ==> u.id != id then res == Err(UserNotFound) && users == old(users)
        else res == Ok(Deletion(id, now)) && users == Some(Filter(us, UserIdIsNot(id)))
      ensures forall u :: u in Stored(users) ==> u.id != id
      ensures old(Valid()) ==> Valid()
    {
      var us := Stored(users);
      var k := FindIndex(us, UserIdIs(id));
      if k == -1 {
        return Err(UserNotFound);
      }
      if UsersValid(us) {
        PairwiseFilter(us, DistinctUsers, UserIdIsNot(id));
      }
      users := Some(Filter(us, UserIdIsNot(id)));
      res := Ok(Deletion(id, now));
    }

    /** Reading the roles: what is stored, or the three defaults when the key is absent.
        The defaults are not written back. */
    method GetRoles(now: Timestamp) returns (r: seq<Role>)
      ensures roles.None? ==> r == DefaultRoles(now)
      ensures roles.Some? ==> r == roles.value
    {
      if roles.None? {
        r := DefaultRoles(now);
      } else {
        r := roles.value;
      }
    }

    method CreateRole(draft: RoleDraft, id: int, now: Timestamp) returns (res: Outcome<Role>)
      requires forall r :: r in Stored(roles) ==> r.id != id
      modifies this
      ensures users == old(users)
      ensures draft.name == "" ==> res == Err(RoleNameRequired) && roles == old(roles)
      ensures draft.name != "" && Any(Stored(old(roles)), NameMatches(draft.name)) ==>
        res == Err(RoleNameExists) && roles == old(roles)
      ensures res.Ok? <==> draft.name != "" && !Any(Stored(old(roles)), NameMatches(draft.name))
      ensures res.Ok? ==> res.value == NewRole(draft, id, now) && roles == Some(Stored(old(roles)) + [res.value])
      ensures Protected(Stored(roles)) == Protected(Stored(old(roles)))
      ensures old(Valid()) ==> Valid()
    {
      var rs := Stored(roles);
      if draft.name == "" {
        return Err(RoleNameRequired);
      }
      if Any(rs, NameMatches(draft.name)) {
        return Err(RoleNameExists);
      }
      var r := NewRole(draft, id, now);
      if RolesValid(rs) {
        assert forall i :: 0 <= i < |rs| ==> DistinctRoles(rs[i], r) by {
          forall i | 0 <= i < |rs| ensures DistinctRoles(rs[i], r) {
            assert !NameMatches(draft.name)(rs[i]);
          }
        }
        PairwiseSnoc(rs, r, DistinctRoles);
      }
      FilterConcat(rs, [r], IsDefaultRole);
      roles := Some(rs + [r]);
      res := Ok(r);
    }

    method UpdateRole(id: int, patch: RolePatch, now: Timestamp) returns (res: Outcome<Role>)
      modifies this
      ensures users == old(users)
      ensures res == Err(RoleNotFound) <==> forall r :: r in Stored(old(roles)) ==> r.id != id
      ensures var rs := Stored(old(roles)); var k := FindIndex(rs, RoleIdIs(id));
        if k == -1 then res == Err(RoleNotFound) && roles == old(roles)
        else if rs[k].isDefault then res == Err(DefaultRoleNotModifiable) && roles == old(roles)
        else if RenameConflict(rs, k, patch) then res == Err(RoleNameExists) && roles == old(roles)
        else res == Ok(PatchRole(rs[k], patch, now)) && roles == Some(rs[k := res.value])
      ensures Protected(Stored(roles)) == Protected(Stored(old(roles)))
      ensures old(Valid()) ==> Valid()
    {
      var rs := Stored(roles);
      var k := FindIndex(rs, RoleIdIs(id));
      if k == -1 {
        return Err(RoleNotFound);
      }
      if rs[k].isDefault {
        return Err(DefaultRoleNotModifiable);
      }
      if RenameConflict(rs, k, patch) {
        return Err(RoleNameExists);
      }
      var r := PatchRole(rs[k], patch, now);
      if RolesValid(rs) {
        UpdateKeepsRolesValid(rs, k, patch, now);
      }
      FilterUpdateRejected(rs, k, r, IsDefaultRole);
      roles := Some(rs[k := r]);
      res := Ok(r);
    }

    method DeleteRole(id: int, now: Timestamp) returns (res: Outcome<Deletion>)
      modifies this
      ensures users == old(users)
      ensures var rs := Stored(old(roles)); var k := FindIndex(rs, RoleIdIs(id));
        if k == -1 then res == Err(RoleNotFound) && roles == old(roles)
        else if rs[k].isDefault then res == Err(DefaultRoleNotDeletable) && roles == old(roles)
        else res == Ok(Deletion(id, now)) && roles == Some(Filter(rs, RoleIdIsNot(id)))
      ensures res.Ok? ==> forall r :: r in Stored(roles) ==> r.id != id
      ensures old(Valid()) ==> Valid() && Protected(Stored(roles)) == Protected(Stored(old(roles)))
    {
      var rs := Stored(roles);
      var k := FindIndex(rs, RoleIdIs(id));
      if k == -1 {
        return Err(RoleNotFound);
      }
      if rs[k].isDefault {
        return Err(DefaultRoleNotDeletable);
      }
      if RolesValid(rs) {
        PairwiseFilter(rs, DistinctRoles, RoleIdIsNot(id));
        DeleteKeepsProtected(rs, k);
      }
      roles := Some(Filter(rs, RoleIdIsNot(id)));
      res := Ok(Deletion(id, now));
    }
  }

  // ---------------------------------------------------------------------------
  // Sequences of calls on a fresh store
  // ---------------------------------------------------------------------------

  /** The seed is shown but never stored: on a fresh store `getRoles` lists "Admin", yet a
      new role named "Admin" is accepted; from then on `getRoles` lists that role alone, the
      three defaults gone; and deleting the seeded id 1 reports not found rather than a
      protected role. */
  method SeedIsNotStored(now: Timestamp, id: int)
    returns (shown: seq<Role>, created: Outcome<Role>, shownAfter: seq<Role>, deleted: Outcome<Deletion>)
    ensures shown == DefaultRoles(now) && shown[0].name == "Admin"
    ensures created == Ok(NewRole(RoleDraft("Admin", "", None), id, now))
    ensures shownAfter == [created.value]
    ensures deleted == Err(RoleNotFound) <==> id != 1
  {
    var store := new Store();
    shown := store.GetRoles(now);
    created := store.CreateRole(RoleDraft("Admin", "", None), id, now);
    shownAfter := store.GetRoles(now);
    deleted := store.DeleteRole(1, now);
  }

  /** A second user with the same email is refused and the first stays the only one. */
  method DuplicateEmailRefused(now: Timestamp) returns (first: Outcome<User>, second: Outcome<User>, stored: seq<User>)
    ensures first == Ok(User(1, "Ann", "ann@example.com", now, now))
    ensures second == Err(EmailExists)
    ensures stored == [first.value]
  {
    var store := new Store();
    first := store.CreateUser(UserDraft("Ann", "ann@example.com"), 1, now);
    assert Stored(store.users) == [first.value];
    assert EmailIs("ann@example.com")(Stored(store.users)[0]);
    second := store.CreateUser(UserDraft("Bob", "ann@example.com"), 2, now);
    stored := store.GetUsers();
  }

  /** Renaming a role from "qa" to "QA" is refused, since the role's own name matches. */
  method CaseOnlyRenameRefused(now: Timestamp) returns (created: Outcome<Role>, renamed: Outcome<Role>)
    ensures created.Ok? && created.value.name == "qa"
    ensures renamed == Err(RoleNameExists)
  {
    var store := new Store();
    created := store.CreateRole(RoleDraft("qa", "", None), 10, now);
    assert Text.ToLower("QA") == "qa" by {
      assert forall i :: 0 <= i < 2 ==> Text.ToLower("QA")[i] == "qa"[i];
    }
    Text.ToLowerNoUpper("qa");
    CaseOnlyRenameConflicts(Stored(store.roles), 0, RolePatch(Some("QA"), None, None));
    renamed := store.UpdateRole(10, RolePatch(Some("QA"), None, None), now);
  }
}
