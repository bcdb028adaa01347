/** The permission list of the permission screen: create with an id derived
    from the name, edit keeping the id, delete by id, and grouping by category.
    The list lives in the screen's state; each operation builds a new list. */
module PermissionManagement {
  import opened Seqs
  import Text

  datatype Permission = Permission(id: string, name: string, description: string, category: string)

  /** What the permission form holds: everything but the id. */
  datatype PermissionForm = PermissionForm(name: string, description: string, category: string)

  /** The four permissions the screen starts with. */
  const InitialPermissions: seq<Permission> := [
    Permission("create_user", "Create User", "Allows creating new users in the system", "User Management"),
    Permission("edit_user", "Edit User", "Allows editing existing users", "User Management"),
    Permission("delete_user", "Delete User", "Allows deleting users from the system", "User Management"),
    Permission("manage_roles", "Manage Roles", "Allows creating and modifying roles", "Role Management")
  ]

  /** The form's fields together with an id (`{ ...formData, id }`). */
  function WithId(form: PermissionForm, id: string): (p: Permission)
    ensures p.id == id && p.name == form.name
    ensures p.description == form.description && p.category == form.category
  {
    Permission(id, form.name, form.description, form.category)
  }

  function IdIsNot(id: string): Permission -> bool {
    (p: Permission) => p.id != id
  }

  function CategoryOf(p: Permission): string {
    p.category
  }

  /** Submitting the form for a new permission: append it, with the slug of its name as id.
      No check is made that the id is new. */
  function Create(perms: seq<Permission>, form: PermissionForm): (r: seq<Permission>)
    ensures |r| == |perms| + 1 && r[..|perms|] == perms
    ensures r[|perms|].id == Text.Slug(form.name)
    ensures r[|perms|] == WithId(form, r[|perms|].id)
  {
    perms + [WithId(form, Text.Slug(form.name))]
  }

  /** Submitting the form while editing the permission with id `editingId`: every entry
      with that id becomes the form's data under the same id; the others stay. */
  function Edit(perms: seq<Permission>, editingId: string, form: PermissionForm): (r: seq<Permission>)
    ensures |r| == |perms|
    ensures forall i :: 0 <= i < |perms| && perms[i].id == editingId ==> r[i] == WithId(form, editingId)
    ensures forall i :: 0 <= i < |perms| && perms[i].id != editingId ==> r[i] == perms[i]
  {
    seq(|perms|, i requires 0 <= i < |perms| =>
      if perms[i].id == editingId then WithId(form, perms[i].id) else perms[i])
  }

  /** Deleting by id: keep every entry with another id, in order. */
  function Delete(perms: seq<Permission>, id: string): (r: seq<Permission>)
    ensures |r| <= |perms|
    ensures forall p :: p in r <==> p in perms && p.id != id
    ensures (forall i :: 0 <= i < |perms| ==> perms[i].id != id) ==> r == perms
  {
    // Both branches filter; the first only adds the proof that nothing is dropped.
    if forall i :: 0 <= i < |perms| ==> perms[i].id != id then
      FilterAllKept(perms, IdIsNot(id));
      Filter(perms, IdIsNot(id))
    else
      Filter(perms, IdIsNot(id))
  }

  /** Editing changes no id: the screen's ids are exactly those it had. */
  lemma EditKeepsIds(perms: seq<Permission>, editingId: string, form: PermissionForm)
    ensures forall i :: 0 <= i < |perms| ==> Edit(perms, editingId, form)[i].id == perms[i].id
  {
  }

  /** Submitting the same edit twice is the same as submitting it once. */
  lemma EditIdempotent(perms: seq<Permission>, editingId: string, form: PermissionForm)
    ensures Edit(Edit(perms, editingId, form), editingId, form) == Edit(perms, editingId, form)
  {
    var once := Edit(perms, editingId, form);
    var twice := Edit(once, editingId, form);
    assert forall i :: 0 <= i < |perms| ==> twice[i] == once[i];
  }

  /** Deleting an id after editing it leaves what deleting it alone would. */
  lemma {:induction false} DeleteAfterEdit(perms: seq<Permission>, id: string, form: PermissionForm)
    ensures Delete(Edit(perms, id, form), id) == Delete(perms, id)
  {
    if perms != [] {
      var e := Edit(perms, id, form);
      assert e == [e[0]] + e[1..];
      assert perms == [perms[0]] + perms[1..];
      assert e[1..] == Edit(perms[1..], id, form);
      DeleteAfterEdit(perms[1..], id, form);
      FilterConcat([e[0]], e[1..], IdIsNot(id));
      FilterConcat([perms[0]], perms[1..], IdIsNot(id));
    }
  }

  /** Deleting the id a create has just derived removes the new entry, together with every
      older entry that happened to receive the same id. */
  lemma DeleteAfterCreate(perms: seq<Permission>, form: PermissionForm)
    ensures Delete(Create(perms, form), Text.Slug(form.name)) == Delete(perms, Text.Slug(form.name))
  {
    var id := Text.Slug(form.name);
    FilterConcat(perms, [WithId(form, id)], IdIsNot(id));
  }

  /** Deleting works entry by entry, so it keeps the order of what remains. */
  lemma DeleteConcat(a: seq<Permission>, b: seq<Permission>, id: string)
    ensures Delete(a + b, id) == Delete(a, id) + Delete(b, id)
  {
    FilterConcat(a, b, IdIsNot(id));
  }

  /** The slug of "Create User" is the id of the first initial permission. The two words
      come in as parameters, fixed by the precondition, so that the verifier does not
      evaluate the recursive slug functions on a literal string, which is costly. */
  lemma SlugOfCreateUser(a: string, b: string)
    requires a == "Create" && b == "User"
    ensures Text.Slug(a + " " + b) == "create_user"
  {
    assert Text.NoSpace(a) && Text.NoSpace(b);
    Text.SlugTwoWords(a, b);
    assert Text.ToLower(a) == "create" by {
      assert forall i :: 0 <= i < 6 ==> Text.ToLower(a)[i] == "create"[i];
    }
    assert Text.ToLower(b) == "user" by {
      assert forall i :: 0 <= i < 4 ==> Text.ToLower(b)[i] == "user"[i];
    }
  }

  /** Because create does not check its id, creating "Create User" on the initial list
      yields two entries with the id `create_user`. */
  lemma CreateCanDuplicateIds()
    ensures var r := Create(InitialPermissions, PermissionForm("Create User", "", "User Management"));
      r[0].id == r[4].id == "create_user"
  {
    assert "Create User" == "Create" + " " + "User";
    SlugOfCreateUser("Create", "User");
  }

  /** The grouping reduce of the screen. */
  method GroupPermissions(perms: seq<Permission>) returns (groups: map<string, seq<Permission>>, order: seq<string>)
    ensures NoDup(order)
    ensures forall c :: c in groups <==> c in order
    ensures forall c :: c in groups <==> exists i :: 0 <= i < |perms| && perms[i].category == c
    ensures forall i :: 0 <= i < |perms| ==> perms[i].category in groups && perms[i] in groups[perms[i].category]
    ensures forall c, p :: c in groups && p in groups[c] ==> p in perms && p.category == c
    ensures forall c :: c in groups ==> groups[c] == Filter(perms, HasKey(CategoryOf, c))
  {
    groups, order := GroupBy(perms, CategoryOf);
  }
}
