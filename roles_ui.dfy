/** The role screen's own logic: the fixed catalogue of eight permissions, the
    checkbox toggle on the form's permission list, the catalogue grouped by
    category, the labels shown on a role card, and the form filled in for an edit. */
module RoleManagement {
  import opened Seqs
  import Api

  /** A catalogue entry; `caption` is the label shown beside its checkbox. */
  datatype CatalogueEntry = CatalogueEntry(id: string, caption: string, category: string)

  const UserCategory := "User Management"
  const RoleCategory := "Role Management"
  const PermissionCategory := "Permission Management"

  /** The permissions the role form offers, in display order: four on users, three on
      roles and one on permissions, written here as one block per category. */
  const Catalogue: seq<CatalogueEntry> := UserEntries + RoleEntries + PermissionEntries

  const UserEntries: seq<CatalogueEntry> := [
    CatalogueEntry("create_user", "Create User", UserCategory),
    CatalogueEntry("edit_user", "Edit User", UserCategory),
    CatalogueEntry("delete_user", "Delete User", UserCategory),
    CatalogueEntry("view_users", "View Users", UserCategory)
  ]

  const RoleEntries: seq<CatalogueEntry> := [
    CatalogueEntry("manage_roles", "Manage Roles", RoleCategory),
    CatalogueEntry("assign_roles", "Assign Roles", RoleCategory),
    CatalogueEntry("view_roles", "View Roles", RoleCategory)
  ]

  const PermissionEntries: seq<CatalogueEntry> := [
    CatalogueEntry("manage_permissions", "Manage Permissions", PermissionCategory)
  ]

  function CategoryOf(e: CatalogueEntry): string {
    e.category
  }

  function EntryIdIs(id: string): CatalogueEntry -> bool {
    (e: CatalogueEntry) => e.id == id
  }

  function Differs(x: string): string -> bool {
    (y: string) => y != x
  }

  // ---------------------------------------------------------------------------
  // The form
  // ---------------------------------------------------------------------------

  /** What the role form holds. */
  datatype RoleForm = RoleForm(name: string, description: string, permissions: seq<string>)

  /** Opening a role for edit: its fields, with an absent permission list read as empty. */
  function EditForm(role: Api.Role): (f: RoleForm)
    ensures f.name == role.name && f.description == role.description
    ensures role.permissions.Some? ==> f.permissions == role.permissions.value
    ensures role.permissions.None? ==> f.permissions == []
  {
    RoleForm(role.name, role.description, role.permissions.GetOr([]))
  }

  /** What submitting the form sends when editing: every field. */
  function AsPatch(f: RoleForm): (p: Api.RolePatch)
    ensures p.name == Some(f.name) && p.description == Some(f.description)
    ensures p.permissions == Some(f.permissions)
  {
    Api.RolePatch(Some(f.name), Some(f.description), Some(f.permissions))
  }

  /** What submitting the form sends when creating. */
  function AsDraft(f: RoleForm): (d: Api.RoleDraft)
    ensures d.name == f.name && d.description == f.description
    ensures d.permissions == Some(f.permissions)
  {
    Api.RoleDraft(f.name, f.description, Some(f.permissions))
  }

  /** Submitting an edit form unchanged rewrites only the time stamp, and writes an absent
      permission list as the empty one. */
  lemma UnchangedEditKeepsRole(role: Api.Role, now: Api.Timestamp)
    ensures Api.PatchRole(role, AsPatch(EditForm(role)), now)
         == role.(permissions := Some(role.permissions.GetOr([])), updatedAt := Some(now))
  {
  }

  /** A checkbox click: remove the id from the list when it is there, append it otherwise. */
  function Toggle(perms: seq<string>, x: string): (r: seq<string>)
    ensures x in r <==> x !in perms
    ensures forall y :: y != x ==> (y in r <==> y in perms)
  {
    if x in perms then Filter(perms, Differs(x)) else perms + [x]
  }

  /** Toggling an absent id twice restores the list exactly. */
  lemma ToggleTwice(perms: seq<string>, x: string)
    requires x !in perms
    ensures Toggle(Toggle(perms, x), x) == perms
  {
    FilterConcat(perms, [x], Differs(x));
    FilterAllKept(perms, Differs(x));
  }

  /** Toggling never introduces a duplicate. */
  lemma ToggleNoDup(perms: seq<string>, x: string)
    requires NoDup(perms)
    ensures NoDup(Toggle(perms, x))
  {
    if x in perms {
      NoDupFilter(perms, Differs(x));
    }
  }

  // ---------------------------------------------------------------------------
  // Labels on a role card
  // ---------------------------------------------------------------------------

  /** The label of the first entry of `cat` with this id, if any (`find`). */
  function LabelOf(cat: seq<CatalogueEntry>, id: string): (l: Option<string>)
    ensures l.Some? <==> exists i :: 0 <= i < |cat| && cat[i].id == id
    ensures l.Some? ==> exists i ::
      && 0 <= i < |cat| && cat[i].id == id && cat[i].caption == l.value
      && forall j :: 0 <= j < i ==> cat[j].id != id
  {
    var k := FindIndex(cat, EntryIdIs(id));
    if k == -1 then None else Some(cat[k].caption)
  }

  /** The test "`cat` has an entry with this id". */
  function CataloguedIn(cat: seq<CatalogueEntry>): string -> bool {
    (id: string) => LabelOf(cat, id).Some?
  }

  /** What one id shows: its label, or nothing (`null`) when `cat` lacks it. */
  function Shown(cat: seq<CatalogueEntry>): string -> seq<string> {
    (id: string) => if CataloguedIn(cat)(id) then [LabelOf(cat, id).value] else []
  }

  /** The labels shown for a list of ids, in order. */
  function Labels(cat: seq<CatalogueEntry>, ids: seq<string>): seq<string> {
    FlatMap(ids, Shown(cat))
  }

  /** The labels of a role card (`role.permissions?.map(...)`). */
  function CardLabels(role: Api.Role): (r: seq<string>)
    ensures role.permissions.None? ==> r == []
    ensures role.permissions.Some? ==> r == Captions(Catalogue, Filter(role.permissions.value, CataloguedIn(Catalogue)))
  {
    if role.permissions.Some? then
      LabelsDropUnknown(Catalogue, role.permissions.value);
      Labels(Catalogue, role.permissions.value)
    else []
  }

  /** The label of an id `cat` has. */
  function Caption(cat: seq<CatalogueEntry>, id: string): string {
    LabelOf(cat, id).GetOr("")
  }

  /** The label of each id, in order. */
  function Captions(cat: seq<CatalogueEntry>, ids: seq<string>): (r: seq<string>)
    ensures |r| == |ids| && forall i :: 0 <= i < |ids| ==> r[i] == Caption(cat, ids[i])
  {
    seq(|ids|, i requires 0 <= i < |ids| => Caption(cat, ids[i]))
  }

  lemma CaptionsCons(cat: seq<CatalogueEntry>, x: string, ids: seq<string>)
    ensures Captions(cat, [x] + ids) == [Caption(cat, x)] + Captions(cat, ids)
  {
  }

  /** Labeling drops the uncatalogued ids and keeps the order of the others: it is
      filtering followed by a lookup. */
  lemma {:induction false} LabelsDropUnknown(cat: seq<CatalogueEntry>, ids: seq<string>)
    ensures Labels(cat, ids) == Captions(cat, Filter(ids, CataloguedIn(cat)))
  {
    if ids != [] {
      var x, rest := ids[0], ids[1..];
      var kept := Filter(rest, CataloguedIn(cat));
      if CataloguedIn(cat)(x) {
        calc {
          Labels(cat, ids);
          Shown(cat)(x) + Labels(cat, rest);
          [LabelOf(cat, x).value] + Labels(cat, rest);
          { LabelsDropUnknown(cat, rest); }
          [Caption(cat, x)] + Captions(cat, kept);
          { CaptionsCons(cat, x, kept); }
          Captions(cat, [x] + kept);
        }
      } else {
        calc {
          Labels(cat, ids);
          Labels(cat, rest);
          { LabelsDropUnknown(cat, rest); }
          Captions(cat, kept);
        }
      }
    }
  }

  /** Labels of a concatenation are the concatenated labels. */
  lemma LabelsConcat(cat: seq<CatalogueEntry>, a: seq<string>, b: seq<string>)
    ensures Labels(cat, a + b) == Labels(cat, a) + Labels(cat, b)
  {
    FlatMapConcat(a, b, Shown(cat));
  }

  // ---------------------------------------------------------------------------
  // The catalogue grouped by category
  // ---------------------------------------------------------------------------

  lemma CategoriesDistinct()
    ensures UserCategory != RoleCategory
    ensures UserCategory != PermissionCategory
    ensures RoleCategory != PermissionCategory
  {
    assert UserCategory[0] != RoleCategory[0];
    assert |UserCategory| != |PermissionCategory|;
    assert |RoleCategory| != |PermissionCategory|;
  }

  /** Every entry of `es` is in category `c`. */
  predicate InCategory(es: seq<CatalogueEntry>, c: string) {
    forall i :: 0 <= i < |es| ==> es[i].category == c
  }

  /** A block of one category is its own group and contributes nothing to another. */
  lemma BlockFilter(es: seq<CatalogueEntry>, c: string, c': string)
    requires InCategory(es, c)
    ensures Filter(es, HasKey(CategoryOf, c')) == if c == c' then es else []
  {
    if c == c' {
      FilterAllKept(es, HasKey(CategoryOf, c'));
    } else {
      FilterNoneKept(es, HasKey(CategoryOf, c'));
    }
  }

  lemma BlocksInCategory()
    ensures InCategory(UserEntries, UserCategory)
    ensures InCategory(RoleEntries, RoleCategory)
    ensures InCategory(PermissionEntries, PermissionCategory)
  {
  }

  /** The categories in order of first appearance. */
  lemma CatalogueCategories()
    ensures KeysInOrder(Catalogue, CategoryOf) == [UserCategory, RoleCategory, PermissionCategory]
  {
    CategoriesDistinct();
    BlocksInCategory();
    var u, r, p := UserEntries, RoleEntries, PermissionEntries;
    assert [] + u == u;
    KeysOfBlock([], u, CategoryOf, UserCategory);
    KeysOfBlock(u, r, CategoryOf, RoleCategory);
    KeysOfBlock(u + r, p, CategoryOf, PermissionCategory);
  }

  /** The group of category `c` is made of the three blocks' contributions, in order. */
  lemma GroupOfCategory(c: string)
    ensures Filter(Catalogue, HasKey(CategoryOf, c))
         == (if c == UserCategory then UserEntries else [])
          + (if c == RoleCategory then RoleEntries else [])
          + (if c == PermissionCategory then PermissionEntries else [])
  {
    BlocksInCategory();
    var u, r, p := UserEntries, RoleEntries, PermissionEntries;
    FilterConcat(u + r, p, HasKey(CategoryOf, c));
    FilterConcat(u, r, HasKey(CategoryOf, c));
    BlockFilter(u, UserCategory, c);
    BlockFilter(r, RoleCategory, c);
    BlockFilter(p, PermissionCategory, c);
  }

  /** The catalogue falls into three categories, in this order, with 4, 3 and 1 entries,
      each group in catalogue order. */
  lemma CatalogueGroups()
    ensures KeysInOrder(Catalogue, CategoryOf) == [UserCategory, RoleCategory, PermissionCategory]
    ensures Filter(Catalogue, HasKey(CategoryOf, UserCategory)) == UserEntries
    ensures Filter(Catalogue, HasKey(CategoryOf, RoleCategory)) == RoleEntries
    ensures Filter(Catalogue, HasKey(CategoryOf, PermissionCategory)) == PermissionEntries
    ensures |UserEntries| == 4 && |RoleEntries| == 3 && |PermissionEntries| == 1
  {
    CatalogueCategories();
    CategoriesDistinct();
    GroupOfCategory(UserCategory);
    assert UserEntries + [] + [] == UserEntries;
    GroupOfCategory(RoleCategory);
    assert [] + RoleEntries + [] == RoleEntries;
    GroupOfCategory(PermissionCategory);
    assert [] + [] + PermissionEntries == PermissionEntries;
  }

  /** The grouping reduce of the role form, run on the catalogue. */
  method GroupCatalogue() returns (groups: map<string, seq<CatalogueEntry>>, order: seq<string>)
    ensures order == [UserCategory, RoleCategory, PermissionCategory]
    ensures groups.Keys == {UserCategory, RoleCategory, PermissionCategory}
    ensures groups[UserCategory] == UserEntries
    ensures groups[RoleCategory] == RoleEntries
    ensures groups[PermissionCategory] == PermissionEntries
  {
    groups, order := GroupBy(Catalogue, CategoryOf);
    CatalogueGroups();
  }
}
