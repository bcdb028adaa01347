# RBAC administration tool: a verified model of its data layer

The administration tool manages users, roles and permissions in the browser. This
project models the parts of it that carry logic:

- **The data service** (`Api`): `usersAPI` and `rolesAPI`. Users and roles are kept in
  two slots of the browser's key-value store. Each operation reads the whole collection,
  validates, and writes the collection back only when validation passed. The module has:
  - `Store`, a class whose two fields are those slots, with one method per operation;
  - the seed of three default roles that `getRoles` shows when no roles are stored.
- **The permission screen** (`PermissionManagement`):
  - the id derived from a new permission's name (lowercase, each whitespace run
    becomes `_`);
  - create as append, edit as an id-preserving map, and delete as a filter;
  - the `reduce` that groups permissions by category.
- **The role screen** (`RoleManagement`):
  - the fixed catalogue of eight permissions;
  - the checkbox toggle on the form's permission list;
  - the catalogue grouped by category;
  - the labels shown on a role card;
  - the form filled in when a role is opened for edit.
- **Shared pieces:**
  - `Seqs`: the array operations the code relies on (`findIndex`, `some`, `filter`,
    and the bucket-building `reduce`);
  - `Text`: `toLowerCase` and the regular-expression class `\s`.

## What is proved

**Storage and validation**
- Every mutator of `Store` either writes nothing and returns the error the source
  throws, or writes exactly the new collection. A rejected call leaves both slots as
  they were, and no operation touches the other slot.
- Every mutator preserves `Store.Valid`. That predicate says:
  - ids are unique;
  - no non-empty email is stored twice;
  - no non-empty role name is stored twice up to case.
- In a valid store, the protected (`isDefault`) roles never change.
- In a valid collection, an update rewrites only the one record with the id, and a
  delete removes only that record.

**Behaviour that follows from the code itself**
- `getRoles` shows the three defaults but never stores them. So on a fresh store a new
  role named "Admin" is accepted. From then on `getRoles` lists only the new role, so
  Admin, Editor and Viewer disappear from view. Deleting the seeded id 1 reports
  "not found".
- The rename test in `updateRole` also scans the role being renamed. So a rename that
  only changes case ("qa" to "QA") is refused.
- The permission screen does not check that a derived id is new. Creating "Create User"
  on the initial list therefore yields two entries with id `create_user`.

**Strings, toggling and grouping**
- The derived id:
  - contains no whitespace and no capital letter;
  - is idempotent;
  - turns each maximal whitespace run into exactly one underscore.
- Toggling:
  - flips membership of the clicked id and no other;
  - toggling an absent id twice restores the list exactly;
  - keeps the list free of duplicates.
- Grouping is a loop proved against `Filter`:
  - each element lands in the bucket of its own key and in no other, in list order;
  - the bucket sizes sum to the list length;
  - the catalogue falls into three categories with 4, 3 and 1 entries.

Three behaviours of the code differ from what a reader might expect; the model follows
the code:
- The seeded Admin role lists seven permissions and omits `view_users`
  (`RABC_Admin-main/src/services/api.js:123`).
- The seed is never written back (`RABC_Admin-main/src/services/api.js:145`). The
  mutators read an absent slot as the empty collection.
- The rename check includes the role itself (`RABC_Admin-main/src/services/api.js:200`).

How the model represents the source:
- A storage slot is `Option<seq<T>>`, and `None` is a key never written. This matters
  because `getRoles` falls back to the seed only when the key is absent; a stored empty
  list reads as empty.
- Draft fields are strings, and the empty string stands for "absent or empty". The
  source rejects both alike (`!userData.name`).
- Patches are records of optional fields. An empty-string patch value skips the
  uniqueness test but is still merged, as in the source. That is why the uniqueness
  invariants exempt empty emails and names.
- Ids (`Date.now()`) and time stamps (`new Date().toISOString()`) are parameters.

## Model

| member | source | states |
|---|---|---|
| Api.Store.GetUsers | RABC_Admin-main/src/services/api.js:28-29 | returns the stored users, or the empty list when the key is absent |
| Api.Store.CreateUser | RABC_Admin-main/src/services/api.js:38-59 | empty name or email gives NameAndEmailRequired; an email equal to a stored one gives EmailExists; either way nothing is written; success happens exactly when neither applies, appends the draft with the fresh id and createdAt = updatedAt = now, and keeps the uniqueness invariant; roles are untouched |
| Api.Store.UpdateUser | RABC_Admin-main/src/services/api.js:68-89 | UserNotFound exactly when no user has the id; EmailExists when the patch names a non-empty email other than the user's own that some user has; otherwise only the found index is replaced by the merged record; failures write nothing; the invariant is kept |
| Api.Store.DeleteUser | RABC_Admin-main/src/services/api.js:98-107 | UserNotFound with nothing written when no user has the id; otherwise stores the users with another id, in order, and reports the id and time; afterwards no stored user has the id |
| Api.Store.GetRoles | RABC_Admin-main/src/services/api.js:118-146 | an absent key yields the three seeded roles; otherwise the stored list is returned as it is; nothing is written |
| Api.Store.CreateRole | RABC_Admin-main/src/services/api.js:155-177 | an empty name gives RoleNameRequired; a name equal up to case to a stored name gives RoleNameExists; otherwise appends one non-default role; the protected roles and the uniqueness invariant are kept |
| Api.Store.UpdateRole | RABC_Admin-main/src/services/api.js:186-212 | the errors not found, default role and clashing new name, checked in that order, each writing nothing; otherwise replaces only the found index by the merged role; the protected roles and the invariant are kept |
| Api.Store.DeleteRole | RABC_Admin-main/src/services/api.js:221-235 | not found and default role are refused without a write; otherwise stores the roles with another id; in a valid store, the protected roles are unchanged |
| Api.DefaultRoles | RABC_Admin-main/src/services/api.js:118-143 | three roles with ids 1 to 3, named Admin, Editor and Viewer, all default, created now and never updated; Admin has seven permissions and no view_users |
| Api.DefaultRolesValid | RABC_Admin-main/src/services/api.js:118-143 | the seed satisfies the role uniqueness invariant, and every seeded role is protected |
| Api.NewUser | RABC_Admin-main/src/services/api.js:50-55 | the new record carries the draft's fields, the given id, and createdAt = updatedAt = now |
| Api.PatchUser | RABC_Admin-main/src/services/api.js:82-86 | fields named in the patch take its values; the others, the id and createdAt keep theirs; updatedAt becomes now |
| Api.NewRole | RABC_Admin-main/src/services/api.js:167-173 | the new role carries the draft's fields and the id, is never default, and is stamped now |
| Api.PatchRole | RABC_Admin-main/src/services/api.js:205-209 | patched fields take the patch values; id, isDefault and createdAt are kept; updatedAt becomes now |
| Api.Stored | RABC_Admin-main/src/services/api.js:38 | a slot never written reads as the empty collection (`|| '[]'`); a written one as what it holds |
| Api.EmailConflict | RABC_Admin-main/src/services/api.js:76-77 | the email test of an update; when it fails the call, the patch names a non-empty email that a user other than the updated one already has |
| Api.RenameConflict | RABC_Admin-main/src/services/api.js:199-200 | the name test of an update: a non-empty new name other than the role's own that some stored role, the role itself included, has up to case |
| Api.Protected | RABC_Admin-main/src/services/api.js:228-231 | exactly the default roles of a collection |
| Api.UserIndexUnique | RABC_Admin-main/src/services/api.js:69 | in a valid collection, the index found for a user's id is that user's, and no other user has the id |
| Api.UserDeleteRemovesOne | RABC_Admin-main/src/services/api.js:105 | in a valid collection, filtering out a stored id removes that one record and keeps the rest in order |
| Api.RoleIndexUnique | RABC_Admin-main/src/services/api.js:187 | in a valid collection, the index found for a role's id is that role's, and no other role has the id |
| Api.RoleDeleteRemovesOne | RABC_Admin-main/src/services/api.js:233 | in a valid collection, filtering out a stored role id removes that one role and keeps the rest in order |
| Api.UpdateKeepsUsersValid | RABC_Admin-main/src/services/api.js:75-86 | a merge that passed the email test keeps ids unique and non-empty emails unique |
| Api.UpdateKeepsRolesValid | RABC_Admin-main/src/services/api.js:198-209 | a merge that passed the name test keeps ids unique and non-empty names unique up to case |
| Api.DeleteKeepsProtected | RABC_Admin-main/src/services/api.js:228-234 | in a valid collection, deleting a role that is not protected removes no protected role |
| Seqs.KeysOfBlock | RABC_Admin-main/src/components/RoleManagement.jsx:91-97 | appending a block whose elements share a new key adds exactly that key at the end of the key order |
| Api.CaseOnlyRenameConflicts | RABC_Admin-main/src/services/api.js:199-203 | a non-empty new name that differs from the old one only in case is always a conflict, because the role itself matches |
| Api.SeedIsNotStored | RABC_Admin-main/src/services/api.js:145-155 | on a fresh store, getRoles shows Admin, yet creating a role named Admin succeeds; getRoles then lists the new role alone, the three defaults gone; deleting id 1 reports not found unless id 1 was just created |
| Api.DuplicateEmailRefused | RABC_Admin-main/src/services/api.js:45-48 | a second user with an existing email is refused with EmailExists, and the first user stays the only one |
| Api.CaseOnlyRenameRefused | RABC_Admin-main/src/services/api.js:198-203 | renaming the role qa to QA is refused with RoleNameExists |
| Seqs.FindIndex | RABC_Admin-main/src/services/api.js:69 | -1 exactly when no element passes; otherwise the first index whose element passes |
| Seqs.Any | RABC_Admin-main/src/services/api.js:46 | `some`: some element passes |
| Seqs.Filter | RABC_Admin-main/src/services/api.js:105 | keeps exactly the elements that pass, and is never longer than its input |
| Seqs.FilterConcat | RABC_Admin-main/src/components/PermissionManagement.jsx:63 | filtering distributes over concatenation, so the relative order is kept |
| Seqs.FilterRemovesOne | RABC_Admin-main/src/services/api.js:233 | when only the element at k fails, filtering removes that element and nothing else |
| Seqs.KeysInOrder | RABC_Admin-main/src/components/PermissionManagement.jsx:67-73 | the keys of the list, without duplicates, each present exactly when some element has it |
| Seqs.GroupBy | RABC_Admin-main/src/components/PermissionManagement.jsx:67-73 | the reduce creates buckets for exactly the keys that occur, in first-appearance order; each bucket is the list filtered by its key |
| Seqs.GroupSizesSum | RABC_Admin-main/src/components/PermissionManagement.jsx:67-73 | the bucket sizes add up to the length of the list |
| Seqs.GroupedExactlyOnce | RABC_Admin-main/src/components/PermissionManagement.jsx:67-73 | an element is in the bucket of key k exactly when its own key is k |
| Text.IsSpace | RABC_Admin-main/src/components/PermissionManagement.jsx:48 | the characters of the `\s` class: the white space and line terminator characters of JavaScript |
| Text.ToLower | RABC_Admin-main/src/services/api.js:163 | same length as its input; no capital letter; each character lowered on its own |
| Text.ToLowerNoUpper | RABC_Admin-main/src/components/PermissionManagement.jsx:48 | lowercasing a string without capital letters changes nothing |
| Text.Collapse | RABC_Admin-main/src/components/PermissionManagement.jsx:48 | the result has no whitespace, and no capital letter when the input has none |
| Text.Slug | RABC_Admin-main/src/components/PermissionManagement.jsx:48 | a derived id has no whitespace and no capital letter |
| Text.CollapseNoSpace | RABC_Admin-main/src/components/PermissionManagement.jsx:48 | a string without whitespace is unchanged by the replacement |
| Text.CollapseRun | RABC_Admin-main/src/components/PermissionManagement.jsx:48 | each maximal whitespace run becomes one underscore, and the two sides are replaced independently |
| Text.SlugIdempotent | RABC_Admin-main/src/components/PermissionManagement.jsx:48 | deriving an id from a derived id returns it unchanged |
| Text.SlugTwoWords | RABC_Admin-main/src/components/PermissionManagement.jsx:48 | two words separated by a space become the lowercased words joined by an underscore |
| PermissionManagement.InitialPermissions | RABC_Admin-main/src/components/PermissionManagement.jsx:4-29 | the four permissions the screen starts with |
| PermissionManagement.WithId | RABC_Admin-main/src/components/PermissionManagement.jsx:45 | the form's fields together with the given id |
| PermissionManagement.Create | RABC_Admin-main/src/components/PermissionManagement.jsx:48-49 | appends exactly one entry at the end, whose id is derived from the name; earlier entries are unchanged |
| PermissionManagement.Edit | RABC_Admin-main/src/components/PermissionManagement.jsx:44-46 | same length; every entry with the edited id becomes the form's data under that id; every other entry stays in place |
| PermissionManagement.Delete | RABC_Admin-main/src/components/PermissionManagement.jsx:62-64 | the result holds exactly the entries of the list whose id differs, and is no longer than the list; removing an absent id changes nothing |
| PermissionManagement.EditKeepsIds | RABC_Admin-main/src/components/PermissionManagement.jsx:44-46 | editing changes no entry's id |
| PermissionManagement.EditIdempotent | RABC_Admin-main/src/components/PermissionManagement.jsx:44-46 | submitting the same edit twice equals submitting it once |
| PermissionManagement.DeleteAfterEdit | RABC_Admin-main/src/components/PermissionManagement.jsx:44-63 | deleting an id after editing it leaves what deleting it alone leaves |
| PermissionManagement.DeleteAfterCreate | RABC_Admin-main/src/components/PermissionManagement.jsx:48-63 | deleting a just-derived id removes the new entry together with any older entry that has the same id |
| PermissionManagement.DeleteConcat | RABC_Admin-main/src/components/PermissionManagement.jsx:63 | deleting works entry by entry, so the order of what remains is kept |
| PermissionManagement.SlugOfCreateUser | RABC_Admin-main/src/components/PermissionManagement.jsx:48 | the name Create User derives the id create_user |
| PermissionManagement.CreateCanDuplicateIds | RABC_Admin-main/src/components/PermissionManagement.jsx:48-49 | creating Create User on the initial list leaves two entries with id create_user |
| PermissionManagement.GroupPermissions | RABC_Admin-main/src/components/PermissionManagement.jsx:67-73 | one bucket per category that occurs; each permission is in its category's bucket; each bucket holds only that category's permissions, in list order |
| RoleManagement.Catalogue | RABC_Admin-main/src/components/RoleManagement.jsx:8-17 | the eight catalogue entries, in order, as the user, role and permission blocks |
| RoleManagement.EditForm | RABC_Admin-main/src/components/RoleManagement.jsx:62-66 | the form copies the role's name, description and permissions, with an absent permission list read as empty |
| RoleManagement.AsPatch | RABC_Admin-main/src/components/RoleManagement.jsx:47 | an edit sends every form field |
| RoleManagement.AsDraft | RABC_Admin-main/src/components/RoleManagement.jsx:49 | a create sends the form's fields, permissions included |
| RoleManagement.UnchangedEditKeepsRole | RABC_Admin-main/src/components/RoleManagement.jsx:60-66 | submitting an unchanged edit form changes only the time stamp, and stores an absent permission list as empty |
| RoleManagement.Toggle | RABC_Admin-main/src/components/RoleManagement.jsx:84-86 | the clicked id is in the result exactly when it was not in the input; every other id keeps its membership |
| RoleManagement.ToggleTwice | RABC_Admin-main/src/components/RoleManagement.jsx:84-86 | toggling an absent id twice restores the list exactly |
| RoleManagement.ToggleNoDup | RABC_Admin-main/src/components/RoleManagement.jsx:84-86 | toggling keeps a list without duplicates free of them |
| RoleManagement.LabelOf | RABC_Admin-main/src/components/RoleManagement.jsx:142 | a label exists exactly when the catalogue has an entry with the id, and it is the caption of the first such entry, as `find` returns |
| RoleManagement.Labels | RABC_Admin-main/src/components/RoleManagement.jsx:141-151 | each id shows its label when the catalogue has it and nothing otherwise, in the order of the ids |
| RoleManagement.CardLabels | RABC_Admin-main/src/components/RoleManagement.jsx:141-151 | a role without a permission list shows no label; otherwise the card shows the captions of its catalogued ids, in the role's order |
| RoleManagement.LabelsDropUnknown | RABC_Admin-main/src/components/RoleManagement.jsx:141-151 | the labels are the captions of the catalogued ids, in the order the role lists them; the other ids are dropped |
| Seqs.FlatMapConcat | RABC_Admin-main/src/components/RoleManagement.jsx:141-151 | mapping each element to a list and concatenating distributes over concatenation |
| RoleManagement.LabelsConcat | RABC_Admin-main/src/components/RoleManagement.jsx:141-151 | labels of concatenated lists concatenate |
| RoleManagement.CatalogueCategories | RABC_Admin-main/src/components/RoleManagement.jsx:8-17 | the catalogue's categories, in first-appearance order, are User, Role and Permission Management |
| RoleManagement.GroupOfCategory | RABC_Admin-main/src/components/RoleManagement.jsx:91-97 | the group of any category is the user, role and permission blocks that belong to it, concatenated in catalogue order |
| RoleManagement.BlockFilter | RABC_Admin-main/src/components/RoleManagement.jsx:91-97 | a block of entries of one category is that category's whole group and adds nothing to any other |
| RoleManagement.CatalogueGroups | RABC_Admin-main/src/components/RoleManagement.jsx:8-17 | three categories, in order: the four user entries, the three role entries and the one permission entry, each group in catalogue order |
| RoleManagement.GroupCatalogue | RABC_Admin-main/src/components/RoleManagement.jsx:91-97 | the reduce over the catalogue yields exactly those three buckets, in that order and with those contents |

## Left out

- The simulated network: `delay`, `simulateNetworkDelay` and the `apiResponse` envelope
  (status, response time stamp and random request id). These are timers and randomness
  with no invariant; an operation returns its data directly.
- The generic failure message: `handleApiError` replaces every error with "Failed to
  <op> <entity>". The model keeps the specific error kinds, which is finer than what a
  caller of the source can observe.
- JSON serialisation and the key-value store itself. A slot is a field holding the
  decoded collection.
- `Date.now()` and `new Date().toISOString()`. They are parameters, and one `now` serves
  both createdAt and updatedAt. `DefaultRoles` likewise stamps all three seeded roles
  with one `now`, where the source reads the clock once per role.
- Api.Store.CreateUser: requires that the id is not already stored. A clock-derived id
  could repeat within one millisecond; that case is not modelled.
- Api.Store.CreateRole: requires that the id is not already stored, for the same reason.
- Promises and `async`. The model is sequential.
- The React state, hooks, rendering, `window.confirm`, the form's change handlers and the
  "No permissions assigned" hint. The hooks module, the application shell, the sidebar
  and the error message component are not part of this model.
- Spreading arbitrary keys into a record. Only the typed fields the forms send are
  modelled, so a patch can never overwrite `id` or `isDefault`.
- Text.ToLower: lowercases ASCII letters only. Unicode case mapping of other letters is
  not modelled.
- Seqs.GroupBy: creates buckets in first-appearance order. JavaScript objects list
  integer-like keys first, which the model does not reproduce. A category named like an
  inherited object property (for example `constructor`) makes the source misbehave; that
  is not modelled either.
- Stored records without a `name` field. In the source, the case-insensitive name scan
  throws on them; in the model every role has a name.
- An absent role description is modelled as the empty string.
