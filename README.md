# stopcristudio: a Dafny model of the OpenAPI project editor

stopcristudio is a browser editor for OpenAPI 3.0 documents. A user
creates or imports a *project* (a name, a version and an OpenAPI document).
They add, edit and delete operations keyed by `(path, method)`, browse them in
a sorted list, and save the project as a JSON file. Two more parts are
modelled:

- a query-parameter builder, whose parameters can nest object and array
  properties to any depth;
- the application store, which keeps an API specification made of endpoints,
  models and security schemes, with a selection and a "has unsaved changes"
  flag.

The model has one Dafny module per source file:

| module | models |
|---|---|
| `OpenApi` | the project and document types: paths map to path items, path items map a lower-case method to an operation |
| `App` | the top-level component: its state (projects, the current project, the sidebar), the create/import/save actions, and the add/edit/delete handlers that rewrite `paths` |
| `PathRules` | the path check shared by the three operation forms, and the callback a form event ends in |
| `ApiSidebar`, `ApiEditModal`, `ApiForm` | the operation forms, as classes over their React state |
| `CreateProject` | the new-project form and the document it builds |
| `ApiList` | flattening `paths` into `(path, method)` items, the sort, and the rendered rows |
| `QueryParameters` | the query-parameter tree |
| `QueryParamsBuilder` | the parameter list: add, remove (with the selection that follows) and the inline rename |
| `QueryParameterEditor` | editing one parameter: top-level handlers, the recursive nested-property editor (as path-addressed updates on the tree), and the expansion keys |
| `ApiStore` | the Zustand store, as a class with the store's fields and one method per action |
| `Strings` | the JavaScript string functions the code uses: `trim`, `startsWith`, ASCII case mapping, decimal rendering of timestamps, the `\s+` to `-` replacement and a total order on strings |
| `Wrappers` | `Option` |

How the source's runtime maps onto the model:

- Each React component with state is a `class`. Its `useState` variables are
  fields, and each event handler is a method that states the new state.
- Each callback a form calls is returned as a value: `Dispatch` for the
  operation forms, `Submission` for the new-project form.
- `alert` becomes a returned `Alert(message)` or `Rejected(message)`.
- The answer to `confirm` is a `bool` parameter.
- `Date.now()` and `new Date()` are a `now: nat` parameter.
- JavaScript objects used as dictionaries are Dafny `map`s.
- The `method` of an operation is called `verb` throughout, because
  `method` is a Dafny keyword.

## Model

| member | source | states |
|---|---|---|
| OpenApi.PathsExtensionality | src/types/openapi.ts:16 | two `paths` objects with the same path keys and the same operation under every `(path, method)` are the same object |
| OpenApi.PathKeyIffOperation | src/types/openapi.ts:16 | when no path item is empty, a path is a key exactly when some operation is stored under it |
| App.Place | src/App.tsx:60-76 | writing an operation under `(path, method)` makes that pair hold it, leaves every other pair's lookup unchanged, adds the path key, and never creates an empty path item |
| App.AddApi | src/App.tsx:57-92 | adding an API stores the stub operation (summary `"<METHOD> <path>"`, a single `200` response "Successful response") under the pair; every other pair and every other path is unchanged; no empty path item appears |
| App.AddApiIdempotent | src/App.tsx:57-92 | adding the same `(path, method)` twice gives the same document as adding it once |
| App.EmptyAfterRemoval | src/App.tsx:144-148 | the path item left after deleting a method is empty exactly when that method was its only key |
| App.DeleteApi | src/App.tsx:139-167 | deleting `(path, method)` removes exactly that pair's operation. The path key is dropped exactly when no method is left. Every other path item is kept, and a document without empty path items keeps that property |
| App.EditApi | src/App.tsx:94-137 | editing moves the old pair's operation (or an empty one when the pair is absent) to the new pair, with summary `"<NEWMETHOD> <newPath>"`. The old pair is removed first, and its path is dropped if it becomes empty. All other pairs are unchanged |
| App.Relocated | src/App.tsx:115-118 | the relocated operation keeps the old one's responses and other members (none when there was no old operation), and its summary becomes `<METHOD> <path>` for the new pair |
| App.RelocationIsDeletionThenPlace | src/App.tsx:94-137 | an edit is exactly a deletion of the old pair followed by placing the relocated operation under the new pair |
| App.RelocationKeepsNoEmptyPaths | src/App.tsx:94-137 | an edit never leaves an empty path item behind |
| App.RelocationInPlace | src/App.tsx:94-137 | editing an existing operation without changing its path or method only rewrites its summary |
| App.NewProject | src/App.tsx:15-39 | a created or imported project takes its name, keeps the document, takes its version from `info.version`, and has both timestamps equal to now |
| App.ReplaceByName | src/App.tsx:84-88 | updating the project list replaces every project with the current project's name by the updated project and keeps all the others in place |
| App.ReplaceByUnknownName | src/App.tsx:84-88 | when no project has that name, the list is unchanged |
| App.ExportFileName | src/App.tsx:50 | the download name is the name's slug followed by `-openapi.json`; the slug itself is characterised by the rows below |
| App.Slug | src/App.tsx:50 | the stem holds no white space and is no longer than the name |
| App.SlugRun | src/App.tsx:50 | each maximal white-space run (between words or at either end) becomes exactly one `-`, and the text on either side is slugged on its own |
| App.SlugShape | src/App.tsx:50 | a slug has no white space and no upper-case letter, and is no longer than the name |
| App.SlugIdempotent | src/App.tsx:50 | slugging a slug changes nothing |
| App.SlugOfSingleWord | src/App.tsx:50 | a name without white space is only lower-cased |
| App.AppState.constructor | src/App.tsx:10-13 | the app starts with no projects, no current project and the sidebar closed |
| App.AppState.AddProject | src/App.tsx:15-39 | creating or importing appends the new project and makes it current; the sidebar state is untouched |
| App.AppState.CloseProject | src/App.tsx:213 | "Nuovo Progetto" clears the current project and keeps the list |
| App.AppState.OpenCreateSidebar | src/App.tsx:187-190 | the add button opens the sidebar in create mode with no API being edited |
| App.AppState.SelectApi | src/App.tsx:198-201 | clicking a list row opens the sidebar in edit mode on that `(path, method)` |
| App.AppState.CloseSidebar | src/App.tsx:227-230 | closing the sidebar clears the mode and the API being edited |
| App.AppState.SidebarInitialPath | src/App.tsx:222 | the sidebar gets the edited API's path, or the empty string |
| App.AppState.SidebarInitialVerb | src/App.tsx:223 | the sidebar gets the edited API's method when it is not empty, else `GET`; never the empty string |
| App.AppState.SaveFileName | src/App.tsx:41-55 | saving produces a file exactly when a project is open, named after that project |
| App.AppState.HandleAddApi | src/App.tsx:57-92 | with no project nothing changes. Otherwise the current project's paths become `AddApi` of the old ones, `updatedAt` becomes now, the list entry with its name is replaced. The sidebar mode is cleared, but the API being edited is kept |
| App.AppState.HandleEditApi | src/App.tsx:94-137 | with no project nothing changes. Otherwise the paths are relocated as `EditApi` states, the project is stamped and replaced in the list, and the sidebar closes with no API being edited |
| App.AppState.HandleDeleteApi | src/App.tsx:139-167 | with no project nothing changes. Otherwise the pair is deleted as `DeleteApi` states, the project is stamped and replaced in the list, and the sidebar closes with no API being edited |
| PathRules.CheckPath | src/components/ApiSidebar.tsx:36-44 | a path is accepted exactly when its first character is `/`; a blank path is refused with the "missing path" message, any other refused path with the "must start with /" message |
| PathRules.WhitespacePathRejected | src/components/ApiForm.tsx:18-21 | a path of white space only is refused as missing |
| PathRules.LeadingSpaceRejected | src/components/ApiForm.tsx:23-26 | a path with a space before its `/` is refused, because the check does not trim |
| ApiSidebar.Sidebar.constructor | src/components/ApiSidebar.tsx:25-26 | the fields start from the props, with the method upper-cased |
| ApiSidebar.Sidebar.ReceiveProps | src/components/ApiSidebar.tsx:28-31 | new props re-seed path and method only when the initial path or method changed; otherwise the user's edits are kept |
| ApiSidebar.Sidebar.SetPath | src/components/ApiSidebar.tsx:25 | typing replaces the path and nothing else |
| ApiSidebar.Sidebar.SetVerb | src/components/ApiSidebar.tsx:26 | choosing a method replaces it and nothing else |
| ApiSidebar.Sidebar.HandleSubmit | src/components/ApiSidebar.tsx:33-53 | a refused path alerts and keeps the fields. In create mode it saves `(path, lower-cased method)` and resets to `""` and `GET`. In edit mode it sends the update from the initial pair to the typed pair, if an update callback exists |
| ApiSidebar.Sidebar.HandleDelete | src/components/ApiSidebar.tsx:55-61 | a confirmed delete sends the initial pair when a delete callback exists; otherwise nothing is called |
| ApiSidebar.SubmitUnchanged | src/components/ApiSidebar.tsx:25-53 | submitting an edit sidebar as opened sends an update whose target is the initial path and the lower-cased initial method |
| ApiEditModal.EditModal.constructor | src/components/ApiEditModal.tsx:21-22 | the fields start from the props, with the method upper-cased |
| ApiEditModal.EditModal.ReceiveProps | src/components/ApiEditModal.tsx:24-27 | new props re-seed the fields only when the initial path or method changed |
| ApiEditModal.EditModal.SetPath | src/components/ApiEditModal.tsx:21 | typing replaces the path and nothing else |
| ApiEditModal.EditModal.SetVerb | src/components/ApiEditModal.tsx:22 | choosing a method replaces it and nothing else |
| ApiEditModal.EditModal.HandleSubmit | src/components/ApiEditModal.tsx:29-43 | a refused path alerts; an accepted one sends the update from the initial pair to `(path, lower-cased method)`; the fields are not reset |
| ApiEditModal.EditModal.HandleDelete | src/components/ApiEditModal.tsx:45-49 | a confirmed delete sends the initial pair |
| ApiForm.NewApiForm.constructor | src/components/ApiForm.tsx:11-13 | the form starts closed, with an empty path and `GET` |
| ApiForm.NewApiForm.Open | src/components/ApiForm.tsx:39 | opening shows the form and keeps what was typed |
| ApiForm.NewApiForm.SetPath | src/components/ApiForm.tsx:11 | typing replaces the path and nothing else |
| ApiForm.NewApiForm.SetVerb | src/components/ApiForm.tsx:12 | choosing a method replaces it and nothing else |
| ApiForm.NewApiForm.HandleSubmit | src/components/ApiForm.tsx:15-34 | a refused path alerts and keeps the form; an accepted one adds `(path, lower-cased method)` and clears and closes the form |
| ApiForm.NewApiForm.Cancel | src/components/ApiForm.tsx:85-89 | cancelling clears and closes the form |
| CreateProject.BuildSpec | src/components/CreateProject.tsx:22-30 | the new document is OpenAPI `3.0.0` with the name as title and the version. The description is omitted exactly when it is empty. Paths are empty and there are no components |
| CreateProject.CreatedProjectVersion | src/components/CreateProject.tsx:22-32 | a created project's version is the version typed in the form |
| CreateProject.ProjectForm.constructor | src/components/CreateProject.tsx:10-12 | the form starts empty with version `1.0.0` |
| CreateProject.ProjectForm.SetFields | src/components/CreateProject.tsx:10-12 | the three inputs hold what was typed |
| CreateProject.ProjectForm.HandleSubmit | src/components/CreateProject.tsx:14-38 | a blank name is refused with its message and the form is kept. Otherwise the project is created from the untrimmed name with `BuildSpec`, and the form is reset |
| CreateProject.SubmitWhitespaceName | src/components/CreateProject.tsx:17-20 | a name made of white space only is refused |
| ApiList.ItemBelowIrreflexive | src/components/ApiList.tsx:26-31 | the comparator never puts an item before itself |
| ApiList.ItemBelowTransitive | src/components/ApiList.tsx:26-31 | the comparator (by path, then by method) is transitive |
| ApiList.ItemBelowTotal | src/components/ApiList.tsx:26-31 | any two distinct items are ordered one way or the other |
| ApiList.Insert | src/components/ApiList.tsx:26-31 | inserting into a sorted list keeps it sorted and adds exactly that item |
| ApiList.SortItems | src/components/ApiList.tsx:26-31 | the sort returns a permutation of its input in comparator order |
| ApiList.StrictlySortedUnique | src/components/ApiList.tsx:26-31 | two strictly sorted lists with the same items are equal: the listed order is determined by the document alone |
| ApiList.ListApis | src/components/ApiList.tsx:16-31 | the list holds every `(path, method)` key pair of the document exactly once, in strictly increasing order by path and then by method |
| ApiList.Render | src/components/ApiList.tsx:33-57 | no items show the empty message. Otherwise the count and one row per item are shown, in order, with the upper-cased method badge and the path; a click passes on the item's own pair |
| QueryParamsBuilder.AddParameter | src/components/QueryParamsBuilder.tsx:21-31 | adding appends a fresh `param_<now>` string parameter, keeps every existing one, and selects the new last index |
| QueryParamsBuilder.KeepOthers | src/components/QueryParamsBuilder.tsx:34 | the filter keeps every parameter but the one at the index, in order |
| QueryParamsBuilder.RemoveParameter | src/components/QueryParamsBuilder.tsx:33-41 | removing an index inside the list drops exactly that parameter; an index outside it changes nothing |
| QueryParamsBuilder.RemoveParameterSelection | src/components/QueryParamsBuilder.tsx:35-40 | removing the selected parameter selects the first one, or nothing if the list is now empty. A later selection shifts down by one, an earlier one is kept, and the selection stays valid |
| QueryParamsBuilder.CommitName | src/components/QueryParamsBuilder.tsx:48-55 | a rename is emitted exactly when the buffer is not blank and differs from the current name. Only that parameter's name changes, to the untrimmed buffer |
| QueryParamsBuilder.CommitNameAllowsDuplicates | src/components/QueryParamsBuilder.tsx:48-55 | renaming a parameter to another parameter's name is accepted, so names can repeat |
| QueryParamsBuilder.NameEditor.constructor | src/components/QueryParamsBuilder.tsx:18-19 | no name is being edited |
| QueryParamsBuilder.NameEditor.StartEditingName | src/components/QueryParamsBuilder.tsx:43-46 | editing starts on the index with the buffer holding its name |
| QueryParamsBuilder.NameEditor.SetEditingName | src/components/QueryParamsBuilder.tsx:19 | typing replaces the buffer only |
| QueryParamsBuilder.NameEditor.FinishEditingName | src/components/QueryParamsBuilder.tsx:48-55 | finishing emits `CommitName` of the buffer and always leaves edit mode |
| QueryParamsBuilder.NameEditor.HandleKeyPress | src/components/QueryParamsBuilder.tsx:57-63 | Enter finishes the edit, Escape leaves edit mode without emitting, and any other key changes nothing |
| QueryParameterEditor.MergeBranch | src/components/QueryParameterEditor.tsx:217-222 | patching one branch of a node sets that branch and leaves the other branch and all other fields as they were |
| QueryParameterEditor.GetSnoc | src/components/QueryParameterEditor.tsx:212 | looking a node up by a path one step longer is one step below the lookup of the shorter path |
| QueryParameterEditor.GetPrefix | src/components/QueryParameterEditor.tsx:212 | every ancestor of an existing nested property exists |
| QueryParameterEditor.UpdateAt | src/components/QueryParameterEditor.tsx:217-235 | an update along a path emits a result exactly when the addressed property exists, and a nested update never changes the top-level node's own fields |
| QueryParameterEditor.ChainUpdate | src/components/QueryParameterEditor.tsx:217-221 | the chain of per-level callbacks emits a result exactly when the addressed property exists, and keeps the edited parameter's own fields |
| QueryParameterEditor.UpdateAtTarget | src/components/QueryParameterEditor.tsx:217-235 | an update along a path succeeds exactly when the property exists, and leaves it patched |
| QueryParameterEditor.UpdateAtElsewhere | src/components/QueryParameterEditor.tsx:217-235 | an update along a path leaves every property off that path unchanged |
| QueryParameterEditor.UpdateAtAncestors | src/components/QueryParameterEditor.tsx:217-235 | each ancestor on the path only has its child on the path replaced |
| QueryParameterEditor.UpdateAtSnoc | src/components/QueryParameterEditor.tsx:217-235 | updating one step deeper is updating the parent with a patch that replaces that child |
| QueryParameterEditor.ChainIsUpdateAt | src/components/QueryParameterEditor.tsx:217-235 | the chain of callbacks each level passes down equals the single path update |
| QueryParameterEditor.UpdateObjectProperty | src/components/QueryParameterEditor.tsx:75-90 | a top-level property update succeeds exactly when the property exists. It merges the updates into that property and leaves its siblings and the parameter's other fields alone |
| QueryParameterEditor.AddObjectProperty | src/components/QueryParameterEditor.tsx:44-61 | adding creates a `prop_<now>` string property and keeps the others |
| QueryParameterEditor.RemoveObjectProperty | src/components/QueryParameterEditor.tsx:63-73 | removal applies only when the parameter has properties, and drops exactly that key |
| QueryParameterEditor.RenameObjectProperty | src/components/QueryParameterEditor.tsx:92-104 | a rename applies only when the old key exists. It moves the property to the new key without changing the property's own `name`, and keeps all other keys |
| QueryParameterEditor.RenameObjectPropertySize | src/components/QueryParameterEditor.tsx:92-104 | renaming onto another existing key loses one property; renaming to a fresh key keeps the count |
| QueryParameterEditor.SetType | src/components/QueryParameterEditor.tsx:633-642 | choosing a type sets it. `array` also sets the element type to `string`, `object` also resets the properties to empty, and other fields are kept |
| QueryParameterEditor.SetArrayType | src/components/QueryParameterEditor.tsx:659-668 | choosing the element type sets it. `object` also creates an empty element-property map when there is none, and nothing else changes |
| QueryParameterEditor.SetRequired | src/components/QueryParameterEditor.tsx:790 | the checkbox sets `required` and nothing else |
| QueryParameterEditor.SetDescription | src/components/QueryParameterEditor.tsx:800 | the text area sets the description and nothing else |
| QueryParameterEditor.AddItemProperty | src/components/QueryParameterEditor.tsx:692-706 | adding an element property creates `item_prop_<now>` as a string and keeps the others |
| QueryParameterEditor.RenameItemProperty | src/components/QueryParameterEditor.tsx:721-732 | an element property moves to the new key, and all other keys are kept |
| QueryParameterEditor.RetypeItemProperty | src/components/QueryParameterEditor.tsx:738-749 | an element property's type changes and nothing else |
| QueryParameterEditor.RemoveItemProperty | src/components/QueryParameterEditor.tsx:766-772 | exactly that element property is dropped |
| QueryParameterEditor.Toggle | src/components/QueryParameterEditor.tsx:27-35 | toggling flips membership of that key only |
| QueryParameterEditor.ToggleTwice | src/components/QueryParameterEditor.tsx:27-35 | toggling twice restores the set |
| QueryParameterEditor.Edit | src/components/QueryParameterEditor.tsx:107-320 | a nested edit of a missing property emits nothing; an add or retype emits exactly when the property exists; no nested edit changes the edited parameter's own fields |
| QueryParameterEditor.EditNode | src/components/QueryParameterEditor.tsx:107-320 | a nested edit that is not a rename or a removal patches exactly the addressed property; every property off its path is unchanged |
| QueryParameterEditor.RetypeKeepsStaleFields | src/components/QueryParameterEditor.tsx:166-174 | a nested type change only adds fields: the old element type and properties survive it |
| QueryParameterEditor.RetypeAwayAndBack | src/components/QueryParameterEditor.tsx:166-174 | retyping a nested object to array and back keeps its object properties |
| QueryParameterEditor.ElementRetypeKeepsProperties | src/components/QueryParameterEditor.tsx:249-256 | a nested element-type change keeps the element properties |
| QueryParameterEditor.NewChildAdded | src/components/QueryParameterEditor.tsx:118-142 | the nested add creates a `prop_<now>` (object) or `item_<now>` (array) string child and keeps the others |
| QueryParameterEditor.EditRenameSameName | src/components/QueryParameterEditor.tsx:224-225 | a nested rename to the same name does nothing |
| QueryParameterEditor.EditRenameMoves | src/components/QueryParameterEditor.tsx:224-230 | a nested rename moves the property to the new key under its parent and leaves its siblings and everything off the path unchanged. The edit is exactly the path update at the parent, so the parent keeps its own fields and its other branch, and each ancestor changes only its child on the path (with `UpdateAtAncestors`) |
| QueryParameterEditor.EditRemoveDrops | src/components/QueryParameterEditor.tsx:231-235 | a nested removal drops exactly that key under its parent and leaves everything else unchanged. The edit is exactly the path update at the parent, so the parent keeps its own fields and its other branch, and each ancestor changes only its child on the path (with `UpdateAtAncestors`) |
| QueryParameterEditor.TopLevelExpansionKeysCollide | src/components/QueryParameterEditor.tsx:825-834 | as written, two different top-level properties get the same expansion key, so toggling one toggles the other |
| QueryParameterEditor.SiblingExpansionKeysDiffer | src/components/QueryParameterEditor.tsx:212 | with one key per property, sibling properties never share a key |
| QueryParameterEditor.ToggleSiblingKeepsOthers | src/components/QueryParameterEditor.tsx:27-35 | with one key per property, expanding one sibling leaves every other sibling as it was |
| ApiStore.AssignEndpoint | src/store/apiStore.ts:102 | `Object.assign` takes each present update field and keeps each absent one, field by field; `updatedAt` is always now, and an empty update changes nothing else |
| ApiStore.AssignScheme | src/store/apiStore.ts:223 | each present update field is taken and each absent one kept, field by field; an empty update changes nothing |
| ApiStore.FindById | src/store/apiStore.ts:100 | `find` returns the first endpoint with the id, and nothing exactly when no endpoint has it |
| ApiStore.NewEndpoint | src/store/apiStore.ts:68-92 | a new endpoint has id `<method>-<path>-<now>`, an empty summary and description, no parameters, responses, security or request body, and both timestamps now |
| ApiStore.UpdateInBucket | src/store/apiStore.ts:99-105 | updating an endpoint replaces only the first match in its path's list and keeps every other list; no list becomes empty |
| ApiStore.DeleteInBucket | src/store/apiStore.ts:119-127 | deleting splices out only the first match, and drops the path when its list becomes empty |
| ApiStore.AppendEndpoint | src/store/apiStore.ts:82-86 | adding appends to the path's list, creating it if needed, and keeps every other list |
| ApiStore.UpdateKeepsBucket | src/store/apiStore.ts:94-112 | changing an endpoint's `path` field does not move it to another list |
| ApiStore.DeleteRemovesId | src/store/apiStore.ts:119-127 | when ids are unique, deleting the endpoint with an id leaves no endpoint with that id |
| ApiStore.DeleteKeepsUniqueIds | src/store/apiStore.ts:114-136 | when ids are unique, deleting keeps them unique |
| ApiStore.Store.constructor | src/store/apiStore.ts:30-33 | the store starts from the default spec, with nothing selected and nothing unsaved |
| ApiStore.Store.SetSpec | src/store/apiStore.ts:36-44 | the spec is replaced and marked unsaved |
| ApiStore.Store.ResetSpec | src/store/apiStore.ts:46-56 | the store returns to its initial state |
| ApiStore.Store.AddEndpoint | src/store/apiStore.ts:68-92 | a new endpoint is appended to its path's list, and the spec is marked unsaved |
| ApiStore.Store.UpdateEndpoint | src/store/apiStore.ts:94-112 | the store is marked unsaved exactly when some endpoint has the id. Then the first match in one such list is updated; otherwise the spec is unchanged |
| ApiStore.Store.DeleteEndpoint | src/store/apiStore.ts:114-136 | the store is marked unsaved exactly when some endpoint has the id, and then one match is removed. A selected endpoint with that id is deselected whether or not it was found |
| ApiStore.Store.SelectEndpoint | src/store/apiStore.ts:138-139 | only the endpoint selection changes |
| ApiStore.Store.AddModel | src/store/apiStore.ts:142-159 | the model is stored under its name with id `model-<name>-<now>` and both timestamps now |
| ApiStore.Store.UpdateModel | src/store/apiStore.ts:161-179 | the store is marked unsaved exactly when some model has the id, and then that model's schema and `updatedAt` change |
| ApiStore.Store.DeleteModel | src/store/apiStore.ts:181-199 | the store is marked unsaved exactly when some model has the id, and then that model is removed. A selected model with that id is deselected |
| ApiStore.Store.SelectModel | src/store/apiStore.ts:201-202 | only the model selection changes |
| ApiStore.Store.AddSecurityScheme | src/store/apiStore.ts:205-214 | the scheme is stored under its name |
| ApiStore.Store.UpdateSecurityScheme | src/store/apiStore.ts:216-233 | the store is marked unsaved exactly when some scheme has the id, and then that scheme is updated |
| ApiStore.Store.DeleteSecurityScheme | src/store/apiStore.ts:235-252 | the store is marked unsaved exactly when some scheme has the id, and then that scheme is removed |
| ApiStore.Store.MarkUnsavedChanges | src/store/apiStore.ts:255-256 | only the flag changes, to true |
| ApiStore.Store.MarkSavedChanges | src/store/apiStore.ts:258-259 | only the flag changes, to false |
| Strings.HyphenateWhitespace | src/App.tsx:50 | `replace(/\s+/g, '-')` never lengthens the name |
| Strings.HyphenateShape | src/App.tsx:50 | the result of the replacement holds no white space, and a name without white space is returned unchanged |
| Strings.HyphenateRun | src/App.tsx:50 | a maximal white-space run (between non-blank characters or at either end) becomes exactly one `-`, and the text on either side is replaced on its own |
| Strings.AllWhitespaceHyphenates | src/App.tsx:50 | a non-empty all-white name becomes a single `-` |
| Strings.LowerConcat | src/App.tsx:50 | `toLowerCase` works character by character: it distributes over concatenation |
| Strings.TrimStartShape | src/components/QueryParamsBuilder.tsx:49 | `trim` drops only white space at the front and stops at the first non-blank character |
| Strings.TrimEndShape | src/components/QueryParamsBuilder.tsx:49 | `trim` drops only white space at the back and stops at the last non-blank character |
| Strings.BlankIffAllWhitespace | src/components/CreateProject.tsx:17 | `trim()` leaves nothing exactly when every character is white space |
| Strings.DecimalRoundTrip | src/store/apiStore.ts:71 | the decimal rendering of a timestamp reads back as the same number |
| Strings.DecimalStringInjective | src/store/apiStore.ts:71 | different timestamps render differently |
| Strings.BelowTransitive | src/components/ApiList.tsx:27-29 | the string order used for comparing paths and methods is transitive |
| Strings.BelowTotal | src/components/ApiList.tsx:27-29 | distinct strings are ordered one way or the other |

## Left out

- Insertion order of JavaScript objects is not modelled, because `map`s are unordered. A rename in the source also moves the key to the end of the object, and the model cannot show that.
- `String.prototype.localeCompare` is replaced by lexicographic order of code points (`Strings.Below`). The locale collation is not available, and the properties proved (a strict total order) are the ones the sort needs. This also differs from plain UTF-16 code-unit order for characters outside the Basic Multilingual Plane, because a Dafny `char` is a whole code point, not a surrogate half.
- `toUpperCase`/`toLowerCase` map ASCII letters only; no other Unicode case mapping is modelled.
- ApiStore.Store.UpdateEndpoint: the `for (const path in …)` loop with `break` (src/store/apiStore.ts:99) visits paths in property order: integer-like keys first in ascending numeric order, then the other keys in insertion order. The model's maps have no order. The contract says only that the first match in *some* list holding the id is updated. Unique ids are assumed, not kept: `AddEndpoint` can repeat an id made from the same method, path and time (src/store/apiStore.ts:71), and `UpdateEndpoint` can set any id. When ids happen to be unique there is only one such list, and `DeleteKeepsUniqueIds` shows that deleting does not break uniqueness.
- ApiStore.Store.DeleteEndpoint: as for `UpdateEndpoint`, the list the match is removed from is one of those holding the id, not the first in that property order.
- ApiStore.Store.UpdateModel: the `for (const name in …)` loop with `break` (src/store/apiStore.ts:166) visits names in property order: integer-like keys first in ascending numeric order, then the other keys in insertion order; the contract names *some* model with the id.
- ApiStore.Store.DeleteModel: as for `UpdateModel` (loop at src/store/apiStore.ts:186), the model removed is one of those with the id.
- ApiStore.Store.UpdateSecurityScheme: as for `UpdateModel` (loop at src/store/apiStore.ts:221), the scheme updated is one of those with the id.
- ApiStore.Store.DeleteSecurityScheme: as for `UpdateModel` (loop at src/store/apiStore.ts:240), the scheme removed is one of those with the id.
- `Partial<...>` updates that set a member to `undefined` explicitly are not modelled. An absent field (`None`) keeps the old value.
- `structuredClone`, Zustand's `set`, its devtools/persist middleware and `exportSpec` (JSON serialisation) are left out. They are the framework and I/O around the state changes, not logic of the editor.
- Aliasing in `handleEditApi`/`handleDeleteApi`: the source mutates path-item objects it shallow-copied, which the previous document shares. The model has values only, so it describes the new document and not the mutation seen through the old one.
- App.DeleteApi: `requires` the path to be a key. The source dereferences the path item unguarded and would throw otherwise. The same holds for App.EditApi and the two `AppState` handlers.
- Uniqueness of generated names and ids relies on `Date.now()` differing between calls; the model takes `now` as a parameter and does not assume it.
- The whole JSX rendering, CSS classes, the sidebar's overlay and `useEffect` scheduling are left out. Re-rendering with new props is the explicit `ReceiveProps` step.
- The file download of the save action (Blob, object URL, anchor click) is left out; `SaveFileName` models only the file name.
- ImportProject.tsx (file reading, `JSON.parse` and its error path) and BodyBuilder.tsx are not part of this model. The import's effect on the app state is `AppState.AddProject`.
- `renderPropertyItem` and `handleArrayTypeChange` in QueryParameterEditor.tsx are never called, so they are not modelled.
- The `QueryParameter` type declaration file is not part of this model. The tree's fields are taken from their use in the two components.
- QueryParameterEditor.RenameItemProperty: requires the old key to be present. The handler is only rendered for existing element properties, so that holds at every call.
- QueryParameterEditor.RetypeItemProperty: requires the element property to be present. Its type selector is only rendered for the entries of `arrayObjectProperties` (src/components/QueryParameterEditor.tsx:716), so that holds at every call.
- Confirm dialogs and alerts are not modelled as I/O. The answer to `confirm` is a parameter, and an alert is a returned value.

## Findings

| source | as written | input that shows it | evidently intended | confidence | as-written member | corrected member |
|---|---|---|---|---|---|---|
| src/components/QueryParameterEditor.tsx:829 | every top-level nested property is rendered with the same `itemPath` `'root'`, which serves as its expansion key and React `key`, while deeper levels extend the key by `.obj.<name>` or `.arr.<name>` | a parameter of type object with two properties `a` and `b`: clicking the expand button of `a` also expands `b` | each top-level property keyed by its own name, e.g. `root.<name>`, so that siblings expand independently | medium, not executed | QueryParameterEditor.TopLevelExpansionKeysCollide | QueryParameterEditor.ToggleSiblingKeepsOthers |
