/**
 * The recursive schema editor of one query parameter. Every handler builds a
 * new record by spreading the old one and hands it on; nested properties are
 * edited through a chain of `updateCallback`s, one per ancestor, each of which
 * rebuilds its own children map and passes it to its parent. Here the chain is
 * `ChainUpdate`, and `UpdateAt` is the same edit stated top-down by path.
 */
module QueryParameterEditor {
  import opened Wrappers
  import opened Strings
  import opened QueryParameters

  /** Which children map a step goes through: `objectProperties` or `arrayObjectProperties`. */
  datatype Branch = Obj | Arr

  datatype Step = Step(branch: Branch, key: string)

  /** The address of a nested property below the edited parameter. */
  type Path = seq<Step>

  function Children(n: Node, b: Branch): Option<map<string, Node>> {
    if b == Obj then n.objectProperties else n.arrayObjectProperties
  }

  function OtherBranch(b: Branch): Branch {
    if b == Obj then Arr else Obj
  }

  /** `{...m}` or `m || {}` of a possibly absent children map. */
  function Entries(m: Option<map<string, Node>>): map<string, Node> {
    m.GetOr(map[])
  }

  /** `Partial<QueryParameter>`: the updates a nested property passes to its `updateCallback`. */
  datatype Patch = Patch(
    kind: Option<ParamType>,
    arrayType: Option<ParamType>,
    objectProperties: Option<map<string, Node>>,
    arrayObjectProperties: Option<map<string, Node>>)

  /** The update `{ objectProperties: m }` or `{ arrayObjectProperties: m }`. */
  function BranchPatch(b: Branch, m: map<string, Node>): Patch {
    if b == Obj then Patch(None, None, Some(m), None) else Patch(None, None, None, Some(m))
  }

  /** `{ ...n, ...p }`: the fields present in the patch win. */
  function Merge(n: Node, p: Patch): Node {
    n.(kind := p.kind.GetOr(n.kind),
       arrayType := if p.arrayType.Some? then p.arrayType else n.arrayType,
       objectProperties := if p.objectProperties.Some? then p.objectProperties else n.objectProperties,
       arrayObjectProperties := if p.arrayObjectProperties.Some? then p.arrayObjectProperties else n.arrayObjectProperties)
  }

  /** Merging a branch update replaces that children map and nothing else. */
  lemma MergeBranch(n: Node, b: Branch, m: map<string, Node>)
    ensures Children(Merge(n, BranchPatch(b, m)), b) == Some(m)
    ensures Children(Merge(n, BranchPatch(b, m)), OtherBranch(b)) == Children(n, OtherBranch(b))
    ensures Merge(n, BranchPatch(b, m)).(objectProperties := n.objectProperties,
                                         arrayObjectProperties := n.arrayObjectProperties) == n
  {
  }

  /** The nested property at `path`, if there is one. */
  function Get(n: Node, path: Path): Option<Node>
    decreases |path|
  {
    if path == [] then Some(n)
    else
      match Children(n, path[0].branch)
      case None => None
      case Some(m) => if path[0].key in m then Get(m[path[0].key], path[1..]) else None
  }

  /** Looking one step further than `q`: the child `s.key` of the node at `q`. */
  lemma {:induction false} GetSnoc(n: Node, q: Path, s: Step)
    ensures Get(n, q + [s]) ==
      match Get(n, q)
      case None => None
      case Some(a) =>
        match Children(a, s.branch)
        case None => None
        case Some(m) => if s.key in m then Some(m[s.key]) else None
    decreases |q|
  {
    if q == [] {
      assert q + [s] == [s];
    } else {
      assert (q + [s])[0] == q[0] && (q + [s])[1..] == q[1..] + [s];
      match Children(n, q[0].branch)
      case None =>
      case Some(m) =>
        if q[0].key in m {
          GetSnoc(m[q[0].key], q[1..], s);
        }
    }
  }

  /** A node that exists has all its ancestors. */
  lemma {:induction false} GetPrefix(n: Node, path: Path, k: nat)
    requires k <= |path| && Get(n, path).Some?
    ensures Get(n, path[..k]).Some?
    decreases |path|
  {
    if k > 0 {
      assert path[..k][0] == path[0] && path[..k][1..] == path[1..][..k - 1];
      GetPrefix(Children(n, path[0].branch).value[path[0].key], path[1..], k - 1);
    }
  }

  /**
   * The edit `patch` applied to the node at `path`, with every ancestor rebuilt
   * around its new child. Nothing is emitted when the path leads nowhere.
   */
  function UpdateAt(n: Node, path: Path, patch: Patch): (r: Option<Node>)
    ensures r.Some? <==> Get(n, path).Some?
    ensures r.Some? && path != [] ==>
      r.value.(objectProperties := n.objectProperties, arrayObjectProperties := n.arrayObjectProperties) == n
    decreases |path|
  {
    if path == [] then Some(Merge(n, patch))
    else
      var s := path[0];
      match Children(n, s.branch)
      case None => None
      case Some(m) =>
        if s.key !in m then None
        else
          match UpdateAt(m[s.key], path[1..], patch)
          case None => None
          case Some(c) => Some(Merge(n, BranchPatch(s.branch, m[s.key := c])))
  }

  /** The addressed node receives the patch; an edit at a missing node emits nothing. */
  lemma {:induction false} UpdateAtTarget(n: Node, path: Path, patch: Patch)
    ensures UpdateAt(n, path, patch).Some? <==> Get(n, path).Some?
    ensures Get(n, path).Some? ==>
      Get(UpdateAt(n, path, patch).value, path) == Some(Merge(Get(n, path).value, patch))
    decreases |path|
  {
    if path != [] {
      var s := path[0];
      match Children(n, s.branch)
      case None =>
      case Some(m) =>
        if s.key in m {
          UpdateAtTarget(m[s.key], path[1..], patch);
          if Get(n, path).Some? {
            MergeBranch(n, s.branch, m[s.key := UpdateAt(m[s.key], path[1..], patch).value]);
          }
        }
    }
  }

  /** `q` and `path` part ways: at some depth they name different steps. */
  predicate Diverge(q: Path, path: Path)
    decreases |q|
  {
    q != [] && path != [] && (q[0] != path[0] || Diverge(q[1..], path[1..]))
  }

  /** Every node off the edited path, at every depth, is unchanged. */
  lemma {:induction false} UpdateAtElsewhere(n: Node, path: Path, patch: Patch, q: Path)
    requires UpdateAt(n, path, patch).Some? && Diverge(q, path)
    ensures Get(UpdateAt(n, path, patch).value, q) == Get(n, q)
    decreases |q|
  {
    var s := path[0];
    var m := Children(n, s.branch).value;
    var c := UpdateAt(m[s.key], path[1..], patch).value;
    var r := UpdateAt(n, path, patch).value;
    MergeBranch(n, s.branch, m[s.key := c]);
    if q[0] == s {
      UpdateAtElsewhere(m[s.key], path[1..], patch, q[1..]);
    }
  }

  /**
   * At every ancestor of the edited node, the rebuilt ancestor differs from the
   * old one only in the one child on the path: its own fields, its other
   * children map and all siblings of that child are unchanged.
   */
  predicate OnlyChildChanged(a: Node, a': Node, s: Step) {
    && a'.(objectProperties := a.objectProperties, arrayObjectProperties := a.arrayObjectProperties) == a
    && Children(a', OtherBranch(s.branch)) == Children(a, OtherBranch(s.branch))
    && Children(a, s.branch).Some? && Children(a', s.branch).Some?
    && Children(a', s.branch).value.Keys == Children(a, s.branch).value.Keys
    && forall k :: k in Children(a, s.branch).value && k != s.key ==>
         Children(a', s.branch).value[k] == Children(a, s.branch).value[k]
  }

  lemma {:induction false} UpdateAtAncestors(n: Node, path: Path, patch: Patch, k: nat)
    requires k < |path| && UpdateAt(n, path, patch).Some?
    ensures Get(n, path[..k]).Some? && Get(UpdateAt(n, path, patch).value, path[..k]).Some?
    ensures OnlyChildChanged(Get(n, path[..k]).value, Get(UpdateAt(n, path, patch).value, path[..k]).value, path[k])
    decreases |path|
  {
    var s := path[0];
    var m := Children(n, s.branch).value;
    var c := UpdateAt(m[s.key], path[1..], patch).value;
    var r := UpdateAt(n, path, patch).value;
    MergeBranch(n, s.branch, m[s.key := c]);
    if k == 0 {
      assert path[..0] == [];
    } else {
      UpdateAtAncestors(m[s.key], path[1..], patch, k - 1);
      assert path[..k][0] == s && path[..k][1..] == path[1..][..k - 1];
    }
  }

  /**
   * The callback chain as the editor runs it, bottom-up: the node at `path`
   * merges `patch` into itself inside its parent's children map and hands
   * `{ branch: updated }` to its parent's callback, up to the top-level
   * property, whose callback is `UpdateObjectProperty`.
   */
  function ChainUpdate(root: Node, path: Path, patch: Patch): (r: Option<Node>)
    requires path != [] && path[0].branch == Obj
    ensures r.Some? <==> Get(root, path).Some?
    ensures r.Some? ==>
      r.value.(objectProperties := root.objectProperties, arrayObjectProperties := root.arrayObjectProperties) == root
    decreases |path|
  {
    if |path| == 1 then
      assert path[1..] == [];
      UpdateObjectProperty(root, path[0].key, patch)
    else
      var parentPath := path[..|path| - 1];
      var last := path[|path| - 1];
      assert path == parentPath + [last];
      GetSnoc(root, parentPath, last);
      match Get(root, parentPath)
      case None => None
      case Some(parent) =>
        match Children(parent, last.branch)
        case None => None
        case Some(m) =>
          if last.key !in m then None
          else ChainUpdate(root, parentPath, BranchPatch(last.branch, m[last.key := Merge(m[last.key], patch)]))
  }

  /** Applying an edit below `q + [s]` equals applying, at `q`, the rebuilt children map. */
  lemma {:induction false} UpdateAtSnoc(n: Node, q: Path, s: Step, patch: Patch)
    ensures UpdateAt(n, q + [s], patch) ==
      match Get(n, q)
      case None => None
      case Some(a) =>
        match Children(a, s.branch)
        case None => None
        case Some(m) =>
          if s.key !in m then None
          else UpdateAt(n, q, BranchPatch(s.branch, m[s.key := Merge(m[s.key], patch)]))
    decreases |q|
  {
    if q == [] {
      assert q + [s] == [s];
      assert [s][1..] == [];
    } else {
      assert (q + [s])[0] == q[0] && (q + [s])[1..] == q[1..] + [s];
      match Children(n, q[0].branch)
      case None =>
      case Some(m) =>
        if q[0].key in m {
          UpdateAtSnoc(m[q[0].key], q[1..], s, patch);
        }
    }
  }

  /** The callback chain performs exactly the path-addressed update. */
  lemma {:induction false} ChainIsUpdateAt(root: Node, path: Path, patch: Patch)
    requires path != [] && path[0].branch == Obj
    ensures ChainUpdate(root, path, patch) == UpdateAt(root, path, patch)
    decreases |path|
  {
    if |path| == 1 {
      assert path[1..] == [];
    } else {
      var parentPath := path[..|path| - 1];
      var last := path[|path| - 1];
      assert path == parentPath + [last];
      UpdateAtSnoc(root, parentPath, last, patch);
      match Get(root, parentPath)
      case None =>
      case Some(parent) =>
        match Children(parent, last.branch)
        case None =>
        case Some(m) =>
          if last.key in m {
            ChainIsUpdateAt(root, parentPath, BranchPatch(last.branch, m[last.key := Merge(m[last.key], patch)]));
          }
    }
  }

  // ----- Top-level handlers of the edited parameter -----

  /** `updateObjectProperty`: merges `updates` into one top-level property; nothing is emitted without it. */
  function UpdateObjectProperty(p: Node, propName: string, updates: Patch): (r: Option<Node>)
    ensures r.Some? <==> p.objectProperties.Some? && propName in p.objectProperties.value
    ensures r.Some? ==> OnlyChildChanged(p, r.value, Step(Obj, propName))
    ensures r.Some? ==> r.value.objectProperties.value[propName] == Merge(p.objectProperties.value[propName], updates)
  {
    if p.objectProperties.None? || propName !in p.objectProperties.value then None
    else
      var props := p.objectProperties.value;
      Some(p.(objectProperties := Some(props[propName := Merge(props[propName], updates)])))
  }

  /** `addObjectProperty`: a new `prop_<now>` string property with an empty description; a same-named entry is replaced. */
  function AddObjectProperty(p: Node, now: nat): (r: Node)
    ensures r.(objectProperties := p.objectProperties) == p
    ensures r.objectProperties.Some?
    ensures var name := GeneratedName("prop_", now);
      && r.objectProperties.value.Keys == Entries(p.objectProperties).Keys + {name}
      && r.objectProperties.value[name] == NewNode(name, Some(""))
      && forall k :: k in Entries(p.objectProperties) && k != name ==>
           r.objectProperties.value[k] == Entries(p.objectProperties)[k]
  {
    var name := GeneratedName("prop_", now);
    p.(objectProperties := Some(Entries(p.objectProperties)[name := NewNode(name, Some(""))]))
  }

  /** `removeObjectProperty`: deletes exactly one key; nothing is emitted when there are no properties. */
  function RemoveObjectProperty(p: Node, propName: string): (r: Option<Node>)
    ensures r.Some? <==> p.objectProperties.Some?
    ensures r.Some? ==> r.value.(objectProperties := p.objectProperties) == p
    ensures r.Some? ==>
      && r.value.objectProperties.Some?
      && r.value.objectProperties.value.Keys == p.objectProperties.value.Keys - {propName}
      && forall k :: k in r.value.objectProperties.value ==>
           r.value.objectProperties.value[k] == p.objectProperties.value[k]
  {
    if p.objectProperties.None? then None
    else Some(p.(objectProperties := Some(p.objectProperties.value - {propName})))
  }

  /**
   * `renameObjectProperty`: the node stored under `oldName` moves, unchanged
   * (its own `name` field included), to `newName`, replacing any sibling there.
   * Nothing is emitted when `oldName` is absent.
   */
  function RenameObjectProperty(p: Node, oldName: string, newName: string): (r: Option<Node>)
    ensures r.Some? <==> p.objectProperties.Some? && oldName in p.objectProperties.value
    ensures r.Some? ==> r.value.(objectProperties := p.objectProperties) == p
    ensures r.Some? ==>
      var m := p.objectProperties.value;
      && r.value.objectProperties.Some?
      && r.value.objectProperties.value.Keys == m.Keys - {oldName} + {newName}
      && r.value.objectProperties.value[newName] == m[oldName]
      && forall k :: k in m && k != oldName && k != newName ==> r.value.objectProperties.value[k] == m[k]
  {
    if p.objectProperties.None? || oldName !in p.objectProperties.value then None
    else
      var m := p.objectProperties.value;
      Some(p.(objectProperties := Some((m - {oldName})[newName := m[oldName]])))
  }

  /** Renaming onto an existing sibling overwrites it: the map shrinks by one; onto a free name its size is kept. */
  lemma RenameObjectPropertySize(p: Node, oldName: string, newName: string)
    requires p.objectProperties.Some? && oldName in p.objectProperties.value
    ensures var m := p.objectProperties.value;
      var m' := RenameObjectProperty(p, oldName, newName).value.objectProperties.value;
      |m'| == if newName != oldName && newName in m then |m| - 1 else |m|
  {
    var m := p.objectProperties.value;
    var m' := RenameObjectProperty(p, oldName, newName).value.objectProperties.value;
    assert |m.Keys - {oldName}| == |m.Keys| - 1;
    if newName != oldName && newName in m {
      assert m'.Keys == m.Keys - {oldName};
    } else if newName == oldName {
      assert m'.Keys == m.Keys;
    } else {
      assert m'.Keys == (m.Keys - {oldName}) + {newName};
    }
    assert |m'| == |m'.Keys| && |m| == |m.Keys|;
  }

  /** The parameter's type selector: 'array' always resets the element type, 'object' always empties the properties. */
  function SetType(p: Node, t: ParamType): (r: Node)
    ensures r.kind == t
    ensures r.arrayType == if t == Array then Some(String) else p.arrayType
    ensures r.objectProperties == if t == Object then Some(map[]) else p.objectProperties
    ensures r.(kind := p.kind, arrayType := p.arrayType, objectProperties := p.objectProperties) == p
  {
    var q := p.(kind := t);
    var q := if t == Array then q.(arrayType := Some(String)) else q;
    if t == Object then q.(objectProperties := Some(map[])) else q
  }

  /** The parameter's element-type selector: 'object' creates the element properties only when absent. */
  function SetArrayType(p: Node, t: ParamType): (r: Node)
    ensures r.arrayType == Some(t)
    ensures r.arrayObjectProperties ==
      if t == Object && p.arrayObjectProperties.None? then Some(map[]) else p.arrayObjectProperties
    ensures r.(arrayType := p.arrayType, arrayObjectProperties := p.arrayObjectProperties) == p
  {
    var q := p.(arrayType := Some(t));
    if t == Object && p.arrayObjectProperties.None? then q.(arrayObjectProperties := Some(map[])) else q
  }

  /** The "required" checkbox: only `required` changes. */
  function SetRequired(p: Node, checked: bool): (r: Node)
    ensures r.required == checked && r.(required := p.required) == p
  {
    p.(required := checked)
  }

  /** The description text area: only `description` changes. */
  function SetDescription(p: Node, text: string): (r: Node)
    ensures r.description == Some(text) && r.(description := p.description) == p
  {
    p.(description := Some(text))
  }

  /** "+ Proprietà" on an array of objects: a new `item_prop_<now>` string element property, without description. */
  function AddItemProperty(p: Node, now: nat): (r: Node)
    ensures r.(arrayObjectProperties := p.arrayObjectProperties) == p
    ensures r.arrayObjectProperties.Some?
    ensures var name := GeneratedName("item_prop_", now);
      && r.arrayObjectProperties.value.Keys == Entries(p.arrayObjectProperties).Keys + {name}
      && r.arrayObjectProperties.value[name] == NewNode(name, None)
      && forall k :: k in Entries(p.arrayObjectProperties) && k != name ==>
           r.arrayObjectProperties.value[k] == Entries(p.arrayObjectProperties)[k]
  {
    var name := GeneratedName("item_prop_", now);
    p.(arrayObjectProperties := Some(Entries(p.arrayObjectProperties)[name := NewNode(name, None)]))
  }

  /** Renaming a listed element property: the node moves to `newName`, replacing any sibling there. */
  function RenameItemProperty(p: Node, oldName: string, newName: string): (r: Node)
    requires p.arrayObjectProperties.Some? && oldName in p.arrayObjectProperties.value
    ensures r.(arrayObjectProperties := p.arrayObjectProperties) == p
    ensures var m := p.arrayObjectProperties.value;
      && r.arrayObjectProperties.Some?
      && r.arrayObjectProperties.value.Keys == m.Keys - {oldName} + {newName}
      && r.arrayObjectProperties.value[newName] == m[oldName]
      && forall k :: k in m && k != oldName && k != newName ==> r.arrayObjectProperties.value[k] == m[k]
  {
    var m := p.arrayObjectProperties.value;
    p.(arrayObjectProperties := Some((m - {oldName})[newName := m[oldName]]))
  }

  /**
   * The type selector of a listed element property: only its `type` changes;
   * unlike a nested retype, no children map or element type is created.
   */
  function RetypeItemProperty(p: Node, propName: string, t: ParamType): (r: Node)
    requires p.arrayObjectProperties.Some? && propName in p.arrayObjectProperties.value
    ensures r.(arrayObjectProperties := p.arrayObjectProperties) == p
    ensures var m := p.arrayObjectProperties.value;
      && r.arrayObjectProperties.Some?
      && r.arrayObjectProperties.value.Keys == m.Keys
      && r.arrayObjectProperties.value[propName].kind == t
      && r.arrayObjectProperties.value[propName].(kind := m[propName].kind) == m[propName]
      && forall k :: k in m && k != propName ==> r.arrayObjectProperties.value[k] == m[k]
  {
    var m := p.arrayObjectProperties.value;
    p.(arrayObjectProperties := Some(m[propName := m[propName].(kind := t)]))
  }

  /** Deleting a listed element property: exactly that key goes. */
  function RemoveItemProperty(p: Node, propName: string): (r: Node)
    ensures r.(arrayObjectProperties := p.arrayObjectProperties) == p
    ensures r.arrayObjectProperties.Some?
    ensures r.arrayObjectProperties.value.Keys == Entries(p.arrayObjectProperties).Keys - {propName}
    ensures forall k :: k in r.arrayObjectProperties.value ==>
      r.arrayObjectProperties.value[k] == Entries(p.arrayObjectProperties)[k]
  {
    p.(arrayObjectProperties := Some(Entries(p.arrayObjectProperties) - {propName}))
  }

  /** `togglePropertyExpanded`: flips the membership of one key and no other. */
  function Toggle(expanded: set<string>, key: string): (r: set<string>)
    ensures key in r <==> key !in expanded
    ensures forall k :: k != key ==> (k in r <==> k in expanded)
  {
    if key in expanded then expanded - {key} else expanded + {key}
  }

  lemma ToggleTwice(expanded: set<string>, key: string)
    ensures Toggle(Toggle(expanded, key), key) == expanded
  {
  }

  // ----- Edits offered by a nested property (`renderNestedProperty`) -----

  datatype NodeEdit =
    | NewChild(now: nat)                  // "+ Proprietà" of a nested object
    | NewElementChild(now: nat)           // "+ Proprietà" of a nested array of objects
    | ChangeType(to: ParamType)           // the nested type selector
    | ChangeElementType(to: ParamType)    // the nested element-type selector
    | RenameTo(newName: string)           // the name input
    | Remove                              // the delete button

  /** The update a nested property hands to its own `updateCallback`. */
  function NodePatch(n: Node, e: NodeEdit): Patch
    requires !e.RenameTo? && !e.Remove?
  {
    match e
    case NewChild(now) =>
      var name := GeneratedName("prop_", now);
      BranchPatch(Obj, Entries(n.objectProperties)[name := NewNode(name, None)])
    case NewElementChild(now) =>
      var name := GeneratedName("item_", now);
      BranchPatch(Arr, Entries(n.arrayObjectProperties)[name := NewNode(name, None)])
    case ChangeType(t) =>
      Patch(Some(t),
            if t == Array && n.arrayType.None? then Some(String) else None,
            if t == Object && n.objectProperties.None? then Some(map[]) else None,
            None)
    case ChangeElementType(t) =>
      Patch(None, Some(t), None,
            if t == Object && n.arrayObjectProperties.None? then Some(map[]) else None)
  }

  /**
   * A nested edit of the property at `path`, as the editor emits it: edits of
   * the node itself go up its own callback chain; renaming and deleting it go
   * through its parent's callback, or through the top-level handlers when it is
   * a top-level property. `None`: nothing is emitted.
   */
  function Edit(root: Node, path: Path, e: NodeEdit): (r: Option<Node>)
    requires path != [] && path[0].branch == Obj
    ensures Get(root, path).None? ==> r.None?
    ensures !e.RenameTo? && !e.Remove? ==> (r.Some? <==> Get(root, path).Some?)
    ensures r.Some? ==>
      r.value.(objectProperties := root.objectProperties, arrayObjectProperties := root.arrayObjectProperties) == root
  {
    match Get(root, path)
    case None => None
    case Some(n) =>
      if !e.RenameTo? && !e.Remove? then ChainUpdate(root, path, NodePatch(n, e))
      else if |path| == 1 then
        if e.RenameTo? then RenameObjectProperty(root, path[0].key, e.newName)
        else RemoveObjectProperty(root, path[0].key)
      else
        var parentPath := path[..|path| - 1];
        var last := path[|path| - 1];
        if e.RenameTo? && e.newName == last.key then None
        else
          match Get(root, parentPath)
          case None => None
          case Some(parent) =>
            var m := Entries(Children(parent, last.branch));
            if last.key !in m then None
            else
              var updated := if e.RenameTo? then m[e.newName := m[last.key]] - {last.key} else m - {last.key};
              ChainUpdate(root, parentPath, BranchPatch(last.branch, updated))
  }

  /**
   * A nested edit of the node itself (add a child, retype, change the element
   * type) reaches the addressed node as its patch and leaves every node off
   * the path, at every depth, as it was.
   */
  lemma EditNode(root: Node, path: Path, e: NodeEdit)
    requires path != [] && path[0].branch == Obj && !e.RenameTo? && !e.Remove?
    requires Get(root, path).Some?
    ensures var n := Get(root, path).value;
      var r := Edit(root, path, e);
      && r.Some?
      && Get(r.value, path) == Some(Merge(n, NodePatch(n, e)))
      && forall q :: Diverge(q, path) ==> Get(r.value, q) == Get(root, q)
  {
    var n := Get(root, path).value;
    ChainIsUpdateAt(root, path, NodePatch(n, e));
    UpdateAtTarget(root, path, NodePatch(n, e));
    forall q | Diverge(q, path)
      ensures Get(Edit(root, path, e).value, q) == Get(root, q)
    {
      UpdateAtElsewhere(root, path, NodePatch(n, e), q);
    }
  }

  /**
   * Nested retype: to 'object' creates an empty properties map only when there
   * is none, to 'array' sets the element type to 'string' only when unset, and
   * no field left over from an earlier type is cleared.
   */
  lemma RetypeKeepsStaleFields(n: Node, t: ParamType)
    ensures var r := Merge(n, NodePatch(n, ChangeType(t)));
      && r.kind == t
      && r.objectProperties == (if t == Object && n.objectProperties.None? then Some(map[]) else n.objectProperties)
      && r.arrayType == (if t == Array && n.arrayType.None? then Some(String) else n.arrayType)
      && r.(kind := n.kind, objectProperties := n.objectProperties, arrayType := n.arrayType) == n
  {
  }

  /**
   * An object retyped to 'array' and back to 'object' shows its old properties
   * again, unchanged; one that had none ends with an empty map.
   */
  lemma RetypeAwayAndBack(n: Node)
    ensures var a := Merge(n, NodePatch(n, ChangeType(Array)));
      var b := Merge(a, NodePatch(a, ChangeType(Object)));
      && b.kind == Object
      && b.objectProperties == (if n.objectProperties.None? then Some(map[]) else n.objectProperties)
      && b.arrayObjectProperties == n.arrayObjectProperties
  {
  }

  /** Nested element-type change: 'object' creates the element properties only when absent. */
  lemma ElementRetypeKeepsProperties(n: Node, t: ParamType)
    ensures var r := Merge(n, NodePatch(n, ChangeElementType(t)));
      && r.arrayType == Some(t)
      && r.arrayObjectProperties ==
           (if t == Object && n.arrayObjectProperties.None? then Some(map[]) else n.arrayObjectProperties)
      && r.(arrayType := n.arrayType, arrayObjectProperties := n.arrayObjectProperties) == n
  {
  }

  /** A nested "+ Proprietà" inserts one `prop_<now>` (or `item_<now>`) node and keeps every other child. */
  lemma NewChildAdded(n: Node, b: Branch, now: nat)
    ensures var e := if b == Obj then NewChild(now) else NewElementChild(now);
      var name := GeneratedName(if b == Obj then "prop_" else "item_", now);
      var r := Merge(n, NodePatch(n, e));
      && Children(r, b).Some?
      && Children(r, b).value.Keys == Entries(Children(n, b)).Keys + {name}
      && Children(r, b).value[name] == NewNode(name, None)
      && (forall k :: k in Entries(Children(n, b)) && k != name ==> Children(r, b).value[k] == Entries(Children(n, b))[k])
      && Children(r, OtherBranch(b)) == Children(n, OtherBranch(b))
      && r.(objectProperties := n.objectProperties, arrayObjectProperties := n.arrayObjectProperties) == n
  {
    var e := if b == Obj then NewChild(now) else NewElementChild(now);
    var name := GeneratedName(if b == Obj then "prop_" else "item_", now);
    MergeBranch(n, b, Entries(Children(n, b))[name := NewNode(name, None)]);
  }

  /** Renaming a nested property to its own name emits nothing. */
  lemma EditRenameSameName(root: Node, path: Path)
    requires |path| >= 2 && path[0].branch == Obj
    ensures Edit(root, path, RenameTo(path[|path| - 1].key)) == None
  {
  }

  /**
   * Renaming a nested property moves its node, contents intact, to the new
   * name under the same parent; the old name is gone, every other sibling and
   * every node off the parent's path are unchanged.
   */
  lemma EditRenameMoves(root: Node, path: Path, newName: string)
    requires |path| >= 2 && path[0].branch == Obj && Get(root, path).Some?
    requires newName != path[|path| - 1].key
    ensures var parentPath := path[..|path| - 1];
      var b := path[|path| - 1].branch;
      var r := Edit(root, path, RenameTo(newName));
      && r.Some?
      && Get(r.value, parentPath + [Step(b, newName)]) == Get(root, path)
      && Get(r.value, path) == None
      && (forall k :: k != path[|path| - 1].key && k != newName ==>
            Get(r.value, parentPath + [Step(b, k)]) == Get(root, parentPath + [Step(b, k)]))
      && forall q :: Diverge(q, parentPath) ==> Get(r.value, q) == Get(root, q)
    ensures var parentPath := path[..|path| - 1];
      var last := path[|path| - 1];
      && Get(root, parentPath).Some?
      && Children(Get(root, parentPath).value, last.branch).Some?
      && var parent := Get(root, parentPath).value;
         var m := Children(parent, last.branch).value;
         var bp := BranchPatch(last.branch, m[newName := m[last.key]] - {last.key});
         && Edit(root, path, RenameTo(newName)) == UpdateAt(root, parentPath, bp)
         && Get(UpdateAt(root, parentPath, bp).value, parentPath) == Some(Merge(parent, bp))
  {
    var parentPath := path[..|path| - 1];
    var last := path[|path| - 1];
    var b := last.branch;
    assert path == parentPath + [last];
    GetPrefix(root, path, |path| - 1);
    var parent := Get(root, parentPath).value;
    GetSnoc(root, parentPath, last);
    var m := Children(parent, b).value;
    var updated := m[newName := m[last.key]] - {last.key};
    var bp := BranchPatch(b, updated);
    ChainIsUpdateAt(root, parentPath, bp);
    UpdateAtTarget(root, parentPath, bp);
    var r := Edit(root, path, RenameTo(newName));
    assert r == UpdateAt(root, parentPath, bp);
    MergeBranch(parent, b, updated);
    GetSnoc(r.value, parentPath, Step(b, newName));
    GetSnoc(r.value, parentPath, last);
    forall k | k != last.key && k != newName
      ensures Get(r.value, parentPath + [Step(b, k)]) == Get(root, parentPath + [Step(b, k)])
    {
      GetSnoc(r.value, parentPath, Step(b, k));
      GetSnoc(root, parentPath, Step(b, k));
    }
    forall q | Diverge(q, parentPath)
      ensures Get(r.value, q) == Get(root, q)
    {
      UpdateAtElsewhere(root, parentPath, bp, q);
    }
  }

  /** Deleting a nested property removes exactly that child; its siblings and every node off the parent's path stay. */
  lemma EditRemoveDrops(root: Node, path: Path)
    requires |path| >= 2 && path[0].branch == Obj && Get(root, path).Some?
    ensures var parentPath := path[..|path| - 1];
      var b := path[|path| - 1].branch;
      var r := Edit(root, path, Remove);
      && r.Some?
      && Get(r.value, path) == None
      && (forall k :: k != path[|path| - 1].key ==>
            Get(r.value, parentPath + [Step(b, k)]) == Get(root, parentPath + [Step(b, k)]))
      && forall q :: Diverge(q, parentPath) ==> Get(r.value, q) == Get(root, q)
    ensures var parentPath := path[..|path| - 1];
      var last := path[|path| - 1];
      && Get(root, parentPath).Some?
      && Children(Get(root, parentPath).value, last.branch).Some?
      && var parent := Get(root, parentPath).value;
         var bp := BranchPatch(last.branch, Children(parent, last.branch).value - {last.key});
         && Edit(root, path, Remove) == UpdateAt(root, parentPath, bp)
         && Get(UpdateAt(root, parentPath, bp).value, parentPath) == Some(Merge(parent, bp))
  {
    var parentPath := path[..|path| - 1];
    var last := path[|path| - 1];
    var b := last.branch;
    assert path == parentPath + [last];
    GetPrefix(root, path, |path| - 1);
    var parent := Get(root, parentPath).value;
    GetSnoc(root, parentPath, last);
    var m := Children(parent, b).value;
    var updated := m - {last.key};
    var bp := BranchPatch(b, updated);
    ChainIsUpdateAt(root, parentPath, bp);
    UpdateAtTarget(root, parentPath, bp);
    var r := Edit(root, path, Remove);
    assert r == UpdateAt(root, parentPath, bp);
    MergeBranch(parent, b, updated);
    GetSnoc(r.value, parentPath, last);
    forall k | k != last.key
      ensures Get(r.value, parentPath + [Step(b, k)]) == Get(root, parentPath + [Step(b, k)])
    {
      GetSnoc(r.value, parentPath, Step(b, k));
      GetSnoc(root, parentPath, Step(b, k));
    }
    forall q | Diverge(q, parentPath)
      ensures Get(r.value, q) == Get(root, q)
    {
      UpdateAtElsewhere(root, parentPath, bp, q);
    }
  }

  // ----- Expansion keys of nested properties -----

  function Separator(b: Branch): string {
    if b == Obj then ".obj." else ".arr."
  }

  /** The `itemPath` a nested property is rendered with: every top-level property gets 'root'. */
  function ExpansionKeyAsWritten(path: Path): string
    requires path != []
    decreases |path|
  {
    if |path| == 1 then "root"
    else ExpansionKeyAsWritten(path[..|path| - 1]) + Separator(path[|path| - 1].branch) + path[|path| - 1].key
  }

  /** Two different top-level properties share one key: expanding either one expands both. */
  lemma TopLevelExpansionKeysCollide(expanded: set<string>, a: string, b: string)
    ensures ExpansionKeyAsWritten([Step(Obj, a)]) == ExpansionKeyAsWritten([Step(Obj, b)])
    ensures (ExpansionKeyAsWritten([Step(Obj, b)]) in Toggle(expanded, ExpansionKeyAsWritten([Step(Obj, a)])))
         != (ExpansionKeyAsWritten([Step(Obj, b)]) in expanded)
  {
  }

  /** One key per property: a top-level property is keyed by its own name under 'root'. */
  function ExpansionKey(path: Path): string
    requires path != []
    decreases |path|
  {
    if |path| == 1 then "root." + path[0].key
    else ExpansionKey(path[..|path| - 1]) + Separator(path[|path| - 1].branch) + path[|path| - 1].key
  }

  /** Sibling properties with different names have different expansion keys. */
  lemma SiblingExpansionKeysDiffer(q: Path, b: Branch, x: string, y: string)
    requires x != y
    ensures ExpansionKey(q + [Step(b, x)]) != ExpansionKey(q + [Step(b, y)])
  {
    var px, py := q + [Step(b, x)], q + [Step(b, y)];
    var prefix := if q == [] then "root." else ExpansionKey(q) + Separator(b);
    if q != [] {
      assert px[..|px| - 1] == q && py[..|py| - 1] == q;
    }
    assert ExpansionKey(px) == prefix + x && ExpansionKey(py) == prefix + y;
    assert (prefix + x)[|prefix|..] == x && (prefix + y)[|prefix|..] == y;
  }

  /** With the per-property keys, expanding one sibling leaves every other sibling as it was. */
  lemma ToggleSiblingKeepsOthers(expanded: set<string>, q: Path, b: Branch, x: string, y: string)
    requires x != y
    ensures (ExpansionKey(q + [Step(b, y)]) in Toggle(expanded, ExpansionKey(q + [Step(b, x)])))
         == (ExpansionKey(q + [Step(b, y)]) in expanded)
  {
    SiblingExpansionKeysDiffer(q, b, x, y);
  }
}
