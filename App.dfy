/**
 * The project editor's top-level state: the list of open projects, the
 * current project, which sidebar is open and which operation it edits. The
 * operation maps of the current document are edited by adding an operation,
 * relocating one to a new path and method, and deleting one; a path whose last
 * method goes is removed.
 */
module App {
  import opened Wrappers
  import opened Strings
  import opened OpenApi

  /** The summary written for an operation: the upper-cased method, a space, the path. */
  function Summary(verb: string, path: string): string {
    ToUpper(verb) + " " + path
  }

  /** The operation `handleAddApi` creates: its summary and a single `200` response. */
  function StubOperation(verb: string, path: string): Operation {
    Operation(Some(Summary(verb, path)), Some(map["200" := Response("Successful response")]), map[])
  }

  /** Stores `op` under `(path, verb)`, creating the path item when the path is new. */
  function Place(paths: Paths, path: string, verb: string, op: Operation): (r: Paths)
    ensures forall p, m :: Lookup(r, p, m) == if p == path && m == verb then Some(op) else Lookup(paths, p, m)
    ensures r.Keys == paths.Keys + {path}
    ensures NoEmptyPaths(paths) ==> NoEmptyPaths(r)
  {
    var item := (if path in paths then paths[path] else map[])[verb := op];
    assert verb in item;
    paths[path := item]
  }

  /**
   * `handleAddApi` on the document: the stub operation is stored under
   * `(path, verb)`, replacing one already there; every other operation and
   * path is kept.
   */
  function AddApi(paths: Paths, path: string, verb: string): (r: Paths)
    ensures forall p, m :: Lookup(r, p, m) == if p == path && m == verb then Some(StubOperation(verb, path)) else Lookup(paths, p, m)
    ensures r.Keys == paths.Keys + {path}
    ensures NoEmptyPaths(paths) ==> NoEmptyPaths(r)
  {
    Place(paths, path, verb, StubOperation(verb, path))
  }

  /** Adding the same operation twice leaves the document as adding it once. */
  lemma AddApiIdempotent(paths: Paths, path: string, verb: string)
    ensures AddApi(AddApi(paths, path, verb), path, verb) == AddApi(paths, path, verb)
  {
    PathsExtensionality(AddApi(AddApi(paths, path, verb), path, verb), AddApi(paths, path, verb));
  }

  /**
   * The operation a relocation writes: the old one (or no members at all when
   * there was none) with its summary recomputed from the new method and path.
   */
  function Relocated(source: Option<Operation>, verb: string, path: string): (r: Operation)
    ensures r.summary == Some(Summary(verb, path))
    ensures r.responses == (if source.Some? then source.value.responses else None)
    ensures r.extra == (if source.Some? then source.value.extra else map[])
  {
    source.GetOr(EmptyOperation).(summary := Some(Summary(verb, path)))
  }

  /** Whether removing `verb` leaves the path item of `path` without methods. */
  predicate LastMethod(paths: Paths, path: string, verb: string)
    requires path in paths
  {
    paths[path].Keys <= {verb}
  }

  /** `Object.keys(item).length === 0` after the removal is `LastMethod`. */
  lemma EmptyAfterRemoval(item: PathItem, verb: string)
    ensures item - {verb} == map[] <==> item.Keys <= {verb}
  {
    if item.Keys <= {verb} {
      assert (item - {verb}).Keys == {};
    } else {
      var m :| m in item && m != verb;
      assert m in item - {verb};
    }
  }

  /**
   * `newPaths` is `paths` without the operation at `(path, verb)`: every other
   * operation is kept, and the path itself is dropped exactly when no method
   * remains under it.
   */
  ghost predicate Deletion(paths: Paths, newPaths: Paths, path: string, verb: string)
    requires path in paths
  {
    && (forall p, m :: Lookup(newPaths, p, m) == if p == path && m == verb then None else Lookup(paths, p, m))
    && newPaths.Keys == if LastMethod(paths, path, verb) then paths.Keys - {path} else paths.Keys
  }

  /**
   * `newPaths` is `paths` with the operation at `(oldPath, oldVerb)` moved to
   * `(newPath, newVerb)` and re-summarised; the old path is dropped when its
   * last method left it, and the new path is created when it is new.
   */
  ghost predicate Relocation(paths: Paths, newPaths: Paths, oldPath: string, oldVerb: string, newPath: string, newVerb: string)
    requires oldPath in paths
  {
    && (forall p, m :: Lookup(newPaths, p, m) ==
          if p == newPath && m == newVerb then Some(Relocated(Lookup(paths, oldPath, oldVerb), newVerb, newPath))
          else if p == oldPath && m == oldVerb then None
          else Lookup(paths, p, m))
    && newPaths.Keys == (if LastMethod(paths, oldPath, oldVerb) then paths.Keys - {oldPath} else paths.Keys) + {newPath}
  }

  /**
   * `handleDeleteApi` on the document: removes the method from the copied map
   * and prunes the path when it empties. The path must be present: the source
   * dereferences it unguarded.
   */
  method DeleteApi(paths: Paths, path: string, verb: string) returns (newPaths: Paths)
    requires path in paths
    ensures Deletion(paths, newPaths, path, verb)
    ensures forall p :: p in paths && p != path ==> p in newPaths && newPaths[p] == paths[p]
    ensures NoEmptyPaths(paths) ==> NoEmptyPaths(newPaths)
  {
    newPaths := paths;
    newPaths := newPaths[path := newPaths[path] - {verb}];
    EmptyAfterRemoval(paths[path], verb);
    if newPaths[path] == map[] {
      newPaths := newPaths - {path};
    }
    forall p, m
      ensures Lookup(newPaths, p, m) == if p == path && m == verb then None else Lookup(paths, p, m)
    {
    }
  }

  /**
   * `handleEditApi` on the document: takes the old operation, deletes it,
   * prunes the old path when it empties, creates the new path when absent and
   * writes the carried-over operation there. The old path must be present; a
   * missing old method carries over an operation with no members.
   */
  method EditApi(paths: Paths, oldPath: string, oldVerb: string, newPath: string, newVerb: string)
    returns (newPaths: Paths)
    requires oldPath in paths
    ensures Relocation(paths, newPaths, oldPath, oldVerb, newPath, newVerb)
  {
    newPaths := paths;
    var apiData := if oldVerb in newPaths[oldPath] then Some(newPaths[oldPath][oldVerb]) else None;
    assert apiData == Lookup(paths, oldPath, oldVerb);
    newPaths := newPaths[oldPath := newPaths[oldPath] - {oldVerb}];
    EmptyAfterRemoval(paths[oldPath], oldVerb);
    if newPaths[oldPath] == map[] {
      newPaths := newPaths - {oldPath};
    }
    ghost var removed := newPaths;
    assert forall p, m :: Lookup(removed, p, m) == if p == oldPath && m == oldVerb then None else Lookup(paths, p, m);
    if newPath !in newPaths {
      newPaths := newPaths[newPath := map[]];
    }
    newPaths := newPaths[newPath := newPaths[newPath][newVerb := Relocated(apiData, newVerb, newPath)]];
    assert newPaths == Place(removed, newPath, newVerb, Relocated(apiData, newVerb, newPath));
  }

  /** A relocation is the deletion of the old operation followed by placing the re-summarised one. */
  lemma RelocationIsDeletionThenPlace(paths: Paths, middle: Paths, newPaths: Paths,
                                      oldPath: string, oldVerb: string, newPath: string, newVerb: string)
    requires oldPath in paths
    requires Deletion(paths, middle, oldPath, oldVerb)
    requires Relocation(paths, newPaths, oldPath, oldVerb, newPath, newVerb)
    ensures newPaths == Place(middle, newPath, newVerb, Relocated(Lookup(paths, oldPath, oldVerb), newVerb, newPath))
  {
    var placed := Place(middle, newPath, newVerb, Relocated(Lookup(paths, oldPath, oldVerb), newVerb, newPath));
    PathsExtensionality(newPaths, placed);
  }

  /** Relocating keeps every path non-empty when it was so before. */
  lemma RelocationKeepsNoEmptyPaths(paths: Paths, newPaths: Paths,
                                    oldPath: string, oldVerb: string, newPath: string, newVerb: string)
    requires oldPath in paths && NoEmptyPaths(paths)
    requires Relocation(paths, newPaths, oldPath, oldVerb, newPath, newVerb)
    ensures NoEmptyPaths(newPaths)
  {
    forall p | p in newPaths
      ensures newPaths[p] != map[]
    {
      if p == newPath {
        assert Lookup(newPaths, newPath, newVerb).Some?;
      } else if p == oldPath {
        assert !LastMethod(paths, oldPath, oldVerb);
        var m :| m in paths[oldPath] && m != oldVerb;
        assert Lookup(newPaths, p, m) == Lookup(paths, p, m);
      } else {
        var m :| m in paths[p];
        assert Lookup(newPaths, p, m) == Lookup(paths, p, m);
      }
    }
  }

  /**
   * Relocating an operation onto its own path and method only refreshes its
   * summary: no path is added or dropped.
   */
  lemma RelocationInPlace(paths: Paths, newPaths: Paths, path: string, verb: string)
    requires path in paths && verb in paths[path]
    requires Relocation(paths, newPaths, path, verb, path, verb)
    ensures newPaths == paths[path := paths[path][verb := paths[path][verb].(summary := Some(Summary(verb, path)))]]
  {
    PathsExtensionality(newPaths, paths[path := paths[path][verb := paths[path][verb].(summary := Some(Summary(verb, path)))]]);
  }

  /** `handleCreateProject` and `handleImportProject`: the project's version is its document's. */
  function NewProject(name: string, spec: OpenApiSpec, now: nat): (r: Project)
    ensures r.name == name && r.spec == spec && r.version == spec.info.version
    ensures r.createdAt == now && r.updatedAt == now
  {
    Project(name, spec.info.version, spec, now, now)
  }

  /** The current project with its document's paths replaced and its update time set. */
  function WithPaths(project: Project, paths: Paths, now: nat): Project {
    project.(spec := project.spec.(paths := paths), updatedAt := now)
  }

  /** `projects.map(p => p.name === name ? updated : p)`. */
  function ReplaceByName(projects: seq<Project>, name: string, updated: Project): (r: seq<Project>)
    ensures |r| == |projects|
    ensures forall i :: 0 <= i < |r| ==> r[i] == if projects[i].name == name then updated else projects[i]
  {
    if projects == [] then []
    else [if projects[0].name == name then updated else projects[0]] + ReplaceByName(projects[1..], name, updated)
  }

  /** Replacing by a name nobody has changes nothing. */
  lemma {:induction false} ReplaceByUnknownName(projects: seq<Project>, name: string, updated: Project)
    requires forall i :: 0 <= i < |projects| ==> projects[i].name != name
    ensures ReplaceByName(projects, name, updated) == projects
  {
    if projects != [] {
      ReplaceByUnknownName(projects[1..], name, updated);
    }
  }

  /** The file-name stem: white-space runs become '-', then everything is lower-cased. */
  function Slug(name: string): (r: string)
    ensures NoWhitespace(r) && |r| <= |name|
  {
    HyphenateShape(name);
    LowerKeepsNoWhitespace(HyphenateWhitespace(name));
    ToLower(HyphenateWhitespace(name))
  }

  /** The file name `handleSaveProject` downloads the current document under. */
  function ExportFileName(name: string): (r: string)
    ensures |r| >= |"-openapi.json"| && r[|r| - |"-openapi.json"|..] == "-openapi.json"
    ensures r[..|r| - |"-openapi.json"|] == Slug(name)
  {
    Slug(name) + "-openapi.json"
  }

  /**
   * Each maximal white-space run of the name becomes a single '-' of the
   * stem, and the words on either side are slugged on their own.
   */
  lemma SlugRun(u: string, w: string, v: string)
    requires u == [] || !IsWhitespace(u[|u| - 1])
    requires w != [] && AllWhitespace(w)
    requires v == [] || !IsWhitespace(v[0])
    ensures Slug(u + w + v) == Slug(u) + "-" + Slug(v)
  {
    var hu, hv := HyphenateWhitespace(u), HyphenateWhitespace(v);
    HyphenateRun(u, w, v);
    LowerConcat(hu + "-", hv);
    LowerConcat(hu, "-");
    LowerOfHyphen();
  }

  /** The stem has no white space and no upper-case ASCII letter, and is no longer than the name. */
  lemma SlugShape(name: string)
    ensures NoWhitespace(Slug(name))
    ensures forall i :: 0 <= i < |Slug(name)| ==> !('A' <= Slug(name)[i] <= 'Z')
    ensures |Slug(name)| <= |name|
  {
    HyphenateShape(name);
    LowerKeepsNoWhitespace(HyphenateWhitespace(name));
  }

  /** Saving a project named after its own stem gives the same file name. */
  lemma SlugIdempotent(name: string)
    ensures Slug(Slug(name)) == Slug(name)
  {
    HyphenateShape(name);
    LowerKeepsNoWhitespace(HyphenateWhitespace(name));
    HyphenateShape(ToLower(HyphenateWhitespace(name)));
    LowerIdempotent(HyphenateWhitespace(name));
  }

  /** A name without white space is only lower-cased. */
  lemma SlugOfSingleWord(name: string)
    requires NoWhitespace(name)
    ensures Slug(name) == ToLower(name)
  {
    HyphenateShape(name);
  }

  datatype SidebarMode = CreateMode | EditMode

  /** The operation the edit sidebar was opened on, by its stored keys. */
  datatype ApiRef = ApiRef(path: string, verb: string)

  class AppState {
    var projects: seq<Project>
    var currentProject: Option<Project>
    var sidebarMode: Option<SidebarMode>
    var editingApi: Option<ApiRef>

    constructor ()
      ensures projects == [] && currentProject == None && sidebarMode == None && editingApi == None
    {
      projects := [];
      currentProject := None;
      sidebarMode := None;
      editingApi := None;
    }

    /** `handleCreateProject` / `handleImportProject`: appends the new project and makes it current. */
    method AddProject(name: string, spec: OpenApiSpec, now: nat)
      modifies this
      ensures projects == old(projects) + [NewProject(name, spec, now)]
      ensures currentProject == Some(NewProject(name, spec, now))
      ensures sidebarMode == old(sidebarMode) && editingApi == old(editingApi)
    {
      var newProject := NewProject(name, spec, now);
      projects := projects + [newProject];
      currentProject := Some(newProject);
    }

    /** The "new project" button: back to the landing page; the project list is kept. */
    method CloseProject()
      modifies this
      ensures currentProject == None
      ensures projects == old(projects) && sidebarMode == old(sidebarMode) && editingApi == old(editingApi)
    {
      currentProject := None;
    }

    /** The "new API" button: the sidebar opens in create mode on no operation. */
    method OpenCreateSidebar()
      modifies this
      ensures sidebarMode == Some(CreateMode) && editingApi == None
      ensures projects == old(projects) && currentProject == old(currentProject)
    {
      sidebarMode := Some(CreateMode);
      editingApi := None;
    }

    /** A click on a listed operation: the sidebar opens in edit mode on its stored keys. */
    method SelectApi(path: string, verb: string)
      modifies this
      ensures sidebarMode == Some(EditMode) && editingApi == Some(ApiRef(path, verb))
      ensures projects == old(projects) && currentProject == old(currentProject)
    {
      editingApi := Some(ApiRef(path, verb));
      sidebarMode := Some(EditMode);
    }

    /** Closing the sidebar forgets the edited operation. */
    method CloseSidebar()
      modifies this
      ensures sidebarMode == None && editingApi == None
      ensures projects == old(projects) && currentProject == old(currentProject)
    {
      sidebarMode := None;
      editingApi := None;
    }

    /** `editingApi?.path || ''`: the path the sidebar starts from. */
    function SidebarInitialPath(): (r: string)
      reads this
      ensures editingApi.None? ==> r == []
      ensures editingApi.Some? ==> r == editingApi.value.path
    {
      if editingApi.Some? && editingApi.value.path != [] then editingApi.value.path else ""
    }

    /** `editingApi?.method || 'GET'`: never empty; the stored key when there is a non-empty one. */
    function SidebarInitialVerb(): (r: string)
      reads this
      ensures r != []
      ensures editingApi.Some? && editingApi.value.verb != [] ==> r == editingApi.value.verb
      ensures editingApi.None? || editingApi.value.verb == [] ==> r == "GET"
    {
      if editingApi.Some? && editingApi.value.verb != [] then editingApi.value.verb else "GET"
    }

    /** `handleSaveProject`: nothing without a current project, else the download's file name. */
    function SaveFileName(): (r: Option<string>)
      reads this
      ensures r.Some? <==> currentProject.Some?
      ensures r.Some? ==> r.value == ExportFileName(currentProject.value.name)
    {
      if currentProject.Some? then Some(ExportFileName(currentProject.value.name)) else None
    }

    /**
     * `handleAddApi`: without a current project nothing changes; otherwise the
     * current project gets the added operation, every project with its name is
     * replaced by it, and the sidebar closes.
     */
    method HandleAddApi(path: string, verb: string, now: nat)
      modifies this
      ensures old(currentProject).None? ==>
        projects == old(projects) && currentProject == None
        && sidebarMode == old(sidebarMode) && editingApi == old(editingApi)
      ensures old(currentProject).Some? ==>
        var updated := WithPaths(old(currentProject).value, AddApi(old(currentProject).value.spec.paths, path, verb), now);
        && currentProject == Some(updated)
        && projects == ReplaceByName(old(projects), old(currentProject).value.name, updated)
        && sidebarMode == None && editingApi == old(editingApi)
    {
      if currentProject.None? {
        return;
      }
      var current := currentProject.value;
      var updated := WithPaths(current, AddApi(current.spec.paths, path, verb), now);
      currentProject := Some(updated);
      projects := ReplaceByName(projects, current.name, updated);
      sidebarMode := None;
    }

    /**
     * `handleEditApi`: without a current project nothing changes; otherwise the
     * current project's document is relocated as `Relocation` states, the
     * project list follows by name, and the sidebar closes on no operation.
     */
    method HandleEditApi(oldPath: string, oldVerb: string, newPath: string, newVerb: string, now: nat)
      requires currentProject.Some? ==> oldPath in currentProject.value.spec.paths
      modifies this
      ensures old(currentProject).None? ==>
        projects == old(projects) && currentProject == None
        && sidebarMode == old(sidebarMode) && editingApi == old(editingApi)
      ensures old(currentProject).Some? ==>
        && currentProject.Some?
        && currentProject.value == WithPaths(old(currentProject).value, currentProject.value.spec.paths, now)
        && Relocation(old(currentProject).value.spec.paths, currentProject.value.spec.paths, oldPath, oldVerb, newPath, newVerb)
        && projects == ReplaceByName(old(projects), old(currentProject).value.name, currentProject.value)
        && sidebarMode == None && editingApi == None
    {
      if currentProject.None? {
        return;
      }
      var current := currentProject.value;
      var newPaths := EditApi(current.spec.paths, oldPath, oldVerb, newPath, newVerb);
      var updated := WithPaths(current, newPaths, now);
      currentProject := Some(updated);
      projects := ReplaceByName(projects, current.name, updated);
      editingApi := None;
      sidebarMode := None;
    }

    /**
     * `handleDeleteApi`: without a current project nothing changes; otherwise
     * the operation is deleted as `Deletion` states, the project list follows
     * by name, and the sidebar closes on no operation.
     */
    method HandleDeleteApi(path: string, verb: string, now: nat)
      requires currentProject.Some? ==> path in currentProject.value.spec.paths
      modifies this
      ensures old(currentProject).None? ==>
        projects == old(projects) && currentProject == None
        && sidebarMode == old(sidebarMode) && editingApi == old(editingApi)
      ensures old(currentProject).Some? ==>
        && currentProject.Some?
        && currentProject.value == WithPaths(old(currentProject).value, currentProject.value.spec.paths, now)
        && Deletion(old(currentProject).value.spec.paths, currentProject.value.spec.paths, path, verb)
        && projects == ReplaceByName(old(projects), old(currentProject).value.name, currentProject.value)
        && sidebarMode == None && editingApi == None
    {
      if currentProject.None? {
        return;
      }
      var current := currentProject.value;
      var newPaths := DeleteApi(current.spec.paths, path, verb);
      var updated := WithPaths(current, newPaths, now);
      currentProject := Some(updated);
      projects := ReplaceByName(projects, current.name, updated);
      editingApi := None;
      sidebarMode := None;
    }
  }
}
