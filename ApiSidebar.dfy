/**
 * The operation sidebar: a path and method form that either creates an
 * operation or relocates the one it was opened on, and can delete that one.
 */
module ApiSidebar {
  import opened Strings
  import opened PathRules
  import opened App

  class Sidebar {
    var mode: SidebarMode
    var initialPath: string
    var initialVerb: string
    const hasOnUpdate: bool
    const hasOnDelete: bool
    var path: string
    var verb: string

    /** Mounting: the form starts from the given path and the upper-cased method. */
    constructor (mode: SidebarMode, initialPath: string, initialVerb: string, hasOnUpdate: bool, hasOnDelete: bool)
      ensures this.mode == mode && this.initialPath == initialPath && this.initialVerb == initialVerb
      ensures this.hasOnUpdate == hasOnUpdate && this.hasOnDelete == hasOnDelete
      ensures path == initialPath && verb == ToUpper(initialVerb)
    {
      this.mode := mode;
      this.initialPath := initialPath;
      this.initialVerb := initialVerb;
      this.hasOnUpdate := hasOnUpdate;
      this.hasOnDelete := hasOnDelete;
      path := initialPath;
      verb := ToUpper(initialVerb);
    }

    /**
     * New props from the parent. The form is re-synced to the new initial path
     * and upper-cased method only when one of those two changed; a change of
     * mode alone keeps what was typed.
     */
    method ReceiveProps(newMode: SidebarMode, newInitialPath: string, newInitialVerb: string)
      modifies this
      ensures mode == newMode && initialPath == newInitialPath && initialVerb == newInitialVerb
      ensures newInitialPath != old(initialPath) || newInitialVerb != old(initialVerb) ==>
        path == newInitialPath && verb == ToUpper(newInitialVerb)
      ensures newInitialPath == old(initialPath) && newInitialVerb == old(initialVerb) ==>
        path == old(path) && verb == old(verb)
    {
      var changed := newInitialPath != initialPath || newInitialVerb != initialVerb;
      mode := newMode;
      initialPath := newInitialPath;
      initialVerb := newInitialVerb;
      if changed {
        path := newInitialPath;
        verb := ToUpper(newInitialVerb);
      }
    }

    /** Typing into the path input. */
    method SetPath(text: string)
      modifies this
      ensures path == text && verb == old(verb)
      ensures mode == old(mode) && initialPath == old(initialPath) && initialVerb == old(initialVerb)
    {
      path := text;
    }

    /** Choosing a method in the select. */
    method SetVerb(choice: string)
      modifies this
      ensures verb == choice && path == old(path)
      ensures mode == old(mode) && initialPath == old(initialPath) && initialVerb == old(initialVerb)
    {
      verb := choice;
    }

    /**
     * `handleSubmit`: a rejected path alerts and changes nothing. An accepted
     * one, in create mode, saves the path with the lower-cased method and
     * resets the form to '' and 'GET'; in edit mode it asks for the move from
     * the initial identity to the typed one, or does nothing without `onUpdate`.
     */
    method HandleSubmit() returns (d: Dispatch)
      modifies this
      ensures mode == old(mode) && initialPath == old(initialPath) && initialVerb == old(initialVerb)
      ensures CheckPath(old(path)).Rejected? ==>
        d == Alert(CheckPath(old(path)).message) && path == old(path) && verb == old(verb)
      ensures CheckPath(old(path)).Accepted? && mode == CreateMode ==>
        d == Save(old(path), ToLower(old(verb))) && path == "" && verb == "GET"
      ensures CheckPath(old(path)).Accepted? && mode == EditMode ==>
        d == (if hasOnUpdate then Update(initialPath, initialVerb, old(path), ToLower(old(verb))) else NoCall)
        && path == old(path) && verb == old(verb)
    {
      var check := CheckPath(path);
      if check.Rejected? {
        return Alert(check.message);
      }
      if mode == CreateMode {
        d := Save(path, ToLower(verb));
        path := "";
        verb := "GET";
      } else if hasOnUpdate {
        d := Update(initialPath, initialVerb, path, ToLower(verb));
      } else {
        d := NoCall;
      }
    }

    /** `handleDelete`: the initial identity is deleted only when confirmed and `onDelete` is given. */
    method HandleDelete(confirmed: bool) returns (d: Dispatch)
      ensures d == if confirmed && hasOnDelete then Delete(initialPath, initialVerb) else NoCall
    {
      d := if confirmed && hasOnDelete then Delete(initialPath, initialVerb) else NoCall;
    }
  }

  /**
   * Opening the sidebar in edit mode on a stored operation and saving without
   * touching the form asks to move it onto the lower-cased method key: an
   * operation stored under a key with capitals is moved, not kept.
   */
  method SubmitUnchanged(initialPath: string, initialVerb: string) returns (d: Dispatch)
    requires |initialPath| > 0 && initialPath[0] == '/'
    ensures d == Update(initialPath, initialVerb, initialPath, ToLower(initialVerb))
  {
    var sidebar := new Sidebar(EditMode, initialPath, initialVerb, true, true);
    d := sidebar.HandleSubmit();
    LowerOfUpper(initialVerb);
  }
}
