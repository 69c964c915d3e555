/**
 * The operation edit modal: a path and method form that relocates the
 * operation it was opened on, and can delete it.
 */
module ApiEditModal {
  import opened Strings
  import opened PathRules

  class EditModal {
    var initialPath: string
    var initialVerb: string
    var path: string
    var verb: string

    /** Mounting: the form starts from the given path and the upper-cased method. */
    constructor (initialPath: string, initialVerb: string)
      ensures this.initialPath == initialPath && this.initialVerb == initialVerb
      ensures path == initialPath && verb == ToUpper(initialVerb)
    {
      this.initialPath := initialPath;
      this.initialVerb := initialVerb;
      path := initialPath;
      verb := ToUpper(initialVerb);
    }

    /** New props: the form is re-synced only when the initial path or method changed. */
    method ReceiveProps(newInitialPath: string, newInitialVerb: string)
      modifies this
      ensures initialPath == newInitialPath && initialVerb == newInitialVerb
      ensures newInitialPath != old(initialPath) || newInitialVerb != old(initialVerb) ==>
        path == newInitialPath && verb == ToUpper(newInitialVerb)
      ensures newInitialPath == old(initialPath) && newInitialVerb == old(initialVerb) ==>
        path == old(path) && verb == old(verb)
    {
      var changed := newInitialPath != initialPath || newInitialVerb != initialVerb;
      initialPath := newInitialPath;
      initialVerb := newInitialVerb;
      if changed {
        path := newInitialPath;
        verb := ToUpper(newInitialVerb);
      }
    }

    /** Typing into the path input. */
    method SetPath(text: string)
      modifies this
      ensures path == text && verb == old(verb)
      ensures initialPath == old(initialPath) && initialVerb == old(initialVerb)
    {
      path := text;
    }

    /** Choosing a method in the select. */
    method SetVerb(choice: string)
      modifies this
      ensures verb == choice && path == old(path)
      ensures initialPath == old(initialPath) && initialVerb == old(initialVerb)
    {
      verb := choice;
    }

    /**
     * `handleSubmit`: a rejected path alerts; an accepted one asks for the move
     * from the initial identity (first) to the typed path and lower-cased
     * method (second). The form is never reset.
     */
    method HandleSubmit() returns (d: Dispatch)
      ensures CheckPath(path).Rejected? ==> d == Alert(CheckPath(path).message)
      ensures CheckPath(path).Accepted? ==> d == Update(initialPath, initialVerb, path, ToLower(verb))
    {
      var check := CheckPath(path);
      if check.Rejected? {
        return Alert(check.message);
      }
      d := Update(initialPath, initialVerb, path, ToLower(verb));
    }

    /** `handleDelete`: the initial identity is deleted only when confirmed. */
    method HandleDelete(confirmed: bool) returns (d: Dispatch)
      ensures d == if confirmed then Delete(initialPath, initialVerb) else NoCall
    {
      d := if confirmed then Delete(initialPath, initialVerb) else NoCall;
    }
  }
}
