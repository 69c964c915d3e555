/**
 * The collapsible new-API form: hidden behind a button, it creates an
 * operation from a path and a method and then collapses, empty again.
 */
module ApiForm {
  import opened Strings
  import opened PathRules

  class NewApiForm {
    var path: string
    var verb: string
    var showForm: bool

    /** The state a fresh form has, and the one submit and cancel return to. */
    predicate Cleared()
      reads this
    {
      path == "" && verb == "GET" && !showForm
    }

    constructor ()
      ensures Cleared()
    {
      path := "";
      verb := "GET";
      showForm := false;
    }

    /** The "new API" button. */
    method Open()
      modifies this
      ensures showForm && path == old(path) && verb == old(verb)
    {
      showForm := true;
    }

    /** Typing into the path input. */
    method SetPath(text: string)
      modifies this
      ensures path == text && verb == old(verb) && showForm == old(showForm)
    {
      path := text;
    }

    /** Choosing a method in the select. */
    method SetVerb(choice: string)
      modifies this
      ensures verb == choice && path == old(path) && showForm == old(showForm)
    {
      verb := choice;
    }

    /**
     * `handleSubmit`: a rejected path alerts and leaves the form as it was;
     * an accepted one is passed on with the lower-cased method and the form
     * is cleared and hidden.
     */
    method HandleSubmit() returns (d: Dispatch)
      modifies this
      ensures CheckPath(old(path)).Rejected? ==>
        d == Alert(CheckPath(old(path)).message)
        && path == old(path) && verb == old(verb) && showForm == old(showForm)
      ensures CheckPath(old(path)).Accepted? ==> d == Save(old(path), ToLower(old(verb))) && Cleared()
    {
      var check := CheckPath(path);
      if check.Rejected? {
        return Alert(check.message);
      }
      d := Save(path, ToLower(verb));
      path, verb, showForm := "", "GET", false;
    }

    /** "Cancel": the same reset as a successful submit, with no callback. */
    method Cancel()
      modifies this
      ensures Cleared()
    {
      showForm := false;
      path := "";
      verb := "GET";
    }
  }
}
