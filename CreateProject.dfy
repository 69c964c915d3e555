/**
 * The new-project form: a name, a version and a description, turned into a
 * project with an empty OpenAPI 3.0.0 document.
 */
module CreateProject {
  import opened Wrappers
  import opened Strings
  import opened OpenApi
  import App

  const NameMissing := "Inserisci un nome per il progetto"

  /** The outcome of submitting the form: an alert, or the callback with the name and the document. */
  datatype Submission = Rejected(message: string) | Created(name: string, spec: OpenApiSpec)

  /**
   * The document a new project starts with: OpenAPI 3.0.0, titled after the
   * project, with the entered version, the description only when non-empty,
   * and no paths.
   */
  function BuildSpec(name: string, version: string, description: string): (r: OpenApiSpec)
    ensures r.openapi == "3.0.0" && r.info.title == name && r.info.version == version
    ensures r.info.description.None? <==> description == ""
    ensures r.info.description.Some? ==> r.info.description.value == description
    ensures r.paths == map[] && r.components.None?
  {
    OpenApiSpec("3.0.0", Info(name, version, if description == "" then None else Some(description)), map[], None)
  }

  /** A created project carries the version entered in the form and starts without operations. */
  lemma CreatedProjectVersion(name: string, version: string, description: string, now: nat)
    ensures var p := App.NewProject(name, BuildSpec(name, version, description), now);
      p.version == version && p.name == p.spec.info.title && p.spec.paths == map[] && NoEmptyPaths(p.spec.paths)
  {
  }

  class ProjectForm {
    var projectName: string
    var version: string
    var description: string

    /** The state a fresh form has, and the one a successful submit returns to. */
    predicate Initial()
      reads this
    {
      projectName == "" && version == "1.0.0" && description == ""
    }

    constructor ()
      ensures Initial()
    {
      projectName := "";
      version := "1.0.0";
      description := "";
    }

    /** Typing into the three inputs. */
    method SetFields(name: string, newVersion: string, newDescription: string)
      modifies this
      ensures projectName == name && version == newVersion && description == newDescription
    {
      projectName := name;
      version := newVersion;
      description := newDescription;
    }

    /**
     * `handleSubmit`: a blank name alerts and changes nothing; otherwise the
     * untrimmed name and the built document are passed on and the form
     * returns to its initial state.
     */
    method HandleSubmit() returns (s: Submission)
      modifies this
      ensures IsBlank(old(projectName)) ==>
        s == Rejected(NameMissing)
        && projectName == old(projectName) && version == old(version) && description == old(description)
      ensures !IsBlank(old(projectName)) ==>
        s == Created(old(projectName), BuildSpec(old(projectName), old(version), old(description))) && Initial()
    {
      if IsBlank(projectName) {
        return Rejected(NameMissing);
      }
      var newSpec := BuildSpec(projectName, version, description);
      s := Created(projectName, newSpec);
      projectName := "";
      version := "1.0.0";
      description := "";
    }
  }

  /** Submitting a name made of white space only alerts and creates nothing. */
  method SubmitWhitespaceName(name: string) returns (s: Submission)
    requires AllWhitespace(name)
    ensures s == Rejected(NameMissing)
  {
    var form := new ProjectForm();
    form.SetFields(name, "1.0.0", "");
    BlankIffAllWhitespace(name);
    s := form.HandleSubmit();
  }
}
