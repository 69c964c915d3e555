/**
 * The OpenAPI 3.0 document the project editor holds (`OpenAPISpec`) and the
 * project record around it (`OpenAPIProject`). `paths` maps a path to its
 * path item, which maps a lower-case method key to an operation.
 */
module OpenApi {
  import opened Wrappers

  datatype Info = Info(title: string, version: string, description: Option<string>)

  /** A response object: only its description is ever written. */
  datatype Response = Response(description: string)

  /**
   * An operation object. `summary` and `responses` are the fields the editor
   * writes; every other member an imported document may carry is kept, with
   * its JSON value as opaque text, in `extra`.
   */
  datatype Operation = Operation(summary: Option<string>, responses: Option<map<string, Response>>, extra: map<string, string>)

  /** The operation that spreading `undefined` produces: no members at all. */
  const EmptyOperation := Operation(None, None, map[])

  type PathItem = map<string, Operation>
  type Paths = map<string, PathItem>

  /** `components`, when present, holds the named schemas as opaque JSON text. */
  datatype OpenApiSpec = OpenApiSpec(openapi: string, info: Info, paths: Paths, components: Option<map<string, string>>)

  /** A project: its name, version, document and millisecond timestamps. */
  datatype Project = Project(name: string, version: string, spec: OpenApiSpec, createdAt: nat, updatedAt: nat)

  /** The operation stored under `(path, verb)`, if any. */
  function Lookup(paths: Paths, path: string, verb: string): Option<Operation> {
    if path in paths && verb in paths[path] then Some(paths[path][verb]) else None
  }

  /** No path is kept without at least one method. */
  ghost predicate NoEmptyPaths(paths: Paths) {
    forall p :: p in paths ==> paths[p] != map[]
  }

  /** Two documents with the same path keys and the same operations everywhere are equal. */
  lemma PathsExtensionality(a: Paths, b: Paths)
    requires a.Keys == b.Keys
    requires forall p, m :: Lookup(a, p, m) == Lookup(b, p, m)
    ensures a == b
  {
    forall p | p in a
      ensures a[p] == b[p]
    {
      forall m | m in a[p]
        ensures m in b[p] && a[p][m] == b[p][m]
      {
        assert Lookup(a, p, m) == Lookup(b, p, m);
      }
      forall m | m in b[p]
        ensures m in a[p]
      {
        assert Lookup(a, p, m) == Lookup(b, p, m);
      }
    }
  }

  /** Under `NoEmptyPaths`, a path is a key exactly when some operation is stored under it. */
  lemma PathKeyIffOperation(paths: Paths, path: string)
    requires NoEmptyPaths(paths)
    ensures path in paths <==> exists m :: Lookup(paths, path, m).Some?
  {
    if path in paths {
      var m :| m in paths[path];
      assert Lookup(paths, path, m).Some?;
    }
  }
}
