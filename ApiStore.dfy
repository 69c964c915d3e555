/**
 * The API-specification store: one document (`ApiSpec`) whose endpoints are
 * grouped in per-path lists and whose models and security schemes are keyed
 * by name, the selected endpoint and model ids, and the unsaved-changes flag.
 * Every action copies the document, edits the copy and installs it.
 */
module ApiStore {
  import opened Wrappers
  import opened Strings

  datatype SchemaType = StringType | NumberType | IntegerType | BooleanType | ObjectType | ArrayType

  /** A schema; the store stores and replaces schemas but never looks inside one. */
  datatype Schema = Schema(
    id: string,
    name: string,
    kind: SchemaType,
    description: Option<string>,
    required: Option<bool>,
    default: Option<string>,
    format: Option<string>,
    properties: Option<map<string, Schema>>,
    requiredFields: Option<seq<string>>,
    items: Option<Schema>,
    ref: Option<string>)

  datatype Model = Model(id: string, name: string, schema: Schema, createdAt: nat, updatedAt: nat)

  datatype ParameterLocation = InQuery | InPath

  datatype Parameter = Parameter(id: string, name: string, location: ParameterLocation,
                                 description: Option<string>, required: bool, schema: Schema)

  datatype BodyContentType = Json | FormUrlEncoded | Multipart | Xml

  datatype RequestBody = RequestBody(description: Option<string>, required: bool, contentType: BodyContentType, schema: Schema)

  datatype ResponseContentType = JsonResponse | XmlResponse | PlainText

  datatype Response = Response(id: string, statusCode: int, description: string,
                               contentType: ResponseContentType, schema: Option<Schema>)

  datatype SchemeType = Http | ApiKey | OAuth2 | OpenId

  datatype SecurityScheme = SecurityScheme(id: string, name: string, kind: SchemeType,
                                           scheme: Option<string>, bearerFormat: Option<string>)

  datatype HttpMethod = GET | POST | PUT | DELETE | PATCH | HEAD | OPTIONS {
    /** The method as written in the document. */
    function Name(): string {
      match this
      case GET => "GET"
      case POST => "POST"
      case PUT => "PUT"
      case DELETE => "DELETE"
      case PATCH => "PATCH"
      case HEAD => "HEAD"
      case OPTIONS => "OPTIONS"
    }
  }

  datatype Endpoint = Endpoint(
    id: string,
    path: string,
    verb: HttpMethod,
    summary: string,
    description: Option<string>,
    security: Option<seq<SecurityScheme>>,
    parameters: seq<Parameter>,
    requestBody: Option<RequestBody>,
    responses: seq<Response>,
    createdAt: nat,
    updatedAt: nat)

  datatype Info = Info(title: string, version: string, description: Option<string>)

  datatype Server = Server(url: string, description: Option<string>)

  datatype ApiSpec = ApiSpec(
    info: Info,
    servers: Option<seq<Server>>,
    paths: map<string, seq<Endpoint>>,
    models: map<string, Model>,
    securitySchemes: map<string, SecurityScheme>)

  /** The document a new store starts with and `resetSpec` restores. */
  const DefaultSpec := ApiSpec(
    Info("My API", "1.0.0", Some("API created with StopCriStudio")),
    Some([Server("https://api.example.com", Some("Production server"))]),
    map[], map[], map[])

  /**
   * A `Partial<Endpoint>`: `None` is a member the update object does not
   * have; every present member overwrites the endpoint's, `id` and `path`
   * included.
   */
  datatype EndpointUpdate = EndpointUpdate(
    id: Option<string>,
    path: Option<string>,
    verb: Option<HttpMethod>,
    summary: Option<string>,
    description: Option<string>,
    security: Option<seq<SecurityScheme>>,
    parameters: Option<seq<Parameter>>,
    requestBody: Option<RequestBody>,
    responses: Option<seq<Response>>,
    createdAt: Option<nat>,
    updatedAt: Option<nat>)

  /** A `Partial<SecurityScheme>`, read like `EndpointUpdate`. */
  datatype SchemeUpdate = SchemeUpdate(
    id: Option<string>,
    name: Option<string>,
    kind: Option<SchemeType>,
    scheme: Option<string>,
    bearerFormat: Option<string>)

  /** `Object.assign(endpoint, updates, { updatedAt: now })`: the update time always wins. */
  function AssignEndpoint(e: Endpoint, u: EndpointUpdate, now: nat): (r: Endpoint)
    ensures r.updatedAt == now
    ensures r.id == u.id.GetOr(e.id) && r.path == u.path.GetOr(e.path) && r.verb == u.verb.GetOr(e.verb)
    ensures r.summary == u.summary.GetOr(e.summary)
    ensures r.description == if u.description.Some? then u.description else e.description
    ensures r.security == if u.security.Some? then u.security else e.security
    ensures r.parameters == u.parameters.GetOr(e.parameters)
    ensures r.requestBody == if u.requestBody.Some? then u.requestBody else e.requestBody
    ensures r.responses == u.responses.GetOr(e.responses)
    ensures r.createdAt == u.createdAt.GetOr(e.createdAt)
    ensures u == EndpointUpdate(None, None, None, None, None, None, None, None, None, None, None) ==> r == e.(updatedAt := now)
  {
    Endpoint(
      u.id.GetOr(e.id),
      u.path.GetOr(e.path),
      u.verb.GetOr(e.verb),
      u.summary.GetOr(e.summary),
      if u.description.Some? then u.description else e.description,
      if u.security.Some? then u.security else e.security,
      u.parameters.GetOr(e.parameters),
      if u.requestBody.Some? then u.requestBody else e.requestBody,
      u.responses.GetOr(e.responses),
      u.createdAt.GetOr(e.createdAt),
      now)
  }

  /** `Object.assign(scheme, updates)`. */
  function AssignScheme(s: SecurityScheme, u: SchemeUpdate): (r: SecurityScheme)
    ensures u == SchemeUpdate(None, None, None, None, None) ==> r == s
    ensures r.id == u.id.GetOr(s.id) && r.name == u.name.GetOr(s.name)
    ensures r.kind == u.kind.GetOr(s.kind)
    ensures r.scheme == if u.scheme.Some? then u.scheme else s.scheme
    ensures r.bearerFormat == if u.bearerFormat.Some? then u.bearerFormat else s.bearerFormat
  {
    SecurityScheme(
      u.id.GetOr(s.id),
      u.name.GetOr(s.name),
      u.kind.GetOr(s.kind),
      if u.scheme.Some? then u.scheme else s.scheme,
      if u.bearerFormat.Some? then u.bearerFormat else s.bearerFormat)
  }

  /** `Array.prototype.find`/`findIndex` by id: the first position holding that id, if any. */
  function FindById(endpoints: seq<Endpoint>, id: string): (r: Option<nat>)
    ensures r.Some? ==> r.value < |endpoints| && endpoints[r.value].id == id
    ensures r.Some? ==> forall j :: 0 <= j < r.value ==> endpoints[j].id != id
    ensures r.None? <==> forall j :: 0 <= j < |endpoints| ==> endpoints[j].id != id
    decreases |endpoints|
  {
    if endpoints == [] then None
    else if endpoints[0].id == id then Some(0)
    else
      match FindById(endpoints[1..], id)
      case None => None
      case Some(i) => Some(i + 1)
  }

  /** The endpoint `addEndpoint` creates: id `<method>-<path>-<now>`, empty summary, lists and description. */
  function NewEndpoint(path: string, verb: HttpMethod, now: nat): (r: Endpoint)
    ensures r.path == path && r.verb == verb && r.parameters == [] && r.responses == []
    ensures r.id == ToLower(verb.Name()) + "-" + path + "-" + DecimalString(now)
    ensures r.summary == "" && r.description == Some("") && r.security.None? && r.requestBody.None?
    ensures r.createdAt == now && r.updatedAt == now
  {
    Endpoint(ToLower(verb.Name()) + "-" + path + "-" + DecimalString(now), path, verb,
             "", Some(""), None, [], None, [], now, now)
  }

  /** The endpoints listed under `path`, none when the path is absent. */
  function Bucket(paths: map<string, seq<Endpoint>>, path: string): seq<Endpoint> {
    if path in paths then paths[path] else []
  }

  /** No path is kept with an empty list. */
  ghost predicate NoEmptyBuckets(paths: map<string, seq<Endpoint>>) {
    forall p :: p in paths ==> paths[p] != []
  }

  /** Every endpoint id occurs once in the whole document. */
  ghost predicate UniqueIds(paths: map<string, seq<Endpoint>>) {
    forall p, i, q, j ::
      p in paths && q in paths && 0 <= i < |paths[p]| && 0 <= j < |paths[q]| && paths[p][i].id == paths[q][j].id
      ==> p == q && i == j
  }

  /** Some path lists an endpoint with this id. */
  ghost predicate HasEndpoint(paths: map<string, seq<Endpoint>>, id: string) {
    exists p, i :: p in paths && 0 <= i < |paths[p]| && paths[p][i].id == id
  }

  /** The first endpoint with `id` in the list of `path` has `update` assigned; nothing else moves. */
  function UpdateInBucket(paths: map<string, seq<Endpoint>>, path: string, id: string, update: EndpointUpdate, now: nat)
    : (r: map<string, seq<Endpoint>>)
    requires path in paths && FindById(paths[path], id).Some?
    ensures r.Keys == paths.Keys
    ensures forall p :: p in paths && p != path ==> r[p] == paths[p]
    ensures var i := FindById(paths[path], id).value;
      && |r[path]| == |paths[path]|
      && r[path][i] == AssignEndpoint(paths[path][i], update, now)
      && forall k :: 0 <= k < |paths[path]| && k != i ==> r[path][k] == paths[path][k]
    ensures NoEmptyBuckets(paths) ==> NoEmptyBuckets(r)
  {
    var i := FindById(paths[path], id).value;
    paths[path := paths[path][i := AssignEndpoint(paths[path][i], update, now)]]
  }

  /** The first endpoint with `id` is spliced out of the list of `path`; an emptied list loses its path. */
  function DeleteInBucket(paths: map<string, seq<Endpoint>>, path: string, id: string): (r: map<string, seq<Endpoint>>)
    requires path in paths && FindById(paths[path], id).Some?
    ensures var i := FindById(paths[path], id).value;
      && (path in r <==> |paths[path]| > 1)
      && (path in r ==> r[path] == paths[path][..i] + paths[path][i + 1..])
    ensures forall p :: p in paths && p != path ==> p in r && r[p] == paths[p]
    ensures r.Keys <= paths.Keys
    ensures NoEmptyBuckets(paths) ==> NoEmptyBuckets(r)
  {
    var i := FindById(paths[path], id).value;
    var rest := paths[path][..i] + paths[path][i + 1..];
    if |rest| == 0 then paths - {path} else paths[path := rest]
  }

  /** Appends `e` to the list of `path`, creating the list when the path is new. */
  function AppendEndpoint(paths: map<string, seq<Endpoint>>, path: string, e: Endpoint): (r: map<string, seq<Endpoint>>)
    ensures r.Keys == paths.Keys + {path}
    ensures r[path] == Bucket(paths, path) + [e]
    ensures forall p :: p in paths && p != path ==> r[p] == paths[p]
    ensures NoEmptyBuckets(paths) ==> NoEmptyBuckets(r)
  {
    paths[path := Bucket(paths, path) + [e]]
  }

  /**
   * An update keeps the endpoint in the list it was found in: with a new
   * `path` member, the endpoint records a path other than its list's.
   */
  lemma UpdateKeepsBucket(paths: map<string, seq<Endpoint>>, path: string, id: string, update: EndpointUpdate, now: nat)
    requires path in paths && FindById(paths[path], id).Some?
    requires update.path.Some? && update.path.value != path
    ensures var r := UpdateInBucket(paths, path, id, update, now);
      var i := FindById(paths[path], id).value;
      path in r && r[path][i].path == update.path.value && update.path.value != path
  {
  }

  /** With unique ids, deleting the endpoint with `id` leaves no endpoint with that id anywhere. */
  lemma DeleteRemovesId(paths: map<string, seq<Endpoint>>, path: string, id: string)
    requires path in paths && FindById(paths[path], id).Some?
    requires UniqueIds(paths)
    ensures !HasEndpoint(DeleteInBucket(paths, path, id), id)
  {
  }

  /** With unique ids, deleting keeps the remaining ids unique. */
  lemma DeleteKeepsUniqueIds(paths: map<string, seq<Endpoint>>, path: string, id: string)
    requires path in paths && FindById(paths[path], id).Some?
    requires UniqueIds(paths)
    ensures UniqueIds(DeleteInBucket(paths, path, id))
  {
    var r: map<string, seq<Endpoint>> := DeleteInBucket(paths, path, id);
    var i := FindById(paths[path], id).value;
    forall p: string, k: int, q: string, l: int |
      p in r && q in r && 0 <= k < |r[p]| && 0 <= l < |r[q]| && r[p][k].id == r[q][l].id
      ensures p == q && k == l
    {
      var k' := if p == path && k >= i then k + 1 else k;
      var l' := if q == path && l >= i then l + 1 else l;
      assert r[p][k] == paths[p][k'];
      assert r[q][l] == paths[q][l'];
    }
  }

  /** The store: its document, the two selections and the unsaved-changes flag. */
  class Store {
    var spec: ApiSpec
    var selectedEndpointId: Option<string>
    var selectedModelId: Option<string>
    var hasUnsavedChanges: bool

    constructor ()
      ensures spec == DefaultSpec && selectedEndpointId == None && selectedModelId == None && !hasUnsavedChanges
    {
      spec := DefaultSpec;
      selectedEndpointId := None;
      selectedModelId := None;
      hasUnsavedChanges := false;
    }

    /** `setSpec`: installs the document and marks it unsaved; the selections stay. */
    method SetSpec(newSpec: ApiSpec)
      modifies this
      ensures spec == newSpec && hasUnsavedChanges
      ensures selectedEndpointId == old(selectedEndpointId) && selectedModelId == old(selectedModelId)
    {
      spec := newSpec;
      hasUnsavedChanges := true;
    }

    /** `resetSpec`: the default document, no selection, nothing unsaved. */
    method ResetSpec()
      modifies this
      ensures spec == DefaultSpec && selectedEndpointId == None && selectedModelId == None && !hasUnsavedChanges
    {
      spec := DefaultSpec;
      selectedEndpointId := None;
      selectedModelId := None;
      hasUnsavedChanges := false;
    }

    /** `addEndpoint`: the new endpoint goes last in its path's list, which is created when absent. */
    method AddEndpoint(path: string, verb: HttpMethod, now: nat)
      modifies this
      ensures spec == old(spec).(paths := AppendEndpoint(old(spec).paths, path, NewEndpoint(path, verb, now)))
      ensures hasUnsavedChanges
      ensures selectedEndpointId == old(selectedEndpointId) && selectedModelId == old(selectedModelId)
    {
      var newEndpoint := NewEndpoint(path, verb, now);
      var updated := spec;
      if path !in updated.paths {
        updated := updated.(paths := updated.paths[path := []]);
      }
      updated := updated.(paths := updated.paths[path := updated.paths[path] + [newEndpoint]]);
      spec := updated;
      hasUnsavedChanges := true;
    }

    /**
     * `updateEndpoint`: walks the paths until one lists the id and assigns the
     * update to its first such endpoint. The flag records whether one was found:
     * a miss leaves the document as it was and clears the flag.
     */
    method UpdateEndpoint(id: string, update: EndpointUpdate, now: nat)
      modifies this
      ensures hasUnsavedChanges <==> exists p :: p in old(spec).paths && FindById(old(spec).paths[p], id).Some?
      ensures !hasUnsavedChanges ==> spec == old(spec)
      ensures hasUnsavedChanges ==>
        exists p :: p in old(spec).paths && FindById(old(spec).paths[p], id).Some?
          && spec == old(spec).(paths := UpdateInBucket(old(spec).paths, p, id, update, now))
      ensures selectedEndpointId == old(selectedEndpointId) && selectedModelId == old(selectedModelId)
    {
      var updated := spec;
      var found := false;
      ghost var hit := "";
      var pending := updated.paths.Keys;
      while pending != {}
        invariant pending <= spec.paths.Keys && updated == spec && !found
        invariant forall p :: p in spec.paths && p !in pending ==> FindById(spec.paths[p], id).None?
        decreases pending
      {
        var path :| path in pending;
        var index := FindById(updated.paths[path], id);
        if index.Some? {
          updated := updated.(paths := updated.paths[path := updated.paths[path][index.value := AssignEndpoint(updated.paths[path][index.value], update, now)]]);
          found := true;
          hit := path;
          break;
        }
        pending := pending - {path};
      }
      assert found ==> updated == spec.(paths := UpdateInBucket(spec.paths, hit, id, update, now));
      spec := if found then updated else spec;
      hasUnsavedChanges := found;
    }

    /**
     * `deleteEndpoint`: walks the paths until one lists the id, splices out its
     * first such endpoint and drops the path when its list empties. A selected
     * endpoint with that id is deselected, found or not; a miss clears the flag.
     */
    method DeleteEndpoint(id: string)
      modifies this
      ensures hasUnsavedChanges <==> exists p :: p in old(spec).paths && FindById(old(spec).paths[p], id).Some?
      ensures !hasUnsavedChanges ==> spec == old(spec)
      ensures hasUnsavedChanges ==>
        exists p :: p in old(spec).paths && FindById(old(spec).paths[p], id).Some?
          && spec == old(spec).(paths := DeleteInBucket(old(spec).paths, p, id))
      ensures selectedEndpointId == if old(selectedEndpointId) == Some(id) then None else old(selectedEndpointId)
      ensures selectedModelId == old(selectedModelId)
    {
      var updated := spec;
      var found := false;
      ghost var hit := "";
      var pending := updated.paths.Keys;
      while pending != {}
        invariant pending <= spec.paths.Keys && updated == spec && !found
        invariant forall p :: p in spec.paths && p !in pending ==> FindById(spec.paths[p], id).None?
        decreases pending
      {
        var path :| path in pending;
        var index := FindById(updated.paths[path], id);
        if index.Some? {
          var i := index.value;
          updated := updated.(paths := updated.paths[path := updated.paths[path][..i] + updated.paths[path][i + 1..]]);
          if |updated.paths[path]| == 0 {
            updated := updated.(paths := updated.paths - {path});
          }
          found := true;
          hit := path;
          break;
        }
        pending := pending - {path};
      }
      assert found ==> updated == spec.(paths := DeleteInBucket(spec.paths, hit, id));
      spec := if found then updated else spec;
      selectedEndpointId := if selectedEndpointId == Some(id) then None else selectedEndpointId;
      hasUnsavedChanges := found;
    }

    /** `selectEndpoint`: only the endpoint selection changes. */
    method SelectEndpoint(id: Option<string>)
      modifies this
      ensures selectedEndpointId == id
      ensures spec == old(spec) && selectedModelId == old(selectedModelId) && hasUnsavedChanges == old(hasUnsavedChanges)
    {
      selectedEndpointId := id;
    }

    /** `addModel`: a new model with id `model-<name>-<now>` under its name, replacing any model of that name. */
    method AddModel(name: string, schema: Schema, now: nat)
      modifies this
      ensures spec == old(spec).(models := old(spec).models[name := Model("model-" + name + "-" + DecimalString(now), name, schema, now, now)])
      ensures hasUnsavedChanges
      ensures selectedEndpointId == old(selectedEndpointId) && selectedModelId == old(selectedModelId)
    {
      var newModel := Model("model-" + name + "-" + DecimalString(now), name, schema, now, now);
      var updated := spec;
      updated := updated.(models := updated.models[name := newModel]);
      spec := updated;
      hasUnsavedChanges := true;
    }

    /**
     * `updateModel`: walks the models until one has the id and replaces its
     * schema and update time; a miss leaves the document and clears the flag.
     */
    method UpdateModel(id: string, schema: Schema, now: nat)
      modifies this
      ensures hasUnsavedChanges <==> exists n :: n in old(spec).models && old(spec).models[n].id == id
      ensures !hasUnsavedChanges ==> spec == old(spec)
      ensures hasUnsavedChanges ==>
        exists n :: n in old(spec).models && old(spec).models[n].id == id
          && spec == old(spec).(models := old(spec).models[n := old(spec).models[n].(schema := schema, updatedAt := now)])
      ensures selectedEndpointId == old(selectedEndpointId) && selectedModelId == old(selectedModelId)
    {
      var updated := spec;
      var found := false;
      var pending := updated.models.Keys;
      while pending != {}
        invariant pending <= spec.models.Keys && updated == spec && !found
        invariant forall n :: n in spec.models && n !in pending ==> spec.models[n].id != id
        decreases pending
      {
        var name :| name in pending;
        if updated.models[name].id == id {
          updated := updated.(models := updated.models[name := updated.models[name].(schema := schema, updatedAt := now)]);
          found := true;
          break;
        }
        pending := pending - {name};
      }
      spec := if found then updated else spec;
      hasUnsavedChanges := found;
    }

    /**
     * `deleteModel`: walks the models until one has the id and removes it. A
     * selected model with that id is deselected, found or not.
     */
    method DeleteModel(id: string)
      modifies this
      ensures hasUnsavedChanges <==> exists n :: n in old(spec).models && old(spec).models[n].id == id
      ensures !hasUnsavedChanges ==> spec == old(spec)
      ensures hasUnsavedChanges ==>
        exists n :: n in old(spec).models && old(spec).models[n].id == id
          && spec == old(spec).(models := old(spec).models - {n})
      ensures selectedModelId == if old(selectedModelId) == Some(id) then None else old(selectedModelId)
      ensures selectedEndpointId == old(selectedEndpointId)
    {
      var updated := spec;
      var found := false;
      var pending := updated.models.Keys;
      while pending != {}
        invariant pending <= spec.models.Keys && updated == spec && !found
        invariant forall n :: n in spec.models && n !in pending ==> spec.models[n].id != id
        decreases pending
      {
        var name :| name in pending;
        if updated.models[name].id == id {
          updated := updated.(models := updated.models - {name});
          found := true;
          break;
        }
        pending := pending - {name};
      }
      spec := if found then updated else spec;
      selectedModelId := if selectedModelId == Some(id) then None else selectedModelId;
      hasUnsavedChanges := found;
    }

    /** `selectModel`: only the model selection changes. */
    method SelectModel(id: Option<string>)
      modifies this
      ensures selectedModelId == id
      ensures spec == old(spec) && selectedEndpointId == old(selectedEndpointId) && hasUnsavedChanges == old(hasUnsavedChanges)
    {
      selectedModelId := id;
    }

    /** `addSecurityScheme`: keyed by the scheme's own name, replacing any scheme of that name. */
    method AddSecurityScheme(scheme: SecurityScheme)
      modifies this
      ensures spec == old(spec).(securitySchemes := old(spec).securitySchemes[scheme.name := scheme])
      ensures hasUnsavedChanges
      ensures selectedEndpointId == old(selectedEndpointId) && selectedModelId == old(selectedModelId)
    {
      var updated := spec;
      updated := updated.(securitySchemes := updated.securitySchemes[scheme.name := scheme]);
      spec := updated;
      hasUnsavedChanges := true;
    }

    /**
     * `updateSecurityScheme`: walks the schemes until one has the id and
     * assigns the update to it, under its old key even when the name changes.
     */
    method UpdateSecurityScheme(id: string, update: SchemeUpdate)
      modifies this
      ensures hasUnsavedChanges <==> exists n :: n in old(spec).securitySchemes && old(spec).securitySchemes[n].id == id
      ensures !hasUnsavedChanges ==> spec == old(spec)
      ensures hasUnsavedChanges ==>
        exists n :: n in old(spec).securitySchemes && old(spec).securitySchemes[n].id == id
          && spec == old(spec).(securitySchemes := old(spec).securitySchemes[n := AssignScheme(old(spec).securitySchemes[n], update)])
      ensures selectedEndpointId == old(selectedEndpointId) && selectedModelId == old(selectedModelId)
    {
      var updated := spec;
      var found := false;
      var pending := updated.securitySchemes.Keys;
      while pending != {}
        invariant pending <= spec.securitySchemes.Keys && updated == spec && !found
        invariant forall n :: n in spec.securitySchemes && n !in pending ==> spec.securitySchemes[n].id != id
        decreases pending
      {
        var name :| name in pending;
        if updated.securitySchemes[name].id == id {
          updated := updated.(securitySchemes := updated.securitySchemes[name := AssignScheme(updated.securitySchemes[name], update)]);
          found := true;
          break;
        }
        pending := pending - {name};
      }
      spec := if found then updated else spec;
      hasUnsavedChanges := found;
    }

    /** `deleteSecurityScheme`: walks the schemes until one has the id and removes it. */
    method DeleteSecurityScheme(id: string)
      modifies this
      ensures hasUnsavedChanges <==> exists n :: n in old(spec).securitySchemes && old(spec).securitySchemes[n].id == id
      ensures !hasUnsavedChanges ==> spec == old(spec)
      ensures hasUnsavedChanges ==>
        exists n :: n in old(spec).securitySchemes && old(spec).securitySchemes[n].id == id
          && spec == old(spec).(securitySchemes := old(spec).securitySchemes - {n})
      ensures selectedEndpointId == old(selectedEndpointId) && selectedModelId == old(selectedModelId)
    {
      var updated := spec;
      var found := false;
      var pending := updated.securitySchemes.Keys;
      while pending != {}
        invariant pending <= spec.securitySchemes.Keys && updated == spec && !found
        invariant forall n :: n in spec.securitySchemes && n !in pending ==> spec.securitySchemes[n].id != id
        decreases pending
      {
        var name :| name in pending;
        if updated.securitySchemes[name].id == id {
          updated := updated.(securitySchemes := updated.securitySchemes - {name});
          found := true;
          break;
        }
        pending := pending - {name};
      }
      spec := if found then updated else spec;
      hasUnsavedChanges := found;
    }

    /** `markUnsavedChanges`: only the flag changes. */
    method MarkUnsavedChanges()
      modifies this
      ensures hasUnsavedChanges
      ensures spec == old(spec) && selectedEndpointId == old(selectedEndpointId) && selectedModelId == old(selectedModelId)
    {
      hasUnsavedChanges := true;
    }

    /** `markSavedChanges`: only the flag changes. */
    method MarkSavedChanges()
      modifies this
      ensures !hasUnsavedChanges
      ensures spec == old(spec) && selectedEndpointId == old(selectedEndpointId) && selectedModelId == old(selectedModelId)
    {
      hasUnsavedChanges := false;
    }
  }
}
