/** The tracked surface of a document, and compatibility in both directions. */
module OpenApiSurface {
  import opened Wrappers
  import opened StringOrder
  import opened OpenApiDocument
  import opened OpenApiDiff
  import opened OpenApiCompatibility

  datatype ParameterSurface = ParameterSurface(required: bool, location: Option<string>, fingerprint: Fingerprint)

  datatype BodySurface = BodySurface(required: bool, media: set<string>)

  datatype OperationSurface = OperationSurface(
    operationId: Option<string>,
    parameters: map<string, ParameterSurface>,
    body: Option<BodySurface>,
    responses: map<string, map<string, Fingerprint>>,
    security: set<set<string>>)

  datatype PropertySurface = PropertySurface(required: bool, fingerprint: Fingerprint)

  datatype SchemaSurface = SchemaSurface(fingerprint: Fingerprint, properties: map<string, PropertySurface>)

  datatype Surface = Surface(
    servers: set<string>,
    paths: map<string, map<Method, OperationSurface>>,
    schemas: map<string, SchemaSurface>,
    components: map<Section, set<string>>)

  function ParametersSurface(ps: map<string, Parameter>): map<string, ParameterSurface> {
    map k | k in ps :: ParameterSurface(ps[k].required, ps[k].location, TypeOf(ParamSchema(ps[k])))
  }

  function BodySurfaceOf(b: Option<RequestBody>): Option<BodySurface> {
    if b.Some? then Some(BodySurface(b.value.required, b.value.content.Keys)) else None
  }

  function MediaSurface(ms: map<string, MediaType>): map<string, Fingerprint> {
    map m | m in ms :: MediaFingerprint(ms[m])
  }

  function ResponsesSurface(rs: map<string, Response>): map<string, map<string, Fingerprint>> {
    map c | c in rs :: MediaSurface(rs[c].content)
  }

  function OperationSurfaceOf(op: Operation): OperationSurface {
    OperationSurface(OperationId(op), ParametersSurface(Params(op)), BodySurfaceOf(op.requestBody),
                     ResponsesSurface(op.responses), SecurityOf(op))
  }

  function PathSurface(item: PathItem): map<Method, OperationSurface> {
    map m | m in item :: OperationSurfaceOf(item[m])
  }

  function SchemaSurfaceOf(o: ObjectSchema): SchemaSurface {
    SchemaSurface(TypeOf(o),
                  map q | q in PropertiesOf(o) :: PropertySurface(q in RequiredOf(o), TypeOf(PropertiesOf(o)[q])))
  }

  function SurfaceOf(d: Document): Surface {
    Surface(ServersOf(d),
            map p | p in d.paths :: PathSurface(d.paths[p]),
            map n | n in d.schemas :: SchemaSurfaceOf(d.schemas[n]),
            map s | s in COMPONENT_SECTIONS :: Names(d, s))
  }

  // Items and enum values are compared only where both documents declare them.

  ghost predicate DeclaredAlike(b: ObjectSchema, h: ObjectSchema) {
    && ItemsAgree(b, h)
    && (b.enum.Some? && h.enum.Some? ==> forall v :: v in b.enum.value <==> v in h.enum.value)
  }

  ghost predicate ParametersDeclaredAlike(b: map<string, Parameter>, h: map<string, Parameter>) {
    forall k :: k in b && k in h ==> DeclaredAlike(ParamSchema(b[k]), ParamSchema(h[k]))
  }

  ghost predicate PathDeclaredAlike(b: PathItem, h: PathItem) {
    forall m :: m in b && m in h ==> ParametersDeclaredAlike(Params(b[m]), Params(h[m]))
  }

  ghost predicate SchemaDeclaredAlike(b: ObjectSchema, h: ObjectSchema) {
    forall q :: q in PropertiesOf(b) && q in PropertiesOf(h) ==> DeclaredAlike(PropertiesOf(b)[q], PropertiesOf(h)[q])
  }

  ghost predicate AllDeclaredAlike(b: Document, h: Document) {
    && (forall p :: p in b.paths && p in h.paths ==> PathDeclaredAlike(b.paths[p], h.paths[p]))
    && (forall n :: n in b.schemas && n in h.schemas ==> SchemaDeclaredAlike(b.schemas[n], h.schemas[n]))
  }

  // ---- both directions, level by level ----

  lemma BothTyping(b: ObjectSchema, h: ObjectSchema)
    ensures (TypingKept(b, h) && TypingKept(h, b)) <==> (TypeOf(b) == TypeOf(h) && DeclaredAlike(b, h))
  {
  }

  lemma BothParameters(b: map<string, Parameter>, h: map<string, Parameter>)
    ensures (ParametersKept(b, h) && ParametersKept(h, b))
       <==> (ParametersSurface(b) == ParametersSurface(h) && ParametersDeclaredAlike(b, h))
  {
    hide TypingKept, DeclaredAlike;
    forall k | k in b && k in h
      ensures (ParameterKept(b[k], h[k]) && ParameterKept(h[k], b[k]))
         <==> (ParametersSurface(b)[k] == ParametersSurface(h)[k] && DeclaredAlike(ParamSchema(b[k]), ParamSchema(h[k])))
    {
      BothTyping(ParamSchema(b[k]), ParamSchema(h[k]));
    }
    assert ParametersSurface(b).Keys == b.Keys && ParametersSurface(h).Keys == h.Keys;
  }

  lemma BothBodies(b: Option<RequestBody>, h: Option<RequestBody>)
    ensures (BodyKept(b, h) && BodyKept(h, b)) <==> BodySurfaceOf(b) == BodySurfaceOf(h)
  {
    if BodyKept(b, h) && BodyKept(h, b) && b.Some? {
      assert b.value.content.Keys == h.value.content.Keys;
    }
  }

  lemma BothMedia(b: map<string, MediaType>, h: map<string, MediaType>)
    ensures (MediaKept(b, h) && MediaKept(h, b)) <==> MediaSurface(b) == MediaSurface(h)
  {
    assert MediaSurface(b).Keys == b.Keys && MediaSurface(h).Keys == h.Keys;
    if MediaSurface(b) == MediaSurface(h) {
      forall m | m in b ensures m in h && MediaFingerprint(b[m]) == MediaFingerprint(h[m]) {
        assert m in MediaSurface(h) && MediaSurface(b)[m] == MediaSurface(h)[m];
      }
    }
  }

  lemma BothResponses(b: map<string, Response>, h: map<string, Response>)
    ensures (ResponsesKept(b, h) && ResponsesKept(h, b)) <==> ResponsesSurface(b) == ResponsesSurface(h)
  {
    hide MediaKept, MediaSurface;
    var x, y := ResponsesSurface(b), ResponsesSurface(h);
    assert x.Keys == b.Keys && y.Keys == h.Keys;
    forall c | c in b && c in h
      ensures (MediaKept(b[c].content, h[c].content) && MediaKept(h[c].content, b[c].content)) <==> x[c] == y[c]
    {
      BothMedia(b[c].content, h[c].content);
    }
    if x == y {
      assert forall c :: c in b ==> c in x && c in y && x[c] == y[c];
    }
  }

  lemma BothOperations(b: Operation, h: Operation)
    ensures (OperationKept(b, h) && OperationKept(h, b))
       <==> (OperationSurfaceOf(b) == OperationSurfaceOf(h) && ParametersDeclaredAlike(Params(b), Params(h)))
  {
    hide ParametersKept, ParametersSurface, ParametersDeclaredAlike, BodyKept, BodySurfaceOf,
         ResponsesKept, ResponsesSurface;
    BothParameters(Params(b), Params(h));
    BothBodies(b.requestBody, h.requestBody);
    BothResponses(b.responses, h.responses);
  }

  lemma BothPathItems(b: PathItem, h: PathItem)
    ensures (PathKept(b, h) && PathKept(h, b)) <==> (PathSurface(b) == PathSurface(h) && PathDeclaredAlike(b, h))
  {
    hide OperationKept, OperationSurfaceOf, ParametersDeclaredAlike;
    var x, y := PathSurface(b), PathSurface(h);
    assert x.Keys == b.Keys && y.Keys == h.Keys;
    forall m | m in b && m in h
      ensures (OperationKept(b[m], h[m]) && OperationKept(h[m], b[m]))
         <==> (x[m] == y[m] && ParametersDeclaredAlike(Params(b[m]), Params(h[m])))
    {
      BothOperations(b[m], h[m]);
    }
    if x == y {
      assert forall m :: m in b ==> m in x && m in y && x[m] == y[m];
    }
  }

  lemma BothSchemas(b: ObjectSchema, h: ObjectSchema)
    ensures (SchemaKept(b, h) && SchemaKept(h, b))
       <==> (SchemaSurfaceOf(b) == SchemaSurfaceOf(h) && SchemaDeclaredAlike(b, h))
  {
    hide TypingKept, DeclaredAlike, TypeOf, RequiredOf, PropertiesOf;
    var x, y := SchemaSurfaceOf(b).properties, SchemaSurfaceOf(h).properties;
    var bs, hs := PropertiesOf(b), PropertiesOf(h);
    assert x.Keys == bs.Keys && y.Keys == hs.Keys;
    forall q | q in bs && q in hs
      ensures (TypingKept(bs[q], hs[q]) && TypingKept(hs[q], bs[q]))
         <==> (TypeOf(bs[q]) == TypeOf(hs[q]) && DeclaredAlike(bs[q], hs[q]))
    {
      BothTyping(bs[q], hs[q]);
    }
    if x == y {
      assert forall q :: q in bs ==> q in x && q in y && x[q] == y[q];
    }
  }

  lemma BothPaths(b: Document, h: Document)
    ensures (PathsKept(b.paths, h.paths) && PathsKept(h.paths, b.paths))
       <==> (SurfaceOf(b).paths == SurfaceOf(h).paths
             && forall p :: p in b.paths && p in h.paths ==> PathDeclaredAlike(b.paths[p], h.paths[p]))
  {
    hide PathKept, PathSurface, PathDeclaredAlike;
    var x, y := SurfaceOf(b).paths, SurfaceOf(h).paths;
    assert x.Keys == b.paths.Keys && y.Keys == h.paths.Keys;
    forall p | p in b.paths && p in h.paths
      ensures (PathKept(b.paths[p], h.paths[p]) && PathKept(h.paths[p], b.paths[p]))
         <==> (x[p] == y[p] && PathDeclaredAlike(b.paths[p], h.paths[p]))
    {
      BothPathItems(b.paths[p], h.paths[p]);
    }
    if x == y {
      assert forall p :: p in b.paths ==> p in x && p in y && x[p] == y[p];
    }
  }

  lemma BothSchemaMaps(b: Document, h: Document)
    ensures (SchemasKept(b.schemas, h.schemas) && SchemasKept(h.schemas, b.schemas))
       <==> (SurfaceOf(b).schemas == SurfaceOf(h).schemas
             && forall n :: n in b.schemas && n in h.schemas ==> SchemaDeclaredAlike(b.schemas[n], h.schemas[n]))
  {
    hide SchemaKept, SchemaSurfaceOf, SchemaDeclaredAlike;
    var x, y := SurfaceOf(b).schemas, SurfaceOf(h).schemas;
    assert x.Keys == b.schemas.Keys && y.Keys == h.schemas.Keys;
    forall n | n in b.schemas && n in h.schemas
      ensures (SchemaKept(b.schemas[n], h.schemas[n]) && SchemaKept(h.schemas[n], b.schemas[n]))
         <==> (x[n] == y[n] && SchemaDeclaredAlike(b.schemas[n], h.schemas[n]))
    {
      BothSchemas(b.schemas[n], h.schemas[n]);
    }
    if x == y {
      assert forall n :: n in b.schemas ==> n in x && n in y && x[n] == y[n];
    }
  }

  lemma BothComponents(b: Document, h: Document)
    ensures (ComponentsKept(b, h) && ComponentsKept(h, b)) <==> SurfaceOf(b).components == SurfaceOf(h).components
  {
    var x, y := SurfaceOf(b).components, SurfaceOf(h).components;
    if x == y {
      forall s ensures Names(b, s) == Names(h, s) {
        AllSectionsListed(s);
        assert x[s] == y[s];
      }
    }
    if ComponentsKept(b, h) && ComponentsKept(h, b) {
      assert forall s :: Names(b, s) == Names(h, s);
    }
  }

  /** Neither direction breaks exactly when the tracked surfaces are equal and
      no item type or enum list declared on both sides differs. */
  lemma MutuallyCompatibleIffSameSurface(b: Document, h: Document)
    ensures (Compatible(b, h) && Compatible(h, b)) <==> (SurfaceOf(b) == SurfaceOf(h) && AllDeclaredAlike(b, h))
  {
    hide Compatible, PathsKept, SchemasKept, ComponentsKept, PathDeclaredAlike, SchemaDeclaredAlike;
    CompatibleIffKept(b, h);
    CompatibleIffKept(h, b);
    BothPaths(b, h);
    BothSchemaMaps(b, h);
    BothComponents(b, h);
  }

  // ---- a document against itself ----

  lemma {:induction false} CollectNothing<K>(keys: seq<K>, f: K --> seq<Finding>)
    requires forall k :: k in keys ==> f.requires(k) && f(k) == []
    ensures Collect(keys, f) == []
  {
    if keys != [] { CollectNothing(keys[..|keys| - 1], f); }
  }

  lemma NoKeyChanges(subject: Subject, scope: Scope, keys: set<string>, mandatory: set<string>)
    ensures KeyChanges(subject, scope, keys, keys, mandatory) == []
  {
    assert keys - keys == {};
  }

  lemma NoEnumChanges(at: Location, o: ObjectSchema)
    ensures EnumFindings(at, o, o) == []
  {
  }

  lemma NoParameterChanges(path: string, verb: Method, ps: map<string, Parameter>)
    ensures ParameterListFindings(path, verb, ps, ps) == []
  {
    hide KeyChanges, EnumFindings;
    var f := ParameterFindingsAt(path, verb, ps, ps);
    NoKeyChanges(ParameterEntry, ParametersOf(path, verb), ps.Keys, MandatoryParams(ps));
    forall k | k in ps ensures f(k) == [] {
      NoEnumChanges(Member(ParametersOf(path, verb), ParameterKey(ps[k])), ParamSchema(ps[k]));
    }
    CollectNothing(Sorted(ps.Keys * ps.Keys), f);
  }

  lemma NoResponseChanges(path: string, verb: Method, rs: map<string, Response>)
    ensures ResponsesFindings(path, verb, rs, rs) == []
  {
    hide KeyChanges;
    var f := ResponseFindingsAt(path, verb, rs, rs);
    NoKeyChanges(ResponseCode, ResponsesOf(path, verb), rs.Keys, {});
    forall c | c in rs ensures f(c) == [] {
      var ms := rs[c].content;
      NoKeyChanges(ResponseMediaKey, ResponseMediaOf(path, verb, c), ms.Keys, {});
      CollectNothing(Sorted(ms.Keys * ms.Keys), MediaFindingsAt(path, verb, c, ms, ms));
    }
    CollectNothing(Sorted(rs.Keys * rs.Keys), f);
  }

  lemma NoOperationChanges(path: string, verb: Method, op: Operation)
    ensures OperationFindings(path, verb, op, op) == []
  {
    hide ParameterListFindings, ResponsesFindings, KeyChanges;
    NoParameterChanges(path, verb, Params(op));
    NoResponseChanges(path, verb, op.responses);
    if op.requestBody.Some? {
      NoKeyChanges(BodyMedia, RequestMediaOf(path, verb), op.requestBody.value.content.Keys, {});
    }
  }

  lemma NoPathChanges(path: string, item: PathItem)
    ensures PathFindings(path, item, item) == []
  {
    hide OperationFindings;
    forall m | m in item ensures CommonMethodAt(path, item, item)(m) == [] {
      NoOperationChanges(path, m, item[m]);
    }
    CollectNothing(HTTP_METHODS, RemovedMethodAt(path, item, item));
    CollectNothing(HTTP_METHODS, AddedMethodAt(path, item, item));
    CollectNothing(HTTP_METHODS, CommonMethodAt(path, item, item));
  }

  lemma NoSchemaChanges(name: string, o: ObjectSchema)
    ensures SchemaFindings(name, o, o) == []
  {
    hide KeyChanges, EnumFindings;
    var f, props := PropertyFindingsAt(name, o, o), PropertiesOf(o);
    NoKeyChanges(PropertyEntry, PropertiesIn(name), props.Keys, RequiredOf(o));
    forall q | q in props ensures f(q) == [] {
      NoEnumChanges(Member(PropertiesIn(name), q), props[q]);
    }
    CollectNothing(Sorted(props.Keys * props.Keys), f);
  }

  /** Comparing a document with itself reports nothing at all. */
  lemma DiffWithItself(d: Document)
    ensures DiffFindings(d, d) == []
  {
    hide KeyChanges, PathFindings, SchemaFindings;
    NoKeyChanges(ServerUrl, AllServers, ServersOf(d), {});
    NoKeyChanges(PathKey, AllPaths, d.paths.Keys, {});
    NoKeyChanges(SchemaName, AllSchemas, d.schemas.Keys, {});
    forall p | p in d.paths ensures PathFindingsAt(d.paths, d.paths)(p) == [] {
      NoPathChanges(p, d.paths[p]);
    }
    CollectNothing(Sorted(d.paths.Keys * d.paths.Keys), PathFindingsAt(d.paths, d.paths));
    forall n | n in d.schemas ensures SchemaFindingsAt(d.schemas, d.schemas)(n) == [] {
      NoSchemaChanges(n, d.schemas[n]);
    }
    CollectNothing(Sorted(d.schemas.Keys * d.schemas.Keys), SchemaFindingsAt(d.schemas, d.schemas));
    forall s ensures ComponentFindingsAt(d, d)(s) == [] {
      NoKeyChanges(Component, ComponentsIn(s), Names(d, s), {});
    }
    CollectNothing(COMPONENT_SECTIONS, ComponentFindingsAt(d, d));
  }
}
