/** "No breaking finding" as a relation on documents: what it asks of the head. */
module OpenApiCompatibility {
  import opened Wrappers
  import opened StringOrder
  import opened OpenApiDocument
  import opened OpenApiDiff

  ghost predicate Clean(fs: seq<Finding>) {
    forall f :: f in fs ==> f.severity != Breaking
  }

  /** The gate's question: does the diff report nothing breaking? */
  ghost predicate Compatible(b: Document, h: Document) {
    Clean(DiffFindings(b, h))
  }

  // ---- the same question, asked of the documents and not of the findings ----

  ghost predicate ItemsAgree(b: ObjectSchema, h: ObjectSchema) {
    HasItems(b) && HasItems(h) ==> TypeOf(SchemaItems(b)) == TypeOf(SchemaItems(h))
  }

  ghost predicate EnumsKept(b: ObjectSchema, h: ObjectSchema) {
    b.enum.Some? && h.enum.Some? ==> forall v :: v in b.enum.value ==> v in h.enum.value
  }

  ghost predicate TypingKept(b: ObjectSchema, h: ObjectSchema) {
    TypeOf(b) == TypeOf(h) && ItemsAgree(b, h) && EnumsKept(b, h)
  }

  ghost predicate ParameterKept(b: Parameter, h: Parameter) {
    && (h.required ==> b.required)
    && b.location == h.location
    && TypingKept(ParamSchema(b), ParamSchema(h))
  }

  ghost predicate ParametersKept(b: map<string, Parameter>, h: map<string, Parameter>) {
    && b.Keys <= h.Keys
    && (forall k :: k in h && k !in b ==> !h[k].required)
    && (forall k :: k in b && k in h ==> ParameterKept(b[k], h[k]))
  }

  ghost predicate BodyKept(b: Option<RequestBody>, h: Option<RequestBody>) {
    if b.None? then h.Some? ==> !h.value.required
    else h.Some? && (h.value.required ==> b.value.required) && b.value.content.Keys <= h.value.content.Keys
  }

  ghost predicate MediaKept(b: map<string, MediaType>, h: map<string, MediaType>) {
    forall m :: m in b ==> m in h && MediaFingerprint(b[m]) == MediaFingerprint(h[m])
  }

  ghost predicate ResponsesKept(b: map<string, Response>, h: map<string, Response>) {
    forall c :: c in b ==> c in h && MediaKept(b[c].content, h[c].content)
  }

  ghost predicate OperationIdKept(b: Option<string>, h: Option<string>) {
    b.Some? ==> h == b
  }

  ghost predicate SecurityKept(b: set<set<string>>, h: set<set<string>>) {
    h == {} || h == b
  }

  ghost predicate OperationKept(b: Operation, h: Operation) {
    && OperationIdKept(OperationId(b), OperationId(h))
    && ParametersKept(Params(b), Params(h))
    && BodyKept(b.requestBody, h.requestBody)
    && ResponsesKept(b.responses, h.responses)
    && SecurityKept(SecurityOf(b), SecurityOf(h))
  }

  ghost predicate PathKept(b: PathItem, h: PathItem) {
    forall m :: m in b ==> m in h && OperationKept(b[m], h[m])
  }

  ghost predicate PathsKept(b: map<string, PathItem>, h: map<string, PathItem>) {
    forall p :: p in b ==> p in h && PathKept(b[p], h[p])
  }

  ghost predicate SchemaKept(b: ObjectSchema, h: ObjectSchema) {
    var bs, hs := PropertiesOf(b), PropertiesOf(h);
    && TypeOf(b) == TypeOf(h)
    && bs.Keys <= hs.Keys
    && (forall q :: q in hs && q in RequiredOf(h) ==> q in bs && q in RequiredOf(b))
    && (forall q :: q in bs && q in hs ==> TypingKept(bs[q], hs[q]))
  }

  ghost predicate SchemasKept(b: map<string, ObjectSchema>, h: map<string, ObjectSchema>) {
    forall n :: n in b ==> n in h && SchemaKept(b[n], h[n])
  }

  ghost predicate ComponentsKept(b: Document, h: Document) {
    forall s :: Names(b, s) <= Names(h, s)
  }

  ghost predicate DocumentKept(b: Document, h: Document) {
    && ServersOf(b) <= ServersOf(h)
    && PathsKept(b.paths, h.paths)
    && SchemasKept(b.schemas, h.schemas)
    && ComponentsKept(b, h)
  }

  // ---- the two questions have the same answer ----

  lemma CleanAppend(x: seq<Finding>, y: seq<Finding>)
    ensures Clean(x + y) <==> Clean(x) && Clean(y)
  {
    if Clean(x + y) {
      forall f | f in x || f in y ensures f.severity != Breaking {
        assert f in x + y;
      }
    }
  }

  lemma {:induction false} CleanCollect<K>(keys: seq<K>, f: K --> seq<Finding>)
    requires forall k :: k in keys ==> f.requires(k)
    ensures Clean(Collect(keys, f)) <==> forall k :: k in keys ==> Clean(f(k))
  {
    if keys != [] {
      var init, last := keys[..|keys| - 1], keys[|keys| - 1];
      CleanCollect(init, f);
      CleanAppend(Collect(init, f), f(last));
      assert forall k :: k in keys <==> k in init || k == last;
    }
  }

  lemma CleanOver(keys: set<string>, f: string --> seq<Finding>)
    requires forall k :: k in keys ==> f.requires(k)
    ensures Clean(Collect(Sorted(keys), f)) <==> forall k :: k in keys ==> Clean(f(k))
  {
    CleanCollect(Sorted(keys), f);
  }

  lemma CleanKeyChanges(subject: Subject, scope: Scope, b: set<string>, h: set<string>, mandatory: set<string>)
    ensures Clean(KeyChanges(subject, scope, b, h, mandatory))
       <==> b <= h && forall k :: k in h && k in mandatory ==> k in b
  {
    hide Clean, Collect, Sorted;
    var r, a := RemovedAt(subject, scope), AddedAt(subject, scope, mandatory);
    CleanAppend(Collect(Sorted(b - h), r), Collect(Sorted(h - b), a));
    CleanOver(b - h, r);
    CleanOver(h - b, a);
    assert forall k :: k in b && k !in h ==> k in b - h;
    assert forall k :: k in h && k !in b ==> k in h - b;
    forall k ensures !Clean(r(k)) && (Clean(a(k)) <==> k !in mandatory) {
      CleanAt(subject, scope, mandatory, k);
    }
  }

  lemma CleanAt(subject: Subject, scope: Scope, mandatory: set<string>, k: string)
    ensures !Clean(RemovedAt(subject, scope)(k))
    ensures Clean(AddedAt(subject, scope, mandatory)(k)) <==> k !in mandatory
  {
    CleanSingle(Finding(Removed(subject), Member(scope, k), Plain, Breaking));
    CleanSingle(Finding(Added(subject), Member(scope, k), Plain, if k in mandatory then Breaking else Additive));
  }

  lemma CleanSingle(f: Finding)
    ensures Clean([f]) <==> f.severity != Breaking
  {
    assert f in [f];
  }

  lemma CleanNothing()
    ensures Clean([])
  {
  }

  lemma CleanWhen(c: bool, f: Finding)
    ensures Clean(When(c, f)) <==> !c || f.severity != Breaking
  {
    CleanSingle(f);
  }

  lemma CleanTyping(ts: Subject, items: Subject, at: Location, b: ObjectSchema, h: ObjectSchema)
    ensures (Clean(TypeFindings(ts, at, TypeOf(b), TypeOf(h))) && Clean(ItemFindings(items, at, b, h)) &&
             Clean(EnumFindings(at, b, h)))
       <==> TypingKept(b, h)
  {
    CleanSingle(Finding(Changed(ts), at, Retyped(TypeOf(b), TypeOf(h)), Breaking));
    CleanSingle(Finding(Changed(items), at, Retyped(TypeOf(SchemaItems(b)), TypeOf(SchemaItems(h))), Breaking));
    if b.enum.Some? && h.enum.Some? {
      var gone := DroppedValues(b.enum.value, h.enum.value);
      CleanSingle(Finding(Removed(EnumValue), at, Dropped(gone), Breaking));
    }
  }

  lemma CleanRequiredness(subject: Subject, at: Location, was: bool, now: bool)
    ensures Clean(RequirednessFindings(subject, at, was, now)) <==> (now ==> was)
  {
    CleanSingle(Finding(BecameRequired(subject), at, Plain, Breaking));
  }

  lemma CleanAppend5(a: seq<Finding>, b: seq<Finding>, c: seq<Finding>, d: seq<Finding>, e: seq<Finding>)
    ensures Clean(a + b + c + d + e) <==> Clean(a) && Clean(b) && Clean(c) && Clean(d) && Clean(e)
  {
    CleanAppend(a + b + c + d, e);
    CleanAppend(a + b + c, d);
    CleanAppend(a + b, c);
    CleanAppend(a, b);
  }

  lemma CleanParameter(path: string, verb: Method, b: Parameter, h: Parameter)
    ensures Clean(ParameterFindings(path, verb, b, h)) <==> ParameterKept(b, h)
  {
    var at := Member(ParametersOf(path, verb), ParameterKey(b));
    var bs, hs := ParamSchema(b), ParamSchema(h);
    CleanAppend5(RequirednessFindings(ParameterEntry, at, b.required, h.required),
                 LocationFindings(at, b.location, h.location),
                 TypeFindings(ParameterType, at, TypeOf(bs), TypeOf(hs)),
                 ItemFindings(ParameterItemType, at, bs, hs), EnumFindings(at, bs, hs));
    CleanRequiredness(ParameterEntry, at, b.required, h.required);
    CleanSingle(Finding(Changed(ParameterIn), at, Moved(b.location, h.location), Breaking));
    CleanTyping(ParameterType, ParameterItemType, at, bs, hs);
  }

  lemma CleanParameters(path: string, verb: Method, b: map<string, Parameter>, h: map<string, Parameter>)
    ensures Clean(ParameterListFindings(path, verb, b, h)) <==> ParametersKept(b, h)
  {
    hide Clean, Collect, KeyChanges, Sorted, ParameterFindings, ParameterKept;
    var common, f := b.Keys * h.Keys, ParameterFindingsAt(path, verb, b, h);
    CleanAppend(KeyChanges(ParameterEntry, ParametersOf(path, verb), b.Keys, h.Keys, MandatoryParams(h)),
                Collect(Sorted(common), f));
    CleanKeyChanges(ParameterEntry, ParametersOf(path, verb), b.Keys, h.Keys, MandatoryParams(h));
    CleanOver(common, f);
    forall k | k in b && k in h ensures k in common && (Clean(f(k)) <==> ParameterKept(b[k], h[k])) {
      CleanParameter(path, verb, b[k], h[k]);
    }
    ParametersKeptIff(b, h);
  }

  lemma ParametersKeptIff(b: map<string, Parameter>, h: map<string, Parameter>)
    ensures ParametersKept(b, h)
       <==> b.Keys <= h.Keys && (forall k :: k in h.Keys && k in MandatoryParams(h) ==> k in b.Keys)
            && forall k :: k in b && k in h ==> ParameterKept(b[k], h[k])
  {
  }

  lemma CleanBody(path: string, verb: Method, b: Option<RequestBody>, h: Option<RequestBody>)
    ensures Clean(BodyFindings(path, verb, b, h)) <==> BodyKept(b, h)
  {
    var at := OperationAt(path, verb);
    if b.Some? && h.Some? {
      var bk, hk := b.value.content.Keys, h.value.content.Keys;
      CleanAppend(RequirednessFindings(BodyEntry, at, b.value.required, h.value.required),
                  KeyChanges(BodyMedia, RequestMediaOf(path, verb), bk, hk, {}));
      CleanRequiredness(BodyEntry, at, b.value.required, h.value.required);
      CleanKeyChanges(BodyMedia, RequestMediaOf(path, verb), bk, hk, {});
    } else {
      CleanSingle(Finding(Removed(BodyEntry), at, Plain, Breaking));
      CleanSingle(Finding(Added(BodyEntry), at, Plain, Breaking));
    }
  }

  lemma CleanMedia(path: string, verb: Method, code: string, b: map<string, MediaType>, h: map<string, MediaType>)
    ensures Clean(ResponseFindings(path, verb, code, b, h)) <==> MediaKept(b, h)
  {
    hide Clean, Collect, KeyChanges, Sorted;
    var common, f := b.Keys * h.Keys, MediaFindingsAt(path, verb, code, b, h);
    var scope := ResponseMediaOf(path, verb, code);
    CleanAppend(KeyChanges(ResponseMediaKey, scope, b.Keys, h.Keys, {}), Collect(Sorted(common), f));
    CleanKeyChanges(ResponseMediaKey, scope, b.Keys, h.Keys, {});
    CleanOver(common, f);
    forall m | m in b && m in h
      ensures m in common && (Clean(f(m)) <==> MediaFingerprint(b[m]) == MediaFingerprint(h[m]))
    {
      CleanWhen(MediaFingerprint(b[m]) != MediaFingerprint(h[m]),
                Finding(Changed(ResponseSchema), Member(scope, m),
                        Retyped(MediaFingerprint(b[m]), MediaFingerprint(h[m])), Breaking));
    }
  }

  lemma CleanResponses(path: string, verb: Method, b: map<string, Response>, h: map<string, Response>)
    ensures Clean(ResponsesFindings(path, verb, b, h)) <==> ResponsesKept(b, h)
  {
    hide Clean, Collect, KeyChanges, Sorted, ResponseFindings, MediaKept;
    var common, f := b.Keys * h.Keys, ResponseFindingsAt(path, verb, b, h);
    CleanAppend(KeyChanges(ResponseCode, ResponsesOf(path, verb), b.Keys, h.Keys, {}), Collect(Sorted(common), f));
    CleanKeyChanges(ResponseCode, ResponsesOf(path, verb), b.Keys, h.Keys, {});
    CleanOver(common, f);
    forall c | c in b && c in h
      ensures c in common && (Clean(f(c)) <==> MediaKept(b[c].content, h[c].content))
    {
      CleanMedia(path, verb, c, b[c].content, h[c].content);
    }
  }

  lemma CleanOperation(path: string, verb: Method, b: Operation, h: Operation)
    ensures Clean(OperationFindings(path, verb, b, h)) <==> OperationKept(b, h)
  {
    var at := OperationAt(path, verb);
    CleanAppend5(OperationIdFindings(at, OperationId(b), OperationId(h)),
                 ParameterListFindings(path, verb, Params(b), Params(h)),
                 BodyFindings(path, verb, b.requestBody, h.requestBody),
                 ResponsesFindings(path, verb, b.responses, h.responses),
                 SecurityFindings(at, SecurityOf(b), SecurityOf(h)));
    CleanIds(at, OperationId(b), OperationId(h));
    CleanParameters(path, verb, Params(b), Params(h));
    CleanBody(path, verb, b.requestBody, h.requestBody);
    CleanResponses(path, verb, b.responses, h.responses);
    CleanSecurity(at, SecurityOf(b), SecurityOf(h));
  }

  lemma CleanIds(at: Location, b: Option<string>, h: Option<string>)
    ensures Clean(OperationIdFindings(at, b, h)) <==> OperationIdKept(b, h)
  {
    if b.Some? {
      CleanSingle(Finding(Removed(OperationIdentifier), at, Lost(b.value), Breaking));
      if h.Some? {
        CleanSingle(Finding(Changed(OperationIdentifier), at, Renamed(b.value, h.value), Breaking));
      }
    }
  }

  lemma CleanSecurity(at: Location, b: set<set<string>>, h: set<set<string>>)
    ensures Clean(SecurityFindings(at, b, h)) <==> SecurityKept(b, h)
  {
    CleanSingle(Finding(Added(Security), at, Plain, Breaking));
    CleanSingle(Finding(Changed(Security), at, Plain, Breaking));
  }

  lemma AllMethodsListed(m: Method)
    ensures m in HTTP_METHODS
  {
    match m
    case GET => assert m == HTTP_METHODS[0];
    case PUT => assert m == HTTP_METHODS[1];
    case POST => assert m == HTTP_METHODS[2];
    case DELETE => assert m == HTTP_METHODS[3];
    case OPTIONS => assert m == HTTP_METHODS[4];
    case HEAD => assert m == HTTP_METHODS[5];
    case PATCH => assert m == HTTP_METHODS[6];
    case TRACE => assert m == HTTP_METHODS[7];
  }

  lemma CleanPath(path: string, b: PathItem, h: PathItem)
    ensures Clean(PathFindings(path, b, h)) <==> PathKept(b, h)
  {
    hide Clean, Collect, OperationFindings, OperationKept;
    var r, a, c := RemovedMethodAt(path, b, h), AddedMethodAt(path, b, h), CommonMethodAt(path, b, h);
    CleanAppend(Collect(HTTP_METHODS, r) + Collect(HTTP_METHODS, a), Collect(HTTP_METHODS, c));
    CleanAppend(Collect(HTTP_METHODS, r), Collect(HTTP_METHODS, a));
    CleanCollect(HTTP_METHODS, r);
    CleanCollect(HTTP_METHODS, a);
    CleanCollect(HTTP_METHODS, c);
    forall m
      ensures m in HTTP_METHODS && Clean(a(m))
      ensures Clean(r(m)) <==> (m in b ==> m in h)
      ensures Clean(c(m)) <==> (m in b && m in h ==> OperationKept(b[m], h[m]))
    {
      AllMethodsListed(m);
      CleanWhen(m in b && m !in h, Finding(Removed(MethodKey), OperationAt(path, m), Plain, Breaking));
      CleanWhen(m in h && m !in b, Finding(Added(MethodKey), OperationAt(path, m), Plain, Additive));
      CleanNothing();
      if m in b && m in h { CleanOperation(path, m, b[m], h[m]); }
    }
  }

  lemma CleanPaths(b: map<string, PathItem>, h: map<string, PathItem>)
    ensures Clean(AllPathFindings(b, h)) <==> PathsKept(b, h)
  {
    hide Clean, Collect, KeyChanges, Sorted, PathFindings, PathKept;
    var common, f := b.Keys * h.Keys, PathFindingsAt(b, h);
    CleanAppend(KeyChanges(PathKey, AllPaths, b.Keys, h.Keys, {}), Collect(Sorted(common), f));
    CleanKeyChanges(PathKey, AllPaths, b.Keys, h.Keys, {});
    CleanOver(common, f);
    forall p | p in b && p in h ensures p in common && (Clean(f(p)) <==> PathKept(b[p], h[p])) {
      CleanPath(p, b[p], h[p]);
    }
  }

  lemma CleanProperty(name: string, prop: string, was: bool, now: bool, b: ObjectSchema, h: ObjectSchema)
    ensures Clean(PropertyFindings(name, prop, was, now, b, h)) <==> (now ==> was) && TypingKept(b, h)
  {
    var at := Member(PropertiesIn(name), prop);
    CleanAppend5([], RequirednessFindings(PropertyEntry, at, was, now),
                 TypeFindings(PropertyType, at, TypeOf(b), TypeOf(h)),
                 ItemFindings(PropertyItemType, at, b, h), EnumFindings(at, b, h));
    assert [] + RequirednessFindings(PropertyEntry, at, was, now) == RequirednessFindings(PropertyEntry, at, was, now);
    CleanRequiredness(PropertyEntry, at, was, now);
    CleanTyping(PropertyType, PropertyItemType, at, b, h);
  }

  lemma CleanSchema(name: string, b: ObjectSchema, h: ObjectSchema)
    ensures Clean(SchemaFindings(name, b, h)) <==> SchemaKept(b, h)
  {
    hide Clean, Collect, KeyChanges, Sorted, PropertyFindings, TypingKept;
    var bs, hs, f := PropertiesOf(b), PropertiesOf(h), PropertyFindingsAt(name, b, h);
    var common := bs.Keys * hs.Keys;
    var types := TypeFindings(SchemaKind, Member(AllSchemas, name), TypeOf(b), TypeOf(h));
    var keys := KeyChanges(PropertyEntry, PropertiesIn(name), bs.Keys, hs.Keys, RequiredOf(h));
    CleanAppend(types + keys, Collect(Sorted(common), f));
    CleanAppend(types, keys);
    CleanWhen(TypeOf(b) != TypeOf(h),
              Finding(Changed(SchemaKind), Member(AllSchemas, name), Retyped(TypeOf(b), TypeOf(h)), Breaking));
    CleanKeyChanges(PropertyEntry, PropertiesIn(name), bs.Keys, hs.Keys, RequiredOf(h));
    CleanOver(common, f);
    forall q | q in bs && q in hs
      ensures q in common
      ensures Clean(f(q)) <==> (q in RequiredOf(h) ==> q in RequiredOf(b)) && TypingKept(bs[q], hs[q])
    {
      CleanProperty(name, q, q in RequiredOf(b), q in RequiredOf(h), bs[q], hs[q]);
    }
  }

  lemma CleanSchemas(b: map<string, ObjectSchema>, h: map<string, ObjectSchema>)
    ensures Clean(AllSchemaFindings(b, h)) <==> SchemasKept(b, h)
  {
    hide Clean, Collect, KeyChanges, Sorted, SchemaFindings, SchemaKept;
    var common, f := b.Keys * h.Keys, SchemaFindingsAt(b, h);
    CleanAppend(KeyChanges(SchemaName, AllSchemas, b.Keys, h.Keys, {}), Collect(Sorted(common), f));
    CleanKeyChanges(SchemaName, AllSchemas, b.Keys, h.Keys, {});
    CleanOver(common, f);
    forall n | n in b && n in h ensures n in common && (Clean(f(n)) <==> SchemaKept(b[n], h[n])) {
      CleanSchema(n, b[n], h[n]);
    }
  }

  lemma AllSectionsListed(s: Section)
    ensures s in COMPONENT_SECTIONS
  {
    match s
    case SecuritySchemes => assert s == COMPONENT_SECTIONS[0];
    case Parameters => assert s == COMPONENT_SECTIONS[1];
    case RequestBodies => assert s == COMPONENT_SECTIONS[2];
    case Responses => assert s == COMPONENT_SECTIONS[3];
    case Headers => assert s == COMPONENT_SECTIONS[4];
  }

  lemma CleanComponents(b: Document, h: Document)
    ensures Clean(Collect(COMPONENT_SECTIONS, ComponentFindingsAt(b, h))) <==> ComponentsKept(b, h)
  {
    hide Clean, Collect, KeyChanges;
    var f := ComponentFindingsAt(b, h);
    CleanCollect(COMPONENT_SECTIONS, f);
    forall s ensures s in COMPONENT_SECTIONS && (Clean(f(s)) <==> Names(b, s) <= Names(h, s)) {
      CleanKeyChanges(Component, ComponentsIn(s), Names(b, s), Names(h, s), {});
      AllSectionsListed(s);
    }
  }

  /** The diff reports nothing breaking exactly when the head keeps the base. */
  lemma CompatibleIffKept(b: Document, h: Document)
    ensures Compatible(b, h) <==> DocumentKept(b, h)
  {
    hide Clean, Collect, KeyChanges, Sorted, AllPathFindings, AllSchemaFindings, PathsKept, SchemasKept, ComponentsKept;
    var top, paths := TopFindings(b, h), AllPathFindings(b.paths, h.paths);
    var schemas := AllSchemaFindings(b.schemas, h.schemas);
    CleanAppend(top + paths + schemas, Collect(COMPONENT_SECTIONS, ComponentFindingsAt(b, h)));
    CleanAppend(top + paths, schemas);
    CleanAppend(top, paths);
    var reworded := Finding(Changed(InfoBlock), TopLevel, Renamed(b.info, h.info), Info);
    CleanAppend(When(b.info != h.info, reworded), KeyChanges(ServerUrl, AllServers, ServersOf(b), ServersOf(h), {}));
    CleanWhen(b.info != h.info, reworded);
    CleanKeyChanges(ServerUrl, AllServers, ServersOf(b), ServersOf(h), {});
    CleanPaths(b.paths, h.paths);
    CleanSchemas(b.schemas, h.schemas);
    CleanComponents(b, h);
  }
}
