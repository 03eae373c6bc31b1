/** Which findings a diff reports, said of the two documents: for every kind its place,
    its note and its severity, and nothing else. */
module OpenApiReported {
  import opened Wrappers
  import opened StringOrder
  import opened OpenApiDocument
  import opened OpenApiDiff

  // ---- what is to be reported, place by place ----

  /** A name that only the base has is lost; one that only the head has is new. */
  predicate KeyReport(f: Finding, subject: Subject, was: bool, now: bool, mandatory: bool) {
    && f.note == Plain
    && (|| (was && !now && f.kind == Removed(subject) && f.severity == Breaking)
        || (!was && now && f.kind == Added(subject) && f.severity == if mandatory then Breaking else Additive))
  }

  predicate RequirednessReport(f: Finding, subject: Subject, was: bool, now: bool) {
    && f.note == Plain
    && (|| (!was && now && f.kind == BecameRequired(subject) && f.severity == Breaking)
        || (was && !now && f.kind == BecameOptional(subject) && f.severity == Additive))
  }

  /** Another fingerprint: the note holds the one before and then the one after. */
  predicate TypeReport(f: Finding, subject: Subject, before: Fingerprint, after: Fingerprint) {
    before != after && f.kind == Changed(subject) && f.note == Retyped(before, after) && f.severity == Breaking
  }

  predicate ItemReport(f: Finding, subject: Subject, b: ObjectSchema, h: ObjectSchema) {
    HasItems(b) && HasItems(h) && TypeReport(f, subject, TypeOf(SchemaItems(b)), TypeOf(SchemaItems(h)))
  }

  /** Lost enum values: the note holds exactly them. */
  predicate EnumReport(f: Finding, b: ObjectSchema, h: ObjectSchema) {
    && b.enum.Some? && h.enum.Some? && (exists v :: v in b.enum.value && v !in h.enum.value)
    && f.kind == Removed(EnumValue) && f.severity == Breaking
    && f.note == Dropped(DroppedValues(b.enum.value, h.enum.value))
  }

  predicate SchemaReport(f: Finding, typ: Subject, items: Subject, b: ObjectSchema, h: ObjectSchema) {
    TypeReport(f, typ, TypeOf(b), TypeOf(h)) || ItemReport(f, items, b, h) || EnumReport(f, b, h)
  }

  predicate MoveReport(f: Finding, b: Option<string>, h: Option<string>) {
    b != h && f.kind == Changed(ParameterIn) && f.note == Moved(b, h) && f.severity == Breaking
  }

  predicate ParameterReport(f: Finding, b: Parameter, h: Parameter) {
    || RequirednessReport(f, ParameterEntry, b.required, h.required)
    || MoveReport(f, b.location, h.location)
    || SchemaReport(f, ParameterType, ParameterItemType, ParamSchema(b), ParamSchema(h))
  }

  predicate AtParameter(f: Finding, k: string, b: map<string, Parameter>, h: map<string, Parameter>) {
    || KeyReport(f, ParameterEntry, k in b, k in h, k in h && h[k].required)
    || (k in b && k in h && ParameterReport(f, b[k], h[k]))
  }

  predicate AtRequestMedia(f: Finding, k: string, b: Option<RequestBody>, h: Option<RequestBody>) {
    b.Some? && h.Some? && KeyReport(f, BodyMedia, k in b.value.content, k in h.value.content, false)
  }

  predicate AtResponse(f: Finding, k: string, b: map<string, Response>, h: map<string, Response>) {
    KeyReport(f, ResponseCode, k in b, k in h, false)
  }

  predicate AtMedia(f: Finding, k: string, b: map<string, MediaType>, h: map<string, MediaType>) {
    || KeyReport(f, ResponseMediaKey, k in b, k in h, false)
    || (k in b && k in h && TypeReport(f, ResponseSchema, MediaFingerprint(b[k]), MediaFingerprint(h[k])))
  }

  predicate AtResponseMedia(f: Finding, code: string, k: string, b: map<string, Response>, h: map<string, Response>) {
    code in b && code in h && AtMedia(f, k, b[code].content, h[code].content)
  }

  predicate IdReport(f: Finding, b: Option<string>, h: Option<string>) {
    && b.Some? && b != h && f.severity == Breaking
    && (|| (h.Some? && f.kind == Changed(OperationIdentifier) && f.note == Renamed(b.value, h.value))
        || (h.None? && f.kind == Removed(OperationIdentifier) && f.note == Lost(b.value)))
  }

  predicate BodyReport(f: Finding, b: Option<RequestBody>, h: Option<RequestBody>) {
    || KeyReport(f, BodyEntry, b.Some?, h.Some?, h.Some? && h.value.required)
    || (b.Some? && h.Some? && RequirednessReport(f, BodyEntry, b.value.required, h.value.required))
  }

  /** New security is breaking, dropped security additive, other security breaking. */
  predicate SecurityReport(f: Finding, b: set<set<string>>, h: set<set<string>>) {
    && b != h && f.note == Plain
    && (|| (b == {} && f.kind == Added(Security) && f.severity == Breaking)
        || (h == {} && f.kind == Removed(Security) && f.severity == Additive)
        || (b != {} && h != {} && f.kind == Changed(Security) && f.severity == Breaking))
  }

  predicate AtOperation(f: Finding, b: Operation, h: Operation) {
    || IdReport(f, OperationId(b), OperationId(h))
    || BodyReport(f, b.requestBody, h.requestBody)
    || SecurityReport(f, SecurityOf(b), SecurityOf(h))
  }

  /** What the comparison of one operation is to report. */
  predicate OperationReport(f: Finding, path: string, verb: Method, b: Operation, h: Operation) {
    match f.at
    case OperationAt(p, m) => p == path && m == verb && AtOperation(f, b, h)
    case Member(ParametersOf(p, m), k) => p == path && m == verb && AtParameter(f, k, Params(b), Params(h))
    case Member(RequestMediaOf(p, m), k) => p == path && m == verb && AtRequestMedia(f, k, b.requestBody, h.requestBody)
    case Member(ResponsesOf(p, m), k) => p == path && m == verb && AtResponse(f, k, b.responses, h.responses)
    case Member(ResponseMediaOf(p, m, code), k) =>
      p == path && m == verb && AtResponseMedia(f, code, k, b.responses, h.responses)
    case _ => false
  }

  /** The path and the method that a place is about, where it is about one. */
  function MethodOf(at: Location): Option<(string, Method)> {
    match at
    case OperationAt(p, m) => Some((p, m))
    case Member(ParametersOf(p, m), _) => Some((p, m))
    case Member(RequestMediaOf(p, m), _) => Some((p, m))
    case Member(ResponsesOf(p, m), _) => Some((p, m))
    case Member(ResponseMediaOf(p, m, _), _) => Some((p, m))
    case _ => None
  }

  predicate PathReport(f: Finding, path: string, b: PathItem, h: PathItem) {
    MethodOf(f.at).Some? && MethodOf(f.at).value.0 == path &&
    var m := MethodOf(f.at).value.1;
    || (f.at.OperationAt? && KeyReport(f, MethodKey, m in b, m in h, false))
    || (m in b && m in h && OperationReport(f, path, m, b[m], h[m]))
  }

  predicate AtProperty(f: Finding, k: string, b: ObjectSchema, h: ObjectSchema) {
    var was, now := PropertiesOf(b), PropertiesOf(h);
    || KeyReport(f, PropertyEntry, k in was, k in now, k in RequiredOf(h))
    || (k in was && k in now
        && (|| RequirednessReport(f, PropertyEntry, k in RequiredOf(b), k in RequiredOf(h))
            || SchemaReport(f, PropertyType, PropertyItemType, was[k], now[k])))
  }

  predicate AtSchema(f: Finding, k: string, b: map<string, ObjectSchema>, h: map<string, ObjectSchema>) {
    || KeyReport(f, SchemaName, k in b, k in h, false)
    || (k in b && k in h && TypeReport(f, SchemaKind, TypeOf(b[k]), TypeOf(h[k])))
  }

  /** What the diff of two documents is to report. */
  predicate Reported(b: Document, h: Document, f: Finding) {
    match f.at
    case TopLevel => b.info != h.info && f == Finding(Changed(InfoBlock), TopLevel, Renamed(b.info, h.info), Info)
    case Member(AllServers, k) => KeyReport(f, ServerUrl, k in b.servers, k in h.servers, false)
    case Member(AllPaths, k) => KeyReport(f, PathKey, k in b.paths, k in h.paths, false)
    case Member(AllSchemas, k) => AtSchema(f, k, b.schemas, h.schemas)
    case Member(PropertiesIn(n), k) => n in b.schemas && n in h.schemas && AtProperty(f, k, b.schemas[n], h.schemas[n])
    case Member(ComponentsIn(s), k) => KeyReport(f, Component, k in Names(b, s), k in Names(h, s), false)
    case _ =>
      MethodOf(f.at).Some? && var p := MethodOf(f.at).value.0;
      p in b.paths && p in h.paths && PathReport(f, p, b.paths[p], h.paths[p])
  }

  // ---- the pieces report that ----

  lemma {:induction false} InCollect<K>(keys: seq<K>, g: K --> seq<Finding>, f: Finding)
    requires forall k :: k in keys ==> g.requires(k)
    ensures f in Collect(keys, g) <==> exists k :: k in keys && f in g(k)
  {
    if keys != [] {
      var init, last := keys[..|keys| - 1], keys[|keys| - 1];
      InCollect(init, g, f);
      assert forall k :: k in keys <==> k in init || k == last;
    }
  }

  lemma InKeys(f: Finding, subject: Subject, scope: Scope, b: set<string>, h: set<string>, mandatory: set<string>)
    ensures f in KeyChanges(subject, scope, b, h, mandatory)
       <==> && f.at.Member? && f.at.scope == scope
            && KeyReport(f, subject, f.at.name in b, f.at.name in h, f.at.name in mandatory)
  {
    hide Sorted, Collect;
    InCollect(Sorted(b - h), RemovedAt(subject, scope), f);
    InCollect(Sorted(h - b), AddedAt(subject, scope, mandatory), f);
    forall k
      ensures f in RemovedAt(subject, scope)(k) <==> f == Finding(Removed(subject), Member(scope, k), Plain, Breaking)
      ensures f in AddedAt(subject, scope, mandatory)(k)
         <==> f == Finding(Added(subject), Member(scope, k), Plain, if k in mandatory then Breaking else Additive)
    {
    }
    if f.at.Member? {
      assert f.at.name in Sorted(b - h) <==> f.at.name in b && f.at.name !in h;
      assert f.at.name in Sorted(h - b) <==> f.at.name in h && f.at.name !in b;
    }
  }

  lemma InRequiredness(f: Finding, subject: Subject, at: Location, was: bool, now: bool)
    ensures f in RequirednessFindings(subject, at, was, now) <==> f.at == at && RequirednessReport(f, subject, was, now)
  {
  }

  lemma InTypes(f: Finding, subject: Subject, at: Location, x: Fingerprint, y: Fingerprint)
    ensures f in TypeFindings(subject, at, x, y) <==> f.at == at && TypeReport(f, subject, x, y)
  {
  }

  lemma InItems(f: Finding, subject: Subject, at: Location, b: ObjectSchema, h: ObjectSchema)
    ensures f in ItemFindings(subject, at, b, h) <==> f.at == at && ItemReport(f, subject, b, h)
  {
    hide HasItems;
    InTypes(f, subject, at, TypeOf(SchemaItems(b)), TypeOf(SchemaItems(h)));
  }

  /** Lost values are listed value by value, in the order of the base. */
  lemma {:induction false} DroppedIsPointwise(x: seq<string>, y: seq<string>, head: seq<string>)
    ensures DroppedValues(x + y, head) == DroppedValues(x, head) + DroppedValues(y, head)
    ensures |y| == 1 ==> DroppedValues(y, head) == if y[0] in head then [] else y
  {
    hide DroppedValues;
    DroppedFromNothing(head);
    if y == [] {
      assert x + y == x;
    } else {
      var init, v := y[..|y| - 1], y[|y| - 1];
      assert x + y == (x + init) + [v] && y == init + [v];
      DroppedIsPointwise(x, init, head);
      DroppedFromOneMore(x + init, v, head);
      DroppedFromOneMore(init, v, head);
    }
  }

  lemma DroppedFromNothing(head: seq<string>)
    ensures DroppedValues([], head) == []
  {
  }

  lemma DroppedFromOneMore(s: seq<string>, v: string, head: seq<string>)
    ensures DroppedValues(s + [v], head) == DroppedValues(s, head) + if v in head then [] else [v]
  {
    assert (s + [v])[..|s|] == s;
  }

  lemma InEnums(f: Finding, at: Location, b: ObjectSchema, h: ObjectSchema)
    ensures f in EnumFindings(at, b, h) <==> f.at == at && EnumReport(f, b, h)
  {
    hide DroppedValues;
  }

  lemma InLocations(f: Finding, at: Location, b: Option<string>, h: Option<string>)
    ensures f in LocationFindings(at, b, h) <==> f.at == at && MoveReport(f, b, h)
  {
  }

  lemma InParameter(f: Finding, path: string, verb: Method, b: Parameter, h: Parameter)
    ensures f in ParameterFindings(path, verb, b, h)
       <==> f.at == Member(ParametersOf(path, verb), ParameterKey(b)) && ParameterReport(f, b, h)
  {
    hide RequirednessFindings, LocationFindings, TypeFindings, ItemFindings, EnumFindings, ParameterKey, ParamSchema,
         RequirednessReport, MoveReport, TypeReport, ItemReport, EnumReport;
    var at := Member(ParametersOf(path, verb), ParameterKey(b));
    InRequiredness(f, ParameterEntry, at, b.required, h.required);
    InLocations(f, at, b.location, h.location);
    InTypes(f, ParameterType, at, TypeOf(ParamSchema(b)), TypeOf(ParamSchema(h)));
    InItems(f, ParameterItemType, at, ParamSchema(b), ParamSchema(h));
    InEnums(f, at, ParamSchema(b), ParamSchema(h));
  }

  lemma InParameters(f: Finding, path: string, verb: Method, b: map<string, Parameter>, h: map<string, Parameter>)
    requires forall k :: k in b ==> ParameterKey(b[k]) == k
    ensures f in ParameterListFindings(path, verb, b, h)
       <==> f.at.Member? && f.at.scope == ParametersOf(path, verb) && AtParameter(f, f.at.name, b, h)
  {
    hide Sorted, Collect, KeyChanges, KeyReport, ParameterReport, ParameterFindings, ParameterKey;
    var g, common := ParameterFindingsAt(path, verb, b, h), Sorted(b.Keys * h.Keys);
    InKeys(f, ParameterEntry, ParametersOf(path, verb), b.Keys, h.Keys, MandatoryParams(h));
    InCollect(common, g, f);
    forall k | k in b && k in h
      ensures f in g(k) <==> f.at == Member(ParametersOf(path, verb), k) && ParameterReport(f, b[k], h[k])
    {
      InParameter(f, path, verb, b[k], h[k]);
    }
    if f.at.Member? && f.at.name in b && f.at.name in h && f in g(f.at.name) { assert f.at.name in common; }
  }

  lemma InBody(f: Finding, path: string, verb: Method, b: Option<RequestBody>, h: Option<RequestBody>)
    ensures f in BodyFindings(path, verb, b, h)
       <==> || (f.at == OperationAt(path, verb) && BodyReport(f, b, h))
            || (f.at.Member? && f.at.scope == RequestMediaOf(path, verb) && AtRequestMedia(f, f.at.name, b, h))
  {
    hide KeyChanges, RequirednessFindings;
    if b.Some? && h.Some? {
      InRequiredness(f, BodyEntry, OperationAt(path, verb), b.value.required, h.value.required);
      InKeys(f, BodyMedia, RequestMediaOf(path, verb), b.value.content.Keys, h.value.content.Keys, {});
    }
  }

  lemma InMedia(f: Finding, path: string, verb: Method, code: string, b: map<string, MediaType>, h: map<string, MediaType>)
    ensures f in ResponseFindings(path, verb, code, b, h)
       <==> f.at.Member? && f.at.scope == ResponseMediaOf(path, verb, code) && AtMedia(f, f.at.name, b, h)
  {
    hide Sorted, Collect, KeyChanges, KeyReport, TypeReport, TypeFindings;
    var g, common, scope := MediaFindingsAt(path, verb, code, b, h), Sorted(b.Keys * h.Keys), ResponseMediaOf(path, verb, code);
    InKeys(f, ResponseMediaKey, scope, b.Keys, h.Keys, {});
    InCollect(common, g, f);
    forall k | k in b && k in h
      ensures f in g(k) <==> f.at == Member(scope, k) && TypeReport(f, ResponseSchema, MediaFingerprint(b[k]), MediaFingerprint(h[k]))
    {
      InTypes(f, ResponseSchema, Member(scope, k), MediaFingerprint(b[k]), MediaFingerprint(h[k]));
    }
    if f.at.Member? && f.at.name in b && f.at.name in h && f in g(f.at.name) { assert f.at.name in common; }
  }

  lemma InResponses(f: Finding, path: string, verb: Method, b: map<string, Response>, h: map<string, Response>)
    ensures f in ResponsesFindings(path, verb, b, h)
       <==> f.at.Member? && match f.at.scope
                            case ResponsesOf(p, m) => p == path && m == verb && AtResponse(f, f.at.name, b, h)
                            case ResponseMediaOf(p, m, code) => p == path && m == verb && AtResponseMedia(f, code, f.at.name, b, h)
                            case _ => false
  {
    hide Sorted, Collect, KeyChanges, KeyReport, AtMedia, ResponseFindings;
    var g, common := ResponseFindingsAt(path, verb, b, h), Sorted(b.Keys * h.Keys);
    InKeys(f, ResponseCode, ResponsesOf(path, verb), b.Keys, h.Keys, {});
    InCollect(common, g, f);
    forall c | c in b && c in h
      ensures f in g(c) <==> && f.at.Member? && f.at.scope == ResponseMediaOf(path, verb, c)
                             && AtMedia(f, f.at.name, b[c].content, h[c].content)
    {
      InMedia(f, path, verb, c, b[c].content, h[c].content);
    }
    if f.at.Member? && f.at.scope.ResponseMediaOf? && f.at.scope.code in b && f.at.scope.code in h && f in g(f.at.scope.code) {
      assert f.at.scope.code in common;
    }
  }

  lemma InIds(f: Finding, at: Location, b: Option<string>, h: Option<string>)
    ensures f in OperationIdFindings(at, b, h) <==> f.at == at && IdReport(f, b, h)
  {
  }

  lemma InSecurity(f: Finding, at: Location, b: set<set<string>>, h: set<set<string>>)
    ensures f in SecurityFindings(at, b, h) <==> f.at == at && SecurityReport(f, b, h)
  {
  }

  lemma InOperation(f: Finding, path: string, verb: Method, b: Operation, h: Operation)
    ensures f in OperationFindings(path, verb, b, h) <==> OperationReport(f, path, verb, b, h)
  {
    hide OperationIdFindings, ParameterListFindings, BodyFindings, ResponsesFindings, SecurityFindings, IdReport,
         BodyReport, SecurityReport, AtParameter, AtRequestMedia, AtResponse, AtResponseMedia, OperationId, SecurityOf;
    var at := OperationAt(path, verb);
    InIds(f, at, OperationId(b), OperationId(h));
    InParameters(f, path, verb, Params(b), Params(h));
    InBody(f, path, verb, b.requestBody, h.requestBody);
    InResponses(f, path, verb, b.responses, h.responses);
    InSecurity(f, at, SecurityOf(b), SecurityOf(h));
  }

  lemma EveryMethodIsListed(m: Method)
    ensures m in HTTP_METHODS
  {
    assert HTTP_METHODS[0] == GET && HTTP_METHODS[1] == PUT && HTTP_METHODS[2] == POST && HTTP_METHODS[3] == DELETE;
    assert HTTP_METHODS[4] == OPTIONS && HTTP_METHODS[5] == HEAD && HTTP_METHODS[6] == PATCH && HTTP_METHODS[7] == TRACE;
  }

  lemma InMethodKeys(f: Finding, path: string, b: PathItem, h: PathItem)
    ensures (f in Collect(HTTP_METHODS, RemovedMethodAt(path, b, h)) || f in Collect(HTTP_METHODS, AddedMethodAt(path, b, h)))
       <==> f.at.OperationAt? && f.at.path == path && KeyReport(f, MethodKey, f.at.verb in b, f.at.verb in h, false)
  {
    hide Collect;
    InCollect(HTTP_METHODS, RemovedMethodAt(path, b, h), f);
    InCollect(HTTP_METHODS, AddedMethodAt(path, b, h), f);
    if f.at.OperationAt? { EveryMethodIsListed(f.at.verb); }
  }

  lemma InCommonMethods(f: Finding, path: string, b: PathItem, h: PathItem)
    ensures f in Collect(HTTP_METHODS, CommonMethodAt(path, b, h))
       <==> && MethodOf(f.at).Some? && MethodOf(f.at).value.0 == path
            && var m := MethodOf(f.at).value.1; m in b && m in h && OperationReport(f, path, m, b[m], h[m])
  {
    hide Collect, OperationFindings, OperationReport;
    var g := CommonMethodAt(path, b, h);
    InCollect(HTTP_METHODS, g, f);
    forall m
      ensures f in g(m) <==> m in b && m in h && OperationReport(f, path, m, b[m], h[m])
      ensures f in g(m) ==> MethodOf(f.at) == Some((path, m))
    {
      if m in b && m in h {
        InOperation(f, path, m, b[m], h[m]);
        OperationReportIsThere(f, path, m, b[m], h[m]);
      }
    }
    if MethodOf(f.at).Some? { EveryMethodIsListed(MethodOf(f.at).value.1); }
  }

  lemma InPath(f: Finding, path: string, b: PathItem, h: PathItem)
    ensures f in PathFindings(path, b, h) <==> PathReport(f, path, b, h)
  {
    hide Collect, OperationReport, KeyReport;
    InMethodKeys(f, path, b, h);
    InCommonMethods(f, path, b, h);
  }

  lemma InPaths(f: Finding, b: map<string, PathItem>, h: map<string, PathItem>)
    ensures f in AllPathFindings(b, h)
       <==> || (f.at.Member? && f.at.scope == AllPaths && KeyReport(f, PathKey, f.at.name in b, f.at.name in h, false))
            || (MethodOf(f.at).Some? && var p := MethodOf(f.at).value.0; p in b && p in h && PathReport(f, p, b[p], h[p]))
  {
    hide Sorted, Collect, KeyChanges, KeyReport, PathFindings, PathReport, MethodOf;
    var g, common := PathFindingsAt(b, h), Sorted(b.Keys * h.Keys);
    InKeys(f, PathKey, AllPaths, b.Keys, h.Keys, {});
    InCollect(common, g, f);
    forall p | p in b && p in h
      ensures f in g(p) <==> PathReport(f, p, b[p], h[p])
      ensures PathReport(f, p, b[p], h[p]) ==> MethodOf(f.at).Some? && MethodOf(f.at).value.0 == p
    {
      InPath(f, p, b[p], h[p]);
      PathReportIsThere(f, p, b[p], h[p]);
    }
    if MethodOf(f.at).Some? && MethodOf(f.at).value.0 in b && MethodOf(f.at).value.0 in h {
      assert MethodOf(f.at).value.0 in common;
    }
  }

  lemma OperationReportIsThere(f: Finding, path: string, verb: Method, b: Operation, h: Operation)
    ensures OperationReport(f, path, verb, b, h) ==> MethodOf(f.at) == Some((path, verb))
  {
    hide AtOperation, AtParameter, AtRequestMedia, AtResponse, AtResponseMedia;
  }

  lemma PathReportIsThere(f: Finding, path: string, b: PathItem, h: PathItem)
    ensures PathReport(f, path, b, h) ==> MethodOf(f.at).Some? && MethodOf(f.at).value.0 == path
  {
    hide OperationReport, KeyReport;
  }

  lemma InProperty(f: Finding, name: string, prop: string, was: bool, now: bool, b: ObjectSchema, h: ObjectSchema)
    ensures f in PropertyFindings(name, prop, was, now, b, h)
       <==> f.at == Member(PropertiesIn(name), prop)
            && (RequirednessReport(f, PropertyEntry, was, now) || SchemaReport(f, PropertyType, PropertyItemType, b, h))
  {
    hide RequirednessFindings, TypeFindings, ItemFindings, EnumFindings, RequirednessReport, TypeReport, ItemReport, EnumReport;
    var at := Member(PropertiesIn(name), prop);
    InRequiredness(f, PropertyEntry, at, was, now);
    InTypes(f, PropertyType, at, TypeOf(b), TypeOf(h));
    InItems(f, PropertyItemType, at, b, h);
    InEnums(f, at, b, h);
  }

  lemma InProperties(f: Finding, name: string, b: ObjectSchema, h: ObjectSchema)
    ensures (|| f in KeyChanges(PropertyEntry, PropertiesIn(name), PropertiesOf(b).Keys, PropertiesOf(h).Keys, RequiredOf(h))
             || f in Collect(Sorted(PropertiesOf(b).Keys * PropertiesOf(h).Keys), PropertyFindingsAt(name, b, h)))
       <==> f.at.Member? && f.at.scope == PropertiesIn(name) && AtProperty(f, f.at.name, b, h)
  {
    hide Sorted, Collect, KeyChanges, KeyReport, RequirednessReport, SchemaReport, PropertyFindings, PropertiesOf, RequiredOf;
    var g, common := PropertyFindingsAt(name, b, h), Sorted(PropertiesOf(b).Keys * PropertiesOf(h).Keys);
    InKeys(f, PropertyEntry, PropertiesIn(name), PropertiesOf(b).Keys, PropertiesOf(h).Keys, RequiredOf(h));
    InCollect(common, g, f);
    forall k | k in PropertiesOf(b) && k in PropertiesOf(h)
      ensures f in g(k) <==>
                && f.at == Member(PropertiesIn(name), k)
                && (|| RequirednessReport(f, PropertyEntry, k in RequiredOf(b), k in RequiredOf(h))
                    || SchemaReport(f, PropertyType, PropertyItemType, PropertiesOf(b)[k], PropertiesOf(h)[k]))
    {
      InProperty(f, name, k, k in RequiredOf(b), k in RequiredOf(h), PropertiesOf(b)[k], PropertiesOf(h)[k]);
    }
    if f.at.Member? && f.at.name in PropertiesOf(b) && f.at.name in PropertiesOf(h) { assert f.at.name in common; }
  }

  lemma InSchema(f: Finding, name: string, b: ObjectSchema, h: ObjectSchema)
    ensures f in SchemaFindings(name, b, h)
       <==> || (f.at == Member(AllSchemas, name) && TypeReport(f, SchemaKind, TypeOf(b), TypeOf(h)))
            || (f.at.Member? && f.at.scope == PropertiesIn(name) && AtProperty(f, f.at.name, b, h))
  {
    hide Sorted, Collect, KeyChanges, TypeFindings, TypeReport, AtProperty, PropertiesOf, RequiredOf;
    InTypes(f, SchemaKind, Member(AllSchemas, name), TypeOf(b), TypeOf(h));
    InProperties(f, name, b, h);
  }

  lemma InSchemas(f: Finding, b: map<string, ObjectSchema>, h: map<string, ObjectSchema>)
    ensures f in AllSchemaFindings(b, h)
       <==> f.at.Member? && match f.at.scope
                            case AllSchemas => AtSchema(f, f.at.name, b, h)
                            case PropertiesIn(n) => n in b && n in h && AtProperty(f, f.at.name, b[n], h[n])
                            case _ => false
  {
    hide Sorted, Collect, KeyChanges, KeyReport, TypeReport, AtProperty, SchemaFindings;
    var g, common := SchemaFindingsAt(b, h), Sorted(b.Keys * h.Keys);
    InKeys(f, SchemaName, AllSchemas, b.Keys, h.Keys, {});
    InCollect(common, g, f);
    forall n | n in b && n in h
      ensures f in g(n) <==> || (f.at == Member(AllSchemas, n) && TypeReport(f, SchemaKind, TypeOf(b[n]), TypeOf(h[n])))
                             || (f.at.Member? && f.at.scope == PropertiesIn(n) && AtProperty(f, f.at.name, b[n], h[n]))
    {
      InSchema(f, n, b[n], h[n]);
    }
    if f.at.Member? && f.at.name in b && f.at.name in h { assert f.at.name in common; }
    if f.at.Member? && f.at.scope.PropertiesIn? && f.at.scope.schema in b && f.at.scope.schema in h {
      assert f.at.scope.schema in common;
    }
  }

  lemma InComponents(f: Finding, b: Document, h: Document)
    ensures f in Collect(COMPONENT_SECTIONS, ComponentFindingsAt(b, h))
       <==> f.at.Member? && f.at.scope.ComponentsIn?
            && KeyReport(f, Component, f.at.name in Names(b, f.at.scope.section), f.at.name in Names(h, f.at.scope.section), false)
  {
    hide Collect, KeyChanges, KeyReport, Names;
    var g := ComponentFindingsAt(b, h);
    InCollect(COMPONENT_SECTIONS, g, f);
    forall s
      ensures s in COMPONENT_SECTIONS
      ensures f in g(s) <==> f.at.Member? && f.at.scope == ComponentsIn(s)
                             && KeyReport(f, Component, f.at.name in Names(b, s), f.at.name in Names(h, s), false)
    {
      EverySectionIsListed(s);
      InKeys(f, Component, ComponentsIn(s), Names(b, s), Names(h, s), {});
    }
  }

  lemma EverySectionIsListed(s: Section)
    ensures s in COMPONENT_SECTIONS
  {
    assert COMPONENT_SECTIONS[0] == SecuritySchemes && COMPONENT_SECTIONS[1] == Parameters;
    assert COMPONENT_SECTIONS[2] == RequestBodies && COMPONENT_SECTIONS[3] == Responses && COMPONENT_SECTIONS[4] == Headers;
  }

  lemma InTop(f: Finding, b: Document, h: Document)
    ensures f in TopFindings(b, h)
       <==> || (b.info != h.info && f == Finding(Changed(InfoBlock), TopLevel, Renamed(b.info, h.info), Info))
            || (f.at.Member? && f.at.scope == AllServers
                && KeyReport(f, ServerUrl, f.at.name in b.servers, f.at.name in h.servers, false))
  {
    hide KeyChanges, KeyReport;
    InKeys(f, ServerUrl, AllServers, ServersOf(b), ServersOf(h), {});
  }

  /** The diff reports exactly what is to be reported. */
  lemma ReportedExactly(b: Document, h: Document, f: Finding)
    ensures f in DiffFindings(b, h) <==> Reported(b, h, f)
  {
    hide TopFindings, AllPathFindings, AllSchemaFindings, Collect, KeyReport, PathReport, AtSchema, AtProperty, Names;
    InTop(f, b, h);
    InPaths(f, b.paths, h.paths);
    InSchemas(f, b.schemas, h.schemas);
    InComponents(f, b, h);
  }
}
