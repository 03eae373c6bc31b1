/** The findings of scripts/check_openapi_diff.py: what each `compare_*` function
    appends, and the appending code itself. */
module OpenApiDiff {
  import opened Wrappers
  import opened StringOrder
  import opened OpenApiDocument

  datatype Severity = Breaking | Additive | Info

  datatype Subject =
    | InfoBlock | ServerUrl | PathKey | MethodKey | OperationIdentifier
    | ParameterEntry | ParameterIn | ParameterType | ParameterItemType
    | BodyEntry | BodyMedia | ResponseCode | ResponseMediaKey | ResponseSchema
    | Security | SchemaName | SchemaKind | PropertyEntry | PropertyType
    | PropertyItemType | EnumValue | Component

  datatype Kind =
    | Removed(subject: Subject)
    | Added(subject: Subject)
    | BecameRequired(subject: Subject)
    | BecameOptional(subject: Subject)
    | Changed(subject: Subject)

  /** A family of named things that the two documents both enumerate. */
  datatype Scope =
    | AllServers
    | AllPaths
    | ParametersOf(path: string, verb: Method)
    | RequestMediaOf(path: string, verb: Method)
    | ResponsesOf(path: string, verb: Method)
    | ResponseMediaOf(path: string, verb: Method, code: string)
    | AllSchemas
    | PropertiesIn(schema: string)
    | ComponentsIn(section: Section)

  datatype Location =
    | TopLevel
    | OperationAt(path: string, verb: Method)
    | Member(scope: Scope, name: string)

  /** The part of a finding's detail that says what was there before and after. */
  datatype Note =
    | Plain
    | Moved(fromLocation: Option<string>, toLocation: Option<string>)
    | Retyped(before: Fingerprint, after: Fingerprint)
    | Renamed(oldText: string, newText: string)
    | Lost(id: string)
    | Dropped(values: seq<string>)

  datatype Finding = Finding(kind: Kind, at: Location, note: Note, severity: Severity)

  // ---- what is appended ----

  function When(c: bool, f: Finding): (r: seq<Finding>) {
    if c then [f] else []
  }

  /** The findings of a loop over `keys`, in loop order. */
  function Collect<K>(keys: seq<K>, f: K --> seq<Finding>): seq<Finding>
    requires forall k :: k in keys ==> f.requires(k)
  {
    if keys == [] then []
    else
      Collect(keys[..|keys| - 1], f) + f(keys[|keys| - 1])
  }

  function RemovedAt(subject: Subject, scope: Scope): string -> seq<Finding> {
    k => [Finding(Removed(subject), Member(scope, k), Plain, Breaking)]
  }

  /** Adding a key in `mandatory` is breaking. */
  function AddedAt(subject: Subject, scope: Scope, mandatory: set<string>): string -> seq<Finding> {
    k => [Finding(Added(subject), Member(scope, k), Plain,
                  if k in mandatory then Breaking else Additive)]
  }

  /** The two loops over `sorted(base - head)` and `sorted(head - base)`. */
  function KeyChanges(subject: Subject, scope: Scope,
                      base: set<string>, head: set<string>, mandatory: set<string>): seq<Finding>
  {
    Collect(Sorted(base - head), RemovedAt(subject, scope)) +
    Collect(Sorted(head - base), AddedAt(subject, scope, mandatory))
  }

  function RequirednessFindings(subject: Subject, at: Location, was: bool, now: bool): seq<Finding> {
    if !was && now then [Finding(BecameRequired(subject), at, Plain, Breaking)]
    else if was && !now then [Finding(BecameOptional(subject), at, Plain, Additive)]
    else []
  }

  function TypeFindings(subject: Subject, at: Location, b: Fingerprint, h: Fingerprint): seq<Finding> {
    When(b != h, Finding(Changed(subject), at, Retyped(b, h), Breaking))
  }

  /** Item types are compared only where both sides declare items. */
  function ItemFindings(subject: Subject, at: Location, b: ObjectSchema, h: ObjectSchema): seq<Finding> {
    if HasItems(b) && HasItems(h) then
      TypeFindings(subject, at, TypeOf(SchemaItems(b)), TypeOf(SchemaItems(h)))
    else
      []
  }

  /** `[v for v in base if v not in head]` */
  function DroppedValues(base: seq<string>, head: seq<string>): (r: seq<string>)
    ensures forall v :: v in r <==> v in base && v !in head
    ensures r == [] <==> forall v :: v in base ==> v in head
  {
    if base == [] then []
    else
      var v := base[|base| - 1];
      DroppedValues(base[..|base| - 1], head) + (if v in head then [] else [v])
  }

  /** Enum values are compared only where both sides list them. */
  function EnumFindings(at: Location, b: ObjectSchema, h: ObjectSchema): seq<Finding> {
    if b.enum.Some? && h.enum.Some? then
      var gone := DroppedValues(b.enum.value, h.enum.value);
      When(gone != [], Finding(Removed(EnumValue), at, Dropped(gone), Breaking))
    else
      []
  }

  function LocationFindings(at: Location, b: Option<string>, h: Option<string>): seq<Finding> {
    When(b != h, Finding(Changed(ParameterIn), at, Moved(b, h), Breaking))
  }

  function ParameterFindings(path: string, verb: Method, b: Parameter, h: Parameter): seq<Finding> {
    var at := Member(ParametersOf(path, verb), ParameterKey(b));
    RequirednessFindings(ParameterEntry, at, b.required, h.required) +
    LocationFindings(at, b.location, h.location) +
    TypeFindings(ParameterType, at, TypeOf(ParamSchema(b)), TypeOf(ParamSchema(h))) +
    ItemFindings(ParameterItemType, at, ParamSchema(b), ParamSchema(h)) +
    EnumFindings(at, ParamSchema(b), ParamSchema(h))
  }

  function ParameterFindingsAt(path: string, verb: Method,
                               b: map<string, Parameter>, h: map<string, Parameter>): string --> seq<Finding>
  {
    k requires k in b && k in h => ParameterFindings(path, verb, b[k], h[k])
  }

  function MandatoryParams(ps: map<string, Parameter>): set<string> {
    set k | k in ps && ps[k].required
  }

  function ParameterListFindings(path: string, verb: Method,
                                 b: map<string, Parameter>, h: map<string, Parameter>): seq<Finding>
  {
    KeyChanges(ParameterEntry, ParametersOf(path, verb), b.Keys, h.Keys, MandatoryParams(h)) +
    Collect(Sorted(b.Keys * h.Keys), ParameterFindingsAt(path, verb, b, h))
  }

  function RequestBodyFindings(path: string, verb: Method, b: RequestBody, h: RequestBody): seq<Finding> {
    RequirednessFindings(BodyEntry, OperationAt(path, verb), b.required, h.required) +
    KeyChanges(BodyMedia, RequestMediaOf(path, verb), b.content.Keys, h.content.Keys, {})
  }

  function BodyFindings(path: string, verb: Method,
                        b: Option<RequestBody>, h: Option<RequestBody>): seq<Finding>
  {
    var at := OperationAt(path, verb);
    if b.Some? && h.None? then [Finding(Removed(BodyEntry), at, Plain, Breaking)]
    else if b.None? && h.Some? then
      [Finding(Added(BodyEntry), at, Plain, if h.value.required then Breaking else Additive)]
    else if b.Some? && h.Some? then RequestBodyFindings(path, verb, b.value, h.value)
    else []
  }

  function MediaFindingsAt(path: string, verb: Method, code: string,
                           b: map<string, MediaType>, h: map<string, MediaType>): string --> seq<Finding>
  {
    m requires m in b && m in h =>
      TypeFindings(ResponseSchema, Member(ResponseMediaOf(path, verb, code), m),
                   MediaFingerprint(b[m]), MediaFingerprint(h[m]))
  }

  function ResponseFindings(path: string, verb: Method, code: string,
                            b: map<string, MediaType>, h: map<string, MediaType>): seq<Finding>
  {
    KeyChanges(ResponseMediaKey, ResponseMediaOf(path, verb, code), b.Keys, h.Keys, {}) +
    Collect(Sorted(b.Keys * h.Keys), MediaFindingsAt(path, verb, code, b, h))
  }

  function ResponseFindingsAt(path: string, verb: Method,
                              b: map<string, Response>, h: map<string, Response>): string --> seq<Finding>
  {
    c requires c in b && c in h => ResponseFindings(path, verb, c, b[c].content, h[c].content)
  }

  function ResponsesFindings(path: string, verb: Method,
                             b: map<string, Response>, h: map<string, Response>): seq<Finding>
  {
    KeyChanges(ResponseCode, ResponsesOf(path, verb), b.Keys, h.Keys, {}) +
    Collect(Sorted(b.Keys * h.Keys), ResponseFindingsAt(path, verb, b, h))
  }

  function OperationIdFindings(at: Location, b: Option<string>, h: Option<string>): seq<Finding> {
    if b.Some? && h.Some? && b != h then
      [Finding(Changed(OperationIdentifier), at, Renamed(b.value, h.value), Breaking)]
    else if b.Some? && h.None? then
      [Finding(Removed(OperationIdentifier), at, Lost(b.value), Breaking)]
    else []
  }

  function SecurityFindings(at: Location, b: set<set<string>>, h: set<set<string>>): seq<Finding> {
    if b == {} && h != {} then [Finding(Added(Security), at, Plain, Breaking)]
    else if b != {} && h == {} then [Finding(Removed(Security), at, Plain, Additive)]
    else When(b != h, Finding(Changed(Security), at, Plain, Breaking))
  }

  function OperationFindings(path: string, verb: Method, b: Operation, h: Operation): seq<Finding> {
    OperationIdFindings(OperationAt(path, verb), OperationId(b), OperationId(h)) +
    ParameterListFindings(path, verb, Params(b), Params(h)) +
    BodyFindings(path, verb, b.requestBody, h.requestBody) +
    ResponsesFindings(path, verb, b.responses, h.responses) +
    SecurityFindings(OperationAt(path, verb), SecurityOf(b), SecurityOf(h))
  }

  function RemovedMethodAt(path: string, b: PathItem, h: PathItem): Method -> seq<Finding> {
    m => When(m in b && m !in h, Finding(Removed(MethodKey), OperationAt(path, m), Plain, Breaking))
  }

  function AddedMethodAt(path: string, b: PathItem, h: PathItem): Method -> seq<Finding> {
    m => When(m in h && m !in b, Finding(Added(MethodKey), OperationAt(path, m), Plain, Additive))
  }

  function CommonMethodAt(path: string, b: PathItem, h: PathItem): Method -> seq<Finding> {
    m => if m in b && m in h then OperationFindings(path, m, b[m], h[m]) else []
  }

  function PathFindings(path: string, b: PathItem, h: PathItem): seq<Finding> {
    Collect(HTTP_METHODS, RemovedMethodAt(path, b, h)) +
    Collect(HTTP_METHODS, AddedMethodAt(path, b, h)) +
    Collect(HTTP_METHODS, CommonMethodAt(path, b, h))
  }

  function PathFindingsAt(b: map<string, PathItem>, h: map<string, PathItem>): string --> seq<Finding> {
    p requires p in b && p in h => PathFindings(p, b[p], h[p])
  }

  function PropertyFindings(name: string, prop: string, was: bool, now: bool,
                            b: ObjectSchema, h: ObjectSchema): seq<Finding>
  {
    var at := Member(PropertiesIn(name), prop);
    RequirednessFindings(PropertyEntry, at, was, now) +
    TypeFindings(PropertyType, at, TypeOf(b), TypeOf(h)) +
    ItemFindings(PropertyItemType, at, b, h) +
    EnumFindings(at, b, h)
  }

  function PropertyFindingsAt(name: string, b: ObjectSchema, h: ObjectSchema): string --> seq<Finding> {
    p requires p in PropertiesOf(b) && p in PropertiesOf(h) =>
      PropertyFindings(name, p, p in RequiredOf(b), p in RequiredOf(h),
                       PropertiesOf(b)[p], PropertiesOf(h)[p])
  }

  function SchemaFindings(name: string, b: ObjectSchema, h: ObjectSchema): seq<Finding> {
    TypeFindings(SchemaKind, Member(AllSchemas, name), TypeOf(b), TypeOf(h)) +
    KeyChanges(PropertyEntry, PropertiesIn(name), PropertiesOf(b).Keys, PropertiesOf(h).Keys, RequiredOf(h)) +
    Collect(Sorted(PropertiesOf(b).Keys * PropertiesOf(h).Keys), PropertyFindingsAt(name, b, h))
  }

  function SchemaFindingsAt(b: map<string, ObjectSchema>, h: map<string, ObjectSchema>): string --> seq<Finding> {
    n requires n in b && n in h => SchemaFindings(n, b[n], h[n])
  }

  function ComponentFindingsAt(b: Document, h: Document): Section -> seq<Finding> {
    s => KeyChanges(Component, ComponentsIn(s), Names(b, s), Names(h, s), {})
  }

  function TopFindings(b: Document, h: Document): seq<Finding> {
    When(b.info != h.info, Finding(Changed(InfoBlock), TopLevel, Renamed(b.info, h.info), Info)) +
    KeyChanges(ServerUrl, AllServers, ServersOf(b), ServersOf(h), {})
  }

  function AllPathFindings(b: map<string, PathItem>, h: map<string, PathItem>): seq<Finding> {
    KeyChanges(PathKey, AllPaths, b.Keys, h.Keys, {}) +
    Collect(Sorted(b.Keys * h.Keys), PathFindingsAt(b, h))
  }

  function AllSchemaFindings(b: map<string, ObjectSchema>, h: map<string, ObjectSchema>): seq<Finding> {
    KeyChanges(SchemaName, AllSchemas, b.Keys, h.Keys, {}) +
    Collect(Sorted(b.Keys * h.Keys), SchemaFindingsAt(b, h))
  }

  /** Everything `diff_specs(base, head)` returns, in order. */
  function DiffFindings(b: Document, h: Document): seq<Finding> {
    TopFindings(b, h) +
    AllPathFindings(b.paths, h.paths) +
    AllSchemaFindings(b.schemas, h.schemas) +
    Collect(COMPONENT_SECTIONS, ComponentFindingsAt(b, h))
  }

  // ---- the appending code ----

  /** The findings list that every comparison is handed and appends to. */
  class FindingLog {
    var items: seq<Finding>

    constructor ()
      ensures items == []
    {
      items := [];
    }

    method Append(f: Finding)
      modifies this
      ensures items == old(items) + [f]
    {
      items := items + [f];
    }
  }

  // Appending pieces one by one is appending their concatenation.

  lemma Join(pre: seq<Finding>, a: seq<Finding>, b: seq<Finding>)
    ensures pre + a + b == pre + (a + b)
  {
  }

  lemma Join3(pre: seq<Finding>, a: seq<Finding>, b: seq<Finding>, c: seq<Finding>)
    ensures pre + a + b + c == pre + (a + b + c)
  {
    Join(pre, a, b);
    Join(pre, a + b, c);
  }

  lemma Join4(pre: seq<Finding>, a: seq<Finding>, b: seq<Finding>, c: seq<Finding>, d: seq<Finding>)
    ensures pre + a + b + c + d == pre + (a + b + c + d)
  {
    Join3(pre, a, b, c);
    Join(pre, a + b + c, d);
  }

  lemma Join5(pre: seq<Finding>, a: seq<Finding>, b: seq<Finding>, c: seq<Finding>, d: seq<Finding>,
              e: seq<Finding>)
    ensures pre + a + b + c + d + e == pre + (a + b + c + d + e)
  {
    Join4(pre, a, b, c, d);
    Join(pre, a + b + c + d, e);
  }

  /** One more turn of a loop over `keys`. */
  lemma CollectStep<K>(keys: seq<K>, f: K --> seq<Finding>, i: nat)
    requires i < |keys|
    requires forall k :: k in keys ==> f.requires(k)
    ensures Collect(keys[..i + 1], f) == Collect(keys[..i], f) + f(keys[i])
  {
    assert keys[..i + 1][..i] == keys[..i];
  }

  method ReportRemoved(subject: Subject, scope: Scope, keys: seq<string>, findings: FindingLog)
    modifies findings
    ensures findings.items == old(findings.items) + Collect(keys, RemovedAt(subject, scope))
  {
    for i := 0 to |keys|
      invariant findings.items == old(findings.items) + Collect(keys[..i], RemovedAt(subject, scope))
    {
      CollectStep(keys, RemovedAt(subject, scope), i);
      findings.Append(Finding(Removed(subject), Member(scope, keys[i]), Plain, Breaking));
    }
    assert keys[..|keys|] == keys;
  }

  method ReportAdded(subject: Subject, scope: Scope, keys: seq<string>, mandatory: set<string>,
                     findings: FindingLog)
    modifies findings
    ensures findings.items == old(findings.items) + Collect(keys, AddedAt(subject, scope, mandatory))
  {
    for i := 0 to |keys|
      invariant findings.items == old(findings.items) + Collect(keys[..i], AddedAt(subject, scope, mandatory))
    {
      CollectStep(keys, AddedAt(subject, scope, mandatory), i);
      var severity := if keys[i] in mandatory then Breaking else Additive;
      findings.Append(Finding(Added(subject), Member(scope, keys[i]), Plain, severity));
    }
    assert keys[..|keys|] == keys;
  }

  method CompareKeys(subject: Subject, scope: Scope, base: set<string>, head: set<string>,
                     mandatory: set<string>, findings: FindingLog)
    modifies findings
    ensures findings.items == old(findings.items) + KeyChanges(subject, scope, base, head, mandatory)
  {
    ReportRemoved(subject, scope, Sorted(base - head), findings);
    ReportAdded(subject, scope, Sorted(head - base), mandatory, findings);
    Join(old(findings.items), Collect(Sorted(base - head), RemovedAt(subject, scope)),
          Collect(Sorted(head - base), AddedAt(subject, scope, mandatory)));
  }

  method CompareRequiredness(subject: Subject, at: Location, was: bool, now: bool, findings: FindingLog)
    modifies findings
    ensures findings.items == old(findings.items) + RequirednessFindings(subject, at, was, now)
  {
    if was && !now {
      findings.Append(Finding(BecameOptional(subject), at, Plain, Additive));
    } else if !was && now {
      findings.Append(Finding(BecameRequired(subject), at, Plain, Breaking));
    }
  }

  method CompareTypes(subject: Subject, at: Location, was: Fingerprint, now: Fingerprint, findings: FindingLog)
    modifies findings
    ensures findings.items == old(findings.items) + TypeFindings(subject, at, was, now)
  {
    if was != now {
      findings.Append(Finding(Changed(subject), at, Retyped(was, now), Breaking));
    }
  }

  method CompareItems(subject: Subject, at: Location, b: ObjectSchema, h: ObjectSchema, findings: FindingLog)
    modifies findings
    ensures findings.items == old(findings.items) + ItemFindings(subject, at, b, h)
  {
    var bItems, hItems := SchemaItems(b), SchemaItems(h);
    if bItems != EMPTY_SCHEMA && hItems != EMPTY_SCHEMA && TypeOf(bItems) != TypeOf(hItems) {
      findings.Append(Finding(Changed(subject), at, Retyped(TypeOf(bItems), TypeOf(hItems)), Breaking));
    }
  }

  method CompareEnums(at: Location, b: ObjectSchema, h: ObjectSchema, findings: FindingLog)
    modifies findings
    ensures findings.items == old(findings.items) + EnumFindings(at, b, h)
  {
    if b.enum.Some? && h.enum.Some? {
      var gone := DroppedValues(b.enum.value, h.enum.value);
      if gone != [] {
        findings.Append(Finding(Removed(EnumValue), at, Dropped(gone), Breaking));
      }
    }
  }

  method CompareLocations(at: Location, b: Option<string>, h: Option<string>, findings: FindingLog)
    modifies findings
    ensures findings.items == old(findings.items) + LocationFindings(at, b, h)
  {
    if b != h {
      findings.Append(Finding(Changed(ParameterIn), at, Moved(b, h), Breaking));
    }
  }

  method CompareParameter(path: string, verb: Method, b: Parameter, h: Parameter, findings: FindingLog)
    modifies findings
    ensures findings.items == old(findings.items) + ParameterFindings(path, verb, b, h)
  {
    var at := Member(ParametersOf(path, verb), ParameterKey(b));
    var bSchema, hSchema := ParamSchema(b), ParamSchema(h);
    CompareRequiredness(ParameterEntry, at, b.required, h.required, findings);
    CompareLocations(at, b.location, h.location, findings);
    CompareTypes(ParameterType, at, TypeOf(bSchema), TypeOf(hSchema), findings);
    CompareItems(ParameterItemType, at, bSchema, hSchema, findings);
    CompareEnums(at, bSchema, hSchema, findings);
    Join5(old(findings.items), RequirednessFindings(ParameterEntry, at, b.required, h.required),
          LocationFindings(at, b.location, h.location),
          TypeFindings(ParameterType, at, TypeOf(bSchema), TypeOf(hSchema)),
          ItemFindings(ParameterItemType, at, bSchema, hSchema), EnumFindings(at, bSchema, hSchema));
  }

  method CompareCommonParameters(path: string, verb: Method, b: map<string, Parameter>, h: map<string, Parameter>,
                                 keys: seq<string>, findings: FindingLog)
    requires forall k :: k in keys ==> k in b && k in h
    modifies findings
    ensures findings.items == old(findings.items) + Collect(keys, ParameterFindingsAt(path, verb, b, h))
  {
    ghost var f := ParameterFindingsAt(path, verb, b, h);
    for i := 0 to |keys|
      invariant findings.items == old(findings.items) + Collect(keys[..i], f)
    {
      CompareParameter(path, verb, b[keys[i]], h[keys[i]], findings);
      CollectStep(keys, f, i);
      Join(old(findings.items), Collect(keys[..i], f), f(keys[i]));
    }
    assert keys[..|keys|] == keys;
  }

  method CompareParameters(path: string, verb: Method, b: map<string, Parameter>, h: map<string, Parameter>,
                           findings: FindingLog)
    modifies findings
    ensures findings.items == old(findings.items) + ParameterListFindings(path, verb, b, h)
  {
    var scope := ParametersOf(path, verb);
    CompareKeys(ParameterEntry, scope, b.Keys, h.Keys, MandatoryParams(h), findings);
    CompareCommonParameters(path, verb, b, h, Sorted(b.Keys * h.Keys), findings);
    Join(old(findings.items), KeyChanges(ParameterEntry, scope, b.Keys, h.Keys, MandatoryParams(h)),
         Collect(Sorted(b.Keys * h.Keys), ParameterFindingsAt(path, verb, b, h)));
  }

  method CompareRequestBody(path: string, verb: Method, b: RequestBody, h: RequestBody, findings: FindingLog)
    modifies findings
    ensures findings.items == old(findings.items) + RequestBodyFindings(path, verb, b, h)
  {
    CompareRequiredness(BodyEntry, OperationAt(path, verb), b.required, h.required, findings);
    CompareKeys(BodyMedia, RequestMediaOf(path, verb), b.content.Keys, h.content.Keys, {}, findings);
    Join(old(findings.items), RequirednessFindings(BodyEntry, OperationAt(path, verb), b.required, h.required),
         KeyChanges(BodyMedia, RequestMediaOf(path, verb), b.content.Keys, h.content.Keys, {}));
  }

  method CompareBodies(path: string, verb: Method, b: Option<RequestBody>, h: Option<RequestBody>,
                       findings: FindingLog)
    modifies findings
    ensures findings.items == old(findings.items) + BodyFindings(path, verb, b, h)
  {
    var at := OperationAt(path, verb);
    if b.Some? && h.None? {
      findings.Append(Finding(Removed(BodyEntry), at, Plain, Breaking));
    } else if b.None? && h.Some? {
      var severity := if h.value.required then Breaking else Additive;
      findings.Append(Finding(Added(BodyEntry), at, Plain, severity));
    } else if b.Some? && h.Some? {
      CompareRequestBody(path, verb, b.value, h.value, findings);
    }
  }

  method CompareCommonMedia(path: string, verb: Method, code: string,
                            b: map<string, MediaType>, h: map<string, MediaType>,
                            keys: seq<string>, findings: FindingLog)
    requires forall k :: k in keys ==> k in b && k in h
    modifies findings
    ensures findings.items == old(findings.items) + Collect(keys, MediaFindingsAt(path, verb, code, b, h))
  {
    ghost var f := MediaFindingsAt(path, verb, code, b, h);
    for i := 0 to |keys|
      invariant findings.items == old(findings.items) + Collect(keys[..i], f)
    {
      CompareTypes(ResponseSchema, Member(ResponseMediaOf(path, verb, code), keys[i]),
                   MediaFingerprint(b[keys[i]]), MediaFingerprint(h[keys[i]]), findings);
      CollectStep(keys, f, i);
      Join(old(findings.items), Collect(keys[..i], f), f(keys[i]));
    }
    assert keys[..|keys|] == keys;
  }

  method CompareResponseMedia(path: string, verb: Method, code: string,
                              b: map<string, MediaType>, h: map<string, MediaType>, findings: FindingLog)
    modifies findings
    ensures findings.items == old(findings.items) + ResponseFindings(path, verb, code, b, h)
  {
    CompareKeys(ResponseMediaKey, ResponseMediaOf(path, verb, code), b.Keys, h.Keys, {}, findings);
    CompareCommonMedia(path, verb, code, b, h, Sorted(b.Keys * h.Keys), findings);
    Join(old(findings.items), KeyChanges(ResponseMediaKey, ResponseMediaOf(path, verb, code), b.Keys, h.Keys, {}),
         Collect(Sorted(b.Keys * h.Keys), MediaFindingsAt(path, verb, code, b, h)));
  }

  method CompareCommonResponses(path: string, verb: Method, b: map<string, Response>, h: map<string, Response>,
                                keys: seq<string>, findings: FindingLog)
    requires forall k :: k in keys ==> k in b && k in h
    modifies findings
    ensures findings.items == old(findings.items) + Collect(keys, ResponseFindingsAt(path, verb, b, h))
  {
    ghost var f := ResponseFindingsAt(path, verb, b, h);
    for i := 0 to |keys|
      invariant findings.items == old(findings.items) + Collect(keys[..i], f)
    {
      CompareResponseMedia(path, verb, keys[i], b[keys[i]].content, h[keys[i]].content, findings);
      CollectStep(keys, f, i);
      Join(old(findings.items), Collect(keys[..i], f), f(keys[i]));
    }
    assert keys[..|keys|] == keys;
  }

  method CompareResponses(path: string, verb: Method, b: map<string, Response>, h: map<string, Response>,
                          findings: FindingLog)
    modifies findings
    ensures findings.items == old(findings.items) + ResponsesFindings(path, verb, b, h)
  {
    CompareKeys(ResponseCode, ResponsesOf(path, verb), b.Keys, h.Keys, {}, findings);
    CompareCommonResponses(path, verb, b, h, Sorted(b.Keys * h.Keys), findings);
    Join(old(findings.items), KeyChanges(ResponseCode, ResponsesOf(path, verb), b.Keys, h.Keys, {}),
         Collect(Sorted(b.Keys * h.Keys), ResponseFindingsAt(path, verb, b, h)));
  }

  method CompareOperationIds(at: Location, b: Option<string>, h: Option<string>, findings: FindingLog)
    modifies findings
    ensures findings.items == old(findings.items) + OperationIdFindings(at, b, h)
  {
    if b.Some? && h.Some? && b != h {
      findings.Append(Finding(Changed(OperationIdentifier), at, Renamed(b.value, h.value), Breaking));
    } else if b.Some? && h.None? {
      findings.Append(Finding(Removed(OperationIdentifier), at, Lost(b.value), Breaking));
    }
  }

  method CompareSecurity(at: Location, b: set<set<string>>, h: set<set<string>>, findings: FindingLog)
    modifies findings
    ensures findings.items == old(findings.items) + SecurityFindings(at, b, h)
  {
    if b == {} && h != {} {
      findings.Append(Finding(Added(Security), at, Plain, Breaking));
    } else if b != {} && h == {} {
      findings.Append(Finding(Removed(Security), at, Plain, Additive));
    } else if b != h {
      findings.Append(Finding(Changed(Security), at, Plain, Breaking));
    }
  }

  method CompareOperation(path: string, verb: Method, b: Operation, h: Operation, findings: FindingLog)
    modifies findings
    ensures findings.items == old(findings.items) + OperationFindings(path, verb, b, h)
  {
    var at := OperationAt(path, verb);
    CompareOperationIds(at, OperationId(b), OperationId(h), findings);
    CompareParameters(path, verb, Params(b), Params(h), findings);
    CompareBodies(path, verb, b.requestBody, h.requestBody, findings);
    CompareResponses(path, verb, b.responses, h.responses, findings);
    CompareSecurity(at, SecurityOf(b), SecurityOf(h), findings);
    Join5(old(findings.items), OperationIdFindings(at, OperationId(b), OperationId(h)),
          ParameterListFindings(path, verb, Params(b), Params(h)),
          BodyFindings(path, verb, b.requestBody, h.requestBody),
          ResponsesFindings(path, verb, b.responses, h.responses),
          SecurityFindings(at, SecurityOf(b), SecurityOf(h)));
  }

  method ReportRemovedMethods(path: string, b: PathItem, h: PathItem, findings: FindingLog)
    modifies findings
    ensures findings.items == old(findings.items) + Collect(HTTP_METHODS, RemovedMethodAt(path, b, h))
  {
    ghost var f := RemovedMethodAt(path, b, h);
    for i := 0 to |HTTP_METHODS|
      invariant findings.items == old(findings.items) + Collect(HTTP_METHODS[..i], f)
    {
      var m := HTTP_METHODS[i];
      if m in b && m !in h {
        findings.Append(Finding(Removed(MethodKey), OperationAt(path, m), Plain, Breaking));
      }
      CollectStep(HTTP_METHODS, f, i);
      Join(old(findings.items), Collect(HTTP_METHODS[..i], f), f(m));
    }
    assert HTTP_METHODS[..|HTTP_METHODS|] == HTTP_METHODS;
  }

  method ReportAddedMethods(path: string, b: PathItem, h: PathItem, findings: FindingLog)
    modifies findings
    ensures findings.items == old(findings.items) + Collect(HTTP_METHODS, AddedMethodAt(path, b, h))
  {
    ghost var f := AddedMethodAt(path, b, h);
    for i := 0 to |HTTP_METHODS|
      invariant findings.items == old(findings.items) + Collect(HTTP_METHODS[..i], f)
    {
      var m := HTTP_METHODS[i];
      if m in h && m !in b {
        findings.Append(Finding(Added(MethodKey), OperationAt(path, m), Plain, Additive));
      }
      CollectStep(HTTP_METHODS, f, i);
      Join(old(findings.items), Collect(HTTP_METHODS[..i], f), f(m));
    }
    assert HTTP_METHODS[..|HTTP_METHODS|] == HTTP_METHODS;
  }

  method CompareCommonMethods(path: string, b: PathItem, h: PathItem, findings: FindingLog)
    modifies findings
    ensures findings.items == old(findings.items) + Collect(HTTP_METHODS, CommonMethodAt(path, b, h))
  {
    ghost var f := CommonMethodAt(path, b, h);
    for i := 0 to |HTTP_METHODS|
      invariant findings.items == old(findings.items) + Collect(HTTP_METHODS[..i], f)
    {
      var m := HTTP_METHODS[i];
      if m in b && m in h {
        CompareOperation(path, m, b[m], h[m], findings);
      }
      CollectStep(HTTP_METHODS, f, i);
      Join(old(findings.items), Collect(HTTP_METHODS[..i], f), f(m));
    }
    assert HTTP_METHODS[..|HTTP_METHODS|] == HTTP_METHODS;
  }

  method CompareMethods(path: string, b: PathItem, h: PathItem, findings: FindingLog)
    modifies findings
    ensures findings.items == old(findings.items) + PathFindings(path, b, h)
  {
    ReportRemovedMethods(path, b, h, findings);
    ReportAddedMethods(path, b, h, findings);
    CompareCommonMethods(path, b, h, findings);
    Join3(old(findings.items), Collect(HTTP_METHODS, RemovedMethodAt(path, b, h)),
          Collect(HTTP_METHODS, AddedMethodAt(path, b, h)), Collect(HTTP_METHODS, CommonMethodAt(path, b, h)));
  }

  method CompareProperty(name: string, prop: string, was: bool, now: bool, b: ObjectSchema, h: ObjectSchema,
                         findings: FindingLog)
    modifies findings
    ensures findings.items == old(findings.items) + PropertyFindings(name, prop, was, now, b, h)
  {
    var at := Member(PropertiesIn(name), prop);
    CompareRequiredness(PropertyEntry, at, was, now, findings);
    CompareTypes(PropertyType, at, TypeOf(b), TypeOf(h), findings);
    CompareItems(PropertyItemType, at, b, h, findings);
    CompareEnums(at, b, h, findings);
    Join4(old(findings.items), RequirednessFindings(PropertyEntry, at, was, now),
          TypeFindings(PropertyType, at, TypeOf(b), TypeOf(h)),
          ItemFindings(PropertyItemType, at, b, h), EnumFindings(at, b, h));
  }

  method CompareCommonProperties(name: string, b: ObjectSchema, h: ObjectSchema, keys: seq<string>,
                                 findings: FindingLog)
    requires forall k :: k in keys ==> k in PropertiesOf(b) && k in PropertiesOf(h)
    modifies findings
    ensures findings.items == old(findings.items) + Collect(keys, PropertyFindingsAt(name, b, h))
  {
    ghost var f := PropertyFindingsAt(name, b, h);
    for i := 0 to |keys|
      invariant findings.items == old(findings.items) + Collect(keys[..i], f)
    {
      CompareProperty(name, keys[i], keys[i] in RequiredOf(b), keys[i] in RequiredOf(h),
                      PropertiesOf(b)[keys[i]], PropertiesOf(h)[keys[i]], findings);
      CollectStep(keys, f, i);
      Join(old(findings.items), Collect(keys[..i], f), f(keys[i]));
    }
    assert keys[..|keys|] == keys;
  }

  method CompareSchema(name: string, b: ObjectSchema, h: ObjectSchema, findings: FindingLog)
    modifies findings
    ensures findings.items == old(findings.items) + SchemaFindings(name, b, h)
  {
    var bKeys, hKeys := PropertiesOf(b).Keys, PropertiesOf(h).Keys;
    CompareTypes(SchemaKind, Member(AllSchemas, name), TypeOf(b), TypeOf(h), findings);
    CompareKeys(PropertyEntry, PropertiesIn(name), bKeys, hKeys, RequiredOf(h), findings);
    CompareCommonProperties(name, b, h, Sorted(bKeys * hKeys), findings);
    Join3(old(findings.items), TypeFindings(SchemaKind, Member(AllSchemas, name), TypeOf(b), TypeOf(h)),
          KeyChanges(PropertyEntry, PropertiesIn(name), bKeys, hKeys, RequiredOf(h)),
          Collect(Sorted(bKeys * hKeys), PropertyFindingsAt(name, b, h)));
  }

  method CompareCommonPaths(b: map<string, PathItem>, h: map<string, PathItem>, keys: seq<string>,
                            findings: FindingLog)
    requires forall k :: k in keys ==> k in b && k in h
    modifies findings
    ensures findings.items == old(findings.items) + Collect(keys, PathFindingsAt(b, h))
  {
    ghost var f := PathFindingsAt(b, h);
    for i := 0 to |keys|
      invariant findings.items == old(findings.items) + Collect(keys[..i], f)
    {
      CompareMethods(keys[i], b[keys[i]], h[keys[i]], findings);
      CollectStep(keys, f, i);
      Join(old(findings.items), Collect(keys[..i], f), f(keys[i]));
    }
    assert keys[..|keys|] == keys;
  }

  method ComparePaths(b: map<string, PathItem>, h: map<string, PathItem>, findings: FindingLog)
    modifies findings
    ensures findings.items == old(findings.items) + AllPathFindings(b, h)
  {
    CompareKeys(PathKey, AllPaths, b.Keys, h.Keys, {}, findings);
    CompareCommonPaths(b, h, Sorted(b.Keys * h.Keys), findings);
    Join(old(findings.items), KeyChanges(PathKey, AllPaths, b.Keys, h.Keys, {}),
         Collect(Sorted(b.Keys * h.Keys), PathFindingsAt(b, h)));
  }

  method CompareCommonSchemas(b: map<string, ObjectSchema>, h: map<string, ObjectSchema>, keys: seq<string>,
                              findings: FindingLog)
    requires forall k :: k in keys ==> k in b && k in h
    modifies findings
    ensures findings.items == old(findings.items) + Collect(keys, SchemaFindingsAt(b, h))
  {
    ghost var f := SchemaFindingsAt(b, h);
    for i := 0 to |keys|
      invariant findings.items == old(findings.items) + Collect(keys[..i], f)
    {
      CompareSchema(keys[i], b[keys[i]], h[keys[i]], findings);
      CollectStep(keys, f, i);
      Join(old(findings.items), Collect(keys[..i], f), f(keys[i]));
    }
    assert keys[..|keys|] == keys;
  }

  method CompareSchemas(b: map<string, ObjectSchema>, h: map<string, ObjectSchema>, findings: FindingLog)
    modifies findings
    ensures findings.items == old(findings.items) + AllSchemaFindings(b, h)
  {
    CompareKeys(SchemaName, AllSchemas, b.Keys, h.Keys, {}, findings);
    CompareCommonSchemas(b, h, Sorted(b.Keys * h.Keys), findings);
    Join(old(findings.items), KeyChanges(SchemaName, AllSchemas, b.Keys, h.Keys, {}),
         Collect(Sorted(b.Keys * h.Keys), SchemaFindingsAt(b, h)));
  }

  method CompareTop(b: Document, h: Document, findings: FindingLog)
    modifies findings
    ensures findings.items == old(findings.items) + TopFindings(b, h)
  {
    var reworded := Finding(Changed(InfoBlock), TopLevel, Renamed(b.info, h.info), Info);
    if b.info != h.info {
      findings.Append(reworded);
    }
    CompareKeys(ServerUrl, AllServers, ServersOf(b), ServersOf(h), {}, findings);
    Join(old(findings.items), When(b.info != h.info, reworded),
         KeyChanges(ServerUrl, AllServers, ServersOf(b), ServersOf(h), {}));
  }

  method CompareComponents(b: Document, h: Document, findings: FindingLog)
    modifies findings
    ensures findings.items == old(findings.items) + Collect(COMPONENT_SECTIONS, ComponentFindingsAt(b, h))
  {
    ghost var f := ComponentFindingsAt(b, h);
    for i := 0 to |COMPONENT_SECTIONS|
      invariant findings.items == old(findings.items) + Collect(COMPONENT_SECTIONS[..i], f)
    {
      var s := COMPONENT_SECTIONS[i];
      CompareKeys(Component, ComponentsIn(s), Names(b, s), Names(h, s), {}, findings);
      CollectStep(COMPONENT_SECTIONS, f, i);
      Join(old(findings.items), Collect(COMPONENT_SECTIONS[..i], f), f(s));
    }
    assert COMPONENT_SECTIONS[..|COMPONENT_SECTIONS|] == COMPONENT_SECTIONS;
  }

  /** `diff_specs`: info and servers, then paths, then schemas, then components. */
  method DiffSpecs(b: Document, h: Document) returns (r: seq<Finding>)
    ensures r == DiffFindings(b, h)
  {
    var findings := new FindingLog();
    CompareTop(b, h, findings);
    ComparePaths(b.paths, h.paths, findings);
    CompareSchemas(b.schemas, h.schemas, findings);
    CompareComponents(b, h, findings);
    Join4([], TopFindings(b, h), AllPathFindings(b.paths, h.paths), AllSchemaFindings(b.schemas, h.schemas),
          Collect(COMPONENT_SECTIONS, ComponentFindingsAt(b, h)));
    r := findings.items;
  }
}
