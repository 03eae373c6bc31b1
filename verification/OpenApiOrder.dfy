/** The order of a diff: the findings come in the order of the comparisons, names in
    ascending order, and so each of them comes once. */
module OpenApiOrder {
  import opened Wrappers
  import opened StringOrder
  import opened OpenApiDocument
  import opened OpenApiDiff
  import opened OpenApiReported

  // ---- which of two findings comes first ----

  ghost predicate Earlier(x: string, y: string) {
    x != y && Leq(x, y)
  }

  /** By the number, and by the name where the numbers are equal. */
  ghost predicate ByNumber(i: nat, x: string, j: nat, y: string) {
    i < j || (i == j && Earlier(x, y))
  }

  ghost function NameOf(f: Finding): string {
    if f.at.Member? then f.at.name else ""
  }

  /** Lost names, then new ones, then what is in both. */
  ghost function Turn(f: Finding, entry: Subject): nat {
    if f.kind == Removed(entry) then 0 else if f.kind == Added(entry) then 1 else 2
  }

  /** Requiredness, place, type, items, enum. */
  ghost function Aspect(f: Finding): nat {
    match f.kind
    case Changed(ParameterIn) => 1
    case Changed(ParameterType) => 2
    case Changed(PropertyType) => 2
    case Changed(ParameterItemType) => 3
    case Changed(PropertyItemType) => 3
    case Removed(EnumValue) => 4
    case _ => 0
  }

  /** Parameters of one operation, or properties of one schema. */
  ghost predicate EntryFirst(f: Finding, g: Finding, entry: Subject) {
    || ByNumber(Turn(f, entry), NameOf(f), Turn(g, entry), NameOf(g))
    || (Turn(f, entry) == Turn(g, entry) && NameOf(f) == NameOf(g) && Aspect(f) < Aspect(g))
  }

  ghost predicate KeyFirst(f: Finding, g: Finding, entry: Subject) {
    ByNumber(Turn(f, entry), NameOf(f), Turn(g, entry), NameOf(g))
  }

  ghost function CodeOf(f: Finding): string {
    if f.at.Member? && f.at.scope.ResponseMediaOf? then f.at.scope.code else ""
  }

  /** Codes that only one side has come first; then code by code the media types. */
  ghost predicate ResponseFirst(f: Finding, g: Finding) {
    || (KeyFirst(f, g, ResponseCode) && Turn(f, ResponseCode) < 2)
    || (Turn(f, ResponseCode) == 2 == Turn(g, ResponseCode)
        && (Earlier(CodeOf(f), CodeOf(g)) || (CodeOf(f) == CodeOf(g) && KeyFirst(f, g, ResponseMediaKey))))
  }

  /** Id, parameters, body, media types of the body, responses, security. */
  ghost function OperationPart(f: Finding): nat {
    match f.at
    case Member(ParametersOf(_, _), _) => 1
    case Member(RequestMediaOf(_, _), _) => 3
    case Member(ResponsesOf(_, _), _) => 4
    case Member(ResponseMediaOf(_, _, _), _) => 4
    case _ => if f.kind.subject == OperationIdentifier then 0 else if f.kind.subject == BodyEntry then 2 else 5
  }

  ghost predicate OperationFirst(f: Finding, g: Finding) {
    || OperationPart(f) < OperationPart(g)
    || (OperationPart(f) == OperationPart(g) == 1 && EntryFirst(f, g, ParameterEntry))
    || (OperationPart(f) == OperationPart(g) == 3 && KeyFirst(f, g, BodyMedia))
    || (OperationPart(f) == OperationPart(g) == 4 && ResponseFirst(f, g))
  }

  function MethodIndex(m: Method): nat {
    match m
    case GET => 0 case PUT => 1 case POST => 2 case DELETE => 3
    case OPTIONS => 4 case HEAD => 5 case PATCH => 6 case TRACE => 7
  }

  ghost function VerbOf(f: Finding): nat {
    if MethodOf(f.at).Some? then MethodIndex(MethodOf(f.at).value.1) else 0
  }

  /** Lost methods, new methods, and then method by method. */
  ghost predicate PathFirst(f: Finding, g: Finding) {
    || Turn(f, MethodKey) < Turn(g, MethodKey)
    || (Turn(f, MethodKey) == Turn(g, MethodKey)
        && (|| VerbOf(f) < VerbOf(g)
            || (Turn(f, MethodKey) == 2 && VerbOf(f) == VerbOf(g) && OperationFirst(f, g))))
  }

  ghost function PathOf(f: Finding): string {
    if MethodOf(f.at).Some? then MethodOf(f.at).value.0 else ""
  }

  ghost function SchemaOf(f: Finding): string {
    match f.at
    case Member(AllSchemas, n) => n
    case Member(PropertiesIn(n), _) => n
    case _ => ""
  }

  /** The type of a schema, and then its properties. */
  ghost predicate SchemaFirst(f: Finding, g: Finding) {
    || (f.kind == Changed(SchemaKind) && g.kind != Changed(SchemaKind))
    || (f.kind != Changed(SchemaKind) && g.kind != Changed(SchemaKind) && EntryFirst(f, g, PropertyEntry))
  }

  function SectionIndex(s: Section): nat {
    match s
    case SecuritySchemes => 0 case Parameters => 1 case RequestBodies => 2 case Responses => 3 case Headers => 4
  }

  ghost function SectionOf(f: Finding): nat {
    if f.at.Member? && f.at.scope.ComponentsIn? then SectionIndex(f.at.scope.section) else 0
  }

  /** Info, servers, lost and new paths, paths, lost and new schemas, schemas, components. */
  ghost function Part(f: Finding): nat {
    match f.at
    case TopLevel => 0
    case Member(AllServers, _) => 1
    case Member(AllPaths, _) => 2
    case Member(AllSchemas, _) => if f.kind == Changed(SchemaKind) then 5 else 4
    case Member(PropertiesIn(_), _) => 5
    case Member(ComponentsIn(_), _) => 6
    case _ => 3
  }

  /** `f` comes before `g`. */
  ghost predicate First(f: Finding, g: Finding) {
    || Part(f) < Part(g)
    || (Part(f) == Part(g)
        && match Part(f)
           case 1 => KeyFirst(f, g, ServerUrl)
           case 2 => KeyFirst(f, g, PathKey)
           case 3 => Earlier(PathOf(f), PathOf(g)) || (PathOf(f) == PathOf(g) && PathFirst(f, g))
           case 4 => KeyFirst(f, g, SchemaName)
           case 5 => Earlier(SchemaOf(f), SchemaOf(g)) || (SchemaOf(f) == SchemaOf(g) && SchemaFirst(f, g))
           case 6 => SectionOf(f) < SectionOf(g) || (SectionOf(f) == SectionOf(g) && KeyFirst(f, g, Component))
           case _ => false)
  }

  /** Nothing comes before itself, so that in an ordered list everything comes once. */
  lemma NeverBeforeItself(f: Finding)
    ensures !First(f, f)
  {
  }

  // ---- ordered lists, for any order ----

  ghost predicate Ordered(fs: seq<Finding>, first: (Finding, Finding) -> bool) {
    forall i, j :: 0 <= i < j < |fs| ==> first(fs[i], fs[j])
  }

  ghost predicate AllFirst(x: seq<Finding>, y: seq<Finding>, first: (Finding, Finding) -> bool) {
    forall f, g :: f in x && g in y ==> first(f, g)
  }

  lemma OrderedAppend(x: seq<Finding>, y: seq<Finding>, first: (Finding, Finding) -> bool)
    requires Ordered(x, first) && Ordered(y, first) && AllFirst(x, y, first)
    ensures Ordered(x + y, first)
  {
    forall i, j | 0 <= i < j < |x + y| ensures first((x + y)[i], (x + y)[j]) {
      if i < |x| <= j { assert x[i] in x && y[j - |x|] in y; }
    }
  }

  /** A loop over keys, each of which has an ordered list that comes before those of later keys. */
  lemma {:induction false} OrderedCollect<K(!new)>(keys: seq<K>, g: K --> seq<Finding>, first: (Finding, Finding) -> bool)
    requires forall k :: k in keys ==> g.requires(k) && Ordered(g(k), first)
    requires forall i, j :: 0 <= i < j < |keys| ==> AllFirst(g(keys[i]), g(keys[j]), first)
    ensures Ordered(Collect(keys, g), first)
  {
    hide Ordered, AllFirst;
    if keys == [] {
      OrderedNothing(first);
    } else {
      var init, last := keys[..|keys| - 1], keys[|keys| - 1];
      OrderedCollect(init, g, first);
      assert AllFirst(Collect(init, g), g(last), first) by { EarlierKeysFirst(keys, g, first); }
      OrderedAppend(Collect(init, g), g(last), first);
    }
  }

  lemma EarlierKeysFirst<K(!new)>(keys: seq<K>, g: K --> seq<Finding>, first: (Finding, Finding) -> bool)
    requires keys != [] && forall k :: k in keys ==> g.requires(k)
    requires forall i, j :: 0 <= i < j < |keys| ==> AllFirst(g(keys[i]), g(keys[j]), first)
    ensures AllFirst(Collect(keys[..|keys| - 1], g), g(keys[|keys| - 1]), first)
  {
    var init, last := keys[..|keys| - 1], keys[|keys| - 1];
    forall f, h | f in Collect(init, g) && h in g(last) ensures first(f, h) {
      InCollect(init, g, f);
      var k :| k in init && f in g(k);
      var i :| 0 <= i < |init| && init[i] == k;
      assert AllFirst(g(keys[i]), g(keys[|keys| - 1]), first);
    }
  }

  lemma OrderedNothing(first: (Finding, Finding) -> bool)
    ensures Ordered([], first)
  {
  }

  lemma OrderedMore(fs: seq<Finding>, first: (Finding, Finding) -> bool, wider: (Finding, Finding) -> bool)
    requires Ordered(fs, first) && forall f, g :: f in fs && g in fs && first(f, g) ==> wider(f, g)
    ensures Ordered(fs, wider)
  {
    forall i, j | 0 <= i < j < |fs| ensures wider(fs[i], fs[j]) {
      assert fs[i] in fs && fs[j] in fs && first(fs[i], fs[j]);
    }
  }

  lemma OrderedSmall(fs: seq<Finding>, first: (Finding, Finding) -> bool)
    requires |fs| <= 1
    ensures Ordered(fs, first)
  {
  }

  /** Names in ascending order. */
  lemma SortedIsEarlier(s: set<string>)
    ensures forall i, j :: 0 <= i < j < |Sorted(s)| ==> Earlier(Sorted(s)[i], Sorted(s)[j])
  {
  }

  // ---- names ----

  ghost function ByKey(entry: Subject): (Finding, Finding) -> bool {
    (f, g) => KeyFirst(f, g, entry)
  }

  lemma OrderedKeys(subject: Subject, scope: Scope, b: set<string>, h: set<string>, mandatory: set<string>)
    ensures Ordered(KeyChanges(subject, scope, b, h, mandatory), ByKey(subject))
  {
    hide Sorted, Collect, Leq;
    var r, a, lost, found := RemovedAt(subject, scope), AddedAt(subject, scope, mandatory), Sorted(b - h), Sorted(h - b);
    SortedIsEarlier(b - h);
    SortedIsEarlier(h - b);
    OrderedCollect(lost, r, ByKey(subject));
    OrderedCollect(found, a, ByKey(subject));
    forall f, g | f in Collect(lost, r) && g in Collect(found, a) ensures ByKey(subject)(f, g) {
      InCollect(lost, r, f);
      InCollect(found, a, g);
    }
    OrderedAppend(Collect(lost, r), Collect(found, a), ByKey(subject));
  }

  // ---- parameters ----

  ghost function ByEntry(entry: Subject): (Finding, Finding) -> bool {
    (f, g) => EntryFirst(f, g, entry)
  }

  lemma TypingAspects(ts: Subject, items: Subject, at: Location, b: ObjectSchema, h: ObjectSchema)
    requires (ts == ParameterType && items == ParameterItemType) || (ts == PropertyType && items == PropertyItemType)
    ensures var x, y, z := TypeFindings(ts, at, TypeOf(b), TypeOf(h)), ItemFindings(items, at, b, h), EnumFindings(at, b, h);
            && |x| <= 1 && |y| <= 1 && |z| <= 1
            && (forall f :: f in x ==> f.at == at && f.kind == Changed(ts) && Aspect(f) == 2)
            && (forall f :: f in y ==> f.at == at && f.kind == Changed(items) && Aspect(f) == 3)
            && (forall f :: f in z ==> f.at == at && f.kind == Removed(EnumValue) && Aspect(f) == 4)
  {
    hide DroppedValues, HasItems;
  }

  /** Lists of one entry whose aspects grow. */
  lemma OrderedAspects(x: seq<Finding>, y: seq<Finding>, entry: Subject, at: Location)
    requires Ordered(x, ByEntry(entry)) && |y| <= 1
    requires forall f :: f in x || f in y ==> f.at == at && Turn(f, entry) == 2
    requires forall f, g :: f in x && g in y ==> Aspect(f) < Aspect(g)
    ensures Ordered(x + y, ByEntry(entry))
  {
    hide Aspect, Turn;
    OrderedSmall(y, ByEntry(entry));
    OrderedAppend(x, y, ByEntry(entry));
  }

  lemma OrderedParameter(path: string, verb: Method, b: Parameter, h: Parameter)
    ensures Ordered(ParameterFindings(path, verb, b, h), ByEntry(ParameterEntry))
  {
    hide TypeFindings, ItemFindings, EnumFindings, ParamSchema, ParameterKey, Ordered;
    var at := Member(ParametersOf(path, verb), ParameterKey(b));
    var bs, hs := ParamSchema(b), ParamSchema(h);
    TypingAspects(ParameterType, ParameterItemType, at, bs, hs);
    var u, v := RequirednessFindings(ParameterEntry, at, b.required, h.required), LocationFindings(at, b.location, h.location);
    var x, y, z := TypeFindings(ParameterType, at, TypeOf(bs), TypeOf(hs)), ItemFindings(ParameterItemType, at, bs, hs),
      EnumFindings(at, bs, hs);
    OrderedSmall(u, ByEntry(ParameterEntry));
    OrderedAspects(u, v, ParameterEntry, at);
    OrderedAspects(u + v, x, ParameterEntry, at);
    OrderedAspects(u + v + x, y, ParameterEntry, at);
    OrderedAspects(u + v + x + y, z, ParameterEntry, at);
  }

  lemma ParameterTurns(f: Finding, b: Parameter, h: Parameter)
    requires ParameterReport(f, b, h)
    ensures Turn(f, ParameterEntry) == 2
  {
    hide DroppedValues;
  }

  lemma KeyTurns(f: Finding, subject: Subject)
    ensures forall was, now, mandatory :: KeyReport(f, subject, was, now, mandatory) ==> Turn(f, subject) < 2
  {
  }

  lemma OrderedParameters(path: string, verb: Method, b: map<string, Parameter>, h: map<string, Parameter>)
    requires forall k :: k in b ==> ParameterKey(b[k]) == k
    ensures Ordered(ParameterListFindings(path, verb, b, h), ByEntry(ParameterEntry))
  {
    hide Ordered, Sorted, Collect, KeyChanges, ParameterFindings, ParameterKey, ParameterReport, KeyReport, Leq, Turn;
    var scope, g, common := ParametersOf(path, verb), ParameterFindingsAt(path, verb, b, h), Sorted(b.Keys * h.Keys);
    var x, ord := KeyChanges(ParameterEntry, scope, b.Keys, h.Keys, MandatoryParams(h)), ByEntry(ParameterEntry);
    forall k | k in b && k in h
      ensures Ordered(g(k), ord) && forall f :: f in g(k) ==> NameOf(f) == k && Turn(f, ParameterEntry) == 2
    {
      OrderedParameter(path, verb, b[k], h[k]);
      forall f | f in g(k) ensures NameOf(f) == k && Turn(f, ParameterEntry) == 2 {
        InParameter(f, path, verb, b[k], h[k]);
        ParameterTurns(f, b[k], h[k]);
      }
    }
    SortedIsEarlier(b.Keys * h.Keys);
    OrderedCollect(common, g, ord);
    OrderedKeys(ParameterEntry, scope, b.Keys, h.Keys, MandatoryParams(h));
    OrderedMore(x, ByKey(ParameterEntry), ord);
    forall f, f' | f in x && f' in Collect(common, g) ensures ord(f, f') {
      InKeys(f, ParameterEntry, scope, b.Keys, h.Keys, MandatoryParams(h));
      KeyTurns(f, ParameterEntry);
      InCollect(common, g, f');
    }
    OrderedAppend(x, Collect(common, g), ord);
  }

  // ---- body and responses ----

  ghost function ByOperation(): (Finding, Finding) -> bool {
    (f, g) => OperationFirst(f, g)
  }

  lemma OrderedBody(path: string, verb: Method, b: Option<RequestBody>, h: Option<RequestBody>)
    ensures Ordered(BodyFindings(path, verb, b, h), ByOperation())
  {
    hide KeyChanges, Ordered, Leq;
    if b.Some? && h.Some? {
      var bk, hk, scope := b.value.content.Keys, h.value.content.Keys, RequestMediaOf(path, verb);
      var x, y := RequirednessFindings(BodyEntry, OperationAt(path, verb), b.value.required, h.value.required),
        KeyChanges(BodyMedia, scope, bk, hk, {});
      forall f | f in y ensures OperationPart(f) == 3 { InKeys(f, BodyMedia, scope, bk, hk, {}); }
      OrderedKeys(BodyMedia, scope, bk, hk, {});
      OrderedMore(y, ByKey(BodyMedia), ByOperation());
      OrderedSmall(x, ByOperation());
      OrderedAppend(x, y, ByOperation());
    } else {
      OrderedSmall(BodyFindings(path, verb, b, h), ByOperation());
    }
  }

  lemma OrderedMedia(path: string, verb: Method, code: string, b: map<string, MediaType>, h: map<string, MediaType>)
    ensures Ordered(ResponseFindings(path, verb, code, b, h), ByKey(ResponseMediaKey))
  {
    hide Sorted, Collect, KeyChanges, Ordered, Leq;
    var scope, g, common := ResponseMediaOf(path, verb, code), MediaFindingsAt(path, verb, code, b, h), Sorted(b.Keys * h.Keys);
    var x, ord := KeyChanges(ResponseMediaKey, scope, b.Keys, h.Keys, {}), ByKey(ResponseMediaKey);
    OrderedKeys(ResponseMediaKey, scope, b.Keys, h.Keys, {});
    forall k | k in b && k in h ensures Ordered(g(k), ord) { OrderedSmall(g(k), ord); }
    SortedIsEarlier(b.Keys * h.Keys);
    OrderedCollect(common, g, ord);
    forall f, f' | f in x && f' in Collect(common, g) ensures ord(f, f') {
      InKeys(f, ResponseMediaKey, scope, b.Keys, h.Keys, {});
      KeyTurns(f, ResponseMediaKey);
      InCollect(common, g, f');
    }
    OrderedAppend(x, Collect(common, g), ord);
  }

  ghost function ByResponse(): (Finding, Finding) -> bool {
    (f, g) => ResponseFirst(f, g)
  }

  lemma MediaTurns(f: Finding, k: string, b: map<string, MediaType>, h: map<string, MediaType>)
    requires AtMedia(f, k, b, h)
    ensures Turn(f, ResponseCode) == 2
  {
  }

  lemma OrderedCode(path: string, verb: Method, c: string, b: map<string, MediaType>, h: map<string, MediaType>)
    ensures var fs := ResponseFindings(path, verb, c, b, h);
            Ordered(fs, ByResponse()) && forall f :: f in fs ==> f.at.Member? && CodeOf(f) == c && Turn(f, ResponseCode) == 2
  {
    hide Ordered, ResponseFindings, AtMedia, Leq, Turn;
    var fs := ResponseFindings(path, verb, c, b, h);
    forall f | f in fs ensures f.at.Member? && CodeOf(f) == c && Turn(f, ResponseCode) == 2 {
      InMedia(f, path, verb, c, b, h);
      MediaTurns(f, f.at.name, b, h);
    }
    OrderedMedia(path, verb, c, b, h);
    OrderedMore(fs, ByKey(ResponseMediaKey), ByResponse());
  }

  lemma OrderedResponses(path: string, verb: Method, b: map<string, Response>, h: map<string, Response>)
    ensures Ordered(ResponsesFindings(path, verb, b, h), ByResponse())
  {
    hide Ordered, Sorted, Collect, KeyChanges, ResponseFindings, KeyReport, Leq, Turn;
    var scope, g, common := ResponsesOf(path, verb), ResponseFindingsAt(path, verb, b, h), Sorted(b.Keys * h.Keys);
    var x, ord := KeyChanges(ResponseCode, scope, b.Keys, h.Keys, {}), ByResponse();
    forall c | c in b && c in h
      ensures Ordered(g(c), ord) && forall f :: f in g(c) ==> CodeOf(f) == c && Turn(f, ResponseCode) == 2
    {
      OrderedCode(path, verb, c, b[c].content, h[c].content);
    }
    SortedIsEarlier(b.Keys * h.Keys);
    OrderedCollect(common, g, ord);
    forall f | f in x ensures Turn(f, ResponseCode) < 2 {
      InKeys(f, ResponseCode, scope, b.Keys, h.Keys, {});
      KeyTurns(f, ResponseCode);
    }
    OrderedKeys(ResponseCode, scope, b.Keys, h.Keys, {});
    OrderedMore(x, ByKey(ResponseCode), ord);
    forall f, f' | f in x && f' in Collect(common, g) ensures ord(f, f') {
      InCollect(common, g, f');
    }
    OrderedAppend(x, Collect(common, g), ord);
  }

  // ---- operations and paths ----

  /** Where the findings of the five parts of an operation come. */
  lemma PartsOfOperation(f: Finding, path: string, verb: Method, b: Operation, h: Operation)
    ensures var at := OperationAt(path, verb);
            && (f in OperationIdFindings(at, OperationId(b), OperationId(h)) ==> OperationPart(f) == 0)
            && (f in ParameterListFindings(path, verb, Params(b), Params(h)) ==> OperationPart(f) == 1)
            && (f in BodyFindings(path, verb, b.requestBody, h.requestBody) ==> 2 <= OperationPart(f) <= 3)
            && (f in ResponsesFindings(path, verb, b.responses, h.responses) ==> OperationPart(f) == 4)
            && (f in SecurityFindings(at, SecurityOf(b), SecurityOf(h)) ==> OperationPart(f) == 5)
  {
    hide ParameterListFindings, BodyFindings, ResponsesFindings, AtParameter, AtRequestMedia, AtResponse, AtResponseMedia,
         OperationId, SecurityOf;
    InParameters(f, path, verb, Params(b), Params(h));
    InBody(f, path, verb, b.requestBody, h.requestBody);
    InResponses(f, path, verb, b.responses, h.responses);
  }

  lemma OrderedSmallParts(at: Location, b: Operation, h: Operation)
    ensures Ordered(OperationIdFindings(at, OperationId(b), OperationId(h)), ByOperation())
    ensures Ordered(SecurityFindings(at, SecurityOf(b), SecurityOf(h)), ByOperation())
  {
    hide OperationId, SecurityOf;
    OrderedSmall(OperationIdFindings(at, OperationId(b), OperationId(h)), ByOperation());
    OrderedSmall(SecurityFindings(at, SecurityOf(b), SecurityOf(h)), ByOperation());
  }

  lemma OrderedOperation(path: string, verb: Method, b: Operation, h: Operation)
    ensures Ordered(OperationFindings(path, verb, b, h), ByOperation())
  {
    hide Ordered, OperationIdFindings, ParameterListFindings, BodyFindings, ResponsesFindings, SecurityFindings, OperationId,
         SecurityOf, OperationPart, EntryFirst, KeyFirst, ResponseFirst;
    var at, ord := OperationAt(path, verb), ByOperation();
    var u, v, x, y, z := OperationIdFindings(at, OperationId(b), OperationId(h)),
      ParameterListFindings(path, verb, Params(b), Params(h)), BodyFindings(path, verb, b.requestBody, h.requestBody),
      ResponsesFindings(path, verb, b.responses, h.responses), SecurityFindings(at, SecurityOf(b), SecurityOf(h));
    forall f
      ensures f in u ==> OperationPart(f) == 0
      ensures f in v ==> OperationPart(f) == 1
      ensures f in x ==> 2 <= OperationPart(f) <= 3
      ensures f in y ==> OperationPart(f) == 4
      ensures f in z ==> OperationPart(f) == 5
    {
      PartsOfOperation(f, path, verb, b, h);
    }
    OrderedSmallParts(at, b, h);
    OrderedParameters(path, verb, Params(b), Params(h));
    OrderedMore(v, ByEntry(ParameterEntry), ord);
    OrderedBody(path, verb, b.requestBody, h.requestBody);
    OrderedResponses(path, verb, b.responses, h.responses);
    OrderedMore(y, ByResponse(), ord);
    OrderedAppend(u, v, ord);
    OrderedAppend(u + v, x, ord);
    OrderedAppend(u + v + x, y, ord);
    OrderedAppend(u + v + x + y, z, ord);
  }

  ghost function ByPath(): (Finding, Finding) -> bool {
    (f, g) => PathFirst(f, g)
  }

  lemma MethodsInOrder()
    ensures forall i :: 0 <= i < |HTTP_METHODS| ==> MethodIndex(HTTP_METHODS[i]) == i
  {
  }

  lemma MethodTurns(path: string, b: PathItem, h: PathItem, m: Method)
    ensures var x, y := RemovedMethodAt(path, b, h)(m), AddedMethodAt(path, b, h)(m);
            && |x| <= 1 && |y| <= 1
            && (forall f :: f in x ==> Turn(f, MethodKey) == 0 && VerbOf(f) == MethodIndex(m))
            && (forall f :: f in y ==> Turn(f, MethodKey) == 1 && VerbOf(f) == MethodIndex(m))
  {
  }

  lemma OrderedMethodKeys(path: string, b: PathItem, h: PathItem)
    ensures var r, a := Collect(HTTP_METHODS, RemovedMethodAt(path, b, h)), Collect(HTTP_METHODS, AddedMethodAt(path, b, h));
            && Ordered(r + a, ByPath()) && forall f :: f in r || f in a ==> Turn(f, MethodKey) < 2
  {
    hide Collect, Ordered, OperationFirst, Turn, VerbOf, MethodIndex, RemovedMethodAt, AddedMethodAt;
    var r, a := RemovedMethodAt(path, b, h), AddedMethodAt(path, b, h);
    MethodsInOrder();
    forall m
      ensures Ordered(r(m), ByPath()) && Ordered(a(m), ByPath())
      ensures forall f :: f in r(m) ==> Turn(f, MethodKey) == 0 && VerbOf(f) == MethodIndex(m)
      ensures forall f :: f in a(m) ==> Turn(f, MethodKey) == 1 && VerbOf(f) == MethodIndex(m)
    {
      MethodTurns(path, b, h, m);
      OrderedSmall(r(m), ByPath());
      OrderedSmall(a(m), ByPath());
    }
    OrderedCollect(HTTP_METHODS, r, ByPath());
    OrderedCollect(HTTP_METHODS, a, ByPath());
    var x, y := Collect(HTTP_METHODS, r), Collect(HTTP_METHODS, a);
    forall f ensures f in x ==> Turn(f, MethodKey) == 0 ensures f in y ==> Turn(f, MethodKey) == 1 {
      InCollect(HTTP_METHODS, r, f);
      InCollect(HTTP_METHODS, a, f);
    }
    OrderedAppend(x, y, ByPath());
  }

  lemma OperationTurns(f: Finding, path: string, verb: Method, b: Operation, h: Operation)
    requires OperationReport(f, path, verb, b, h)
    ensures Turn(f, MethodKey) == 2
  {
    hide DroppedValues, HasItems, TypeOf, SchemaItems, ParamSchema, MediaFingerprint, OperationId, SecurityOf, KeyedParameters;
  }

  lemma OrderedCommon(path: string, m: Method, b: PathItem, h: PathItem)
    ensures var fs := CommonMethodAt(path, b, h)(m);
            Ordered(fs, ByPath()) && forall f :: f in fs ==> Turn(f, MethodKey) == 2 && VerbOf(f) == MethodIndex(m)
  {
    hide OperationFindings, OperationReport, Ordered, OperationFirst, Turn;
    if m in b && m in h {
      var fs := OperationFindings(path, m, b[m], h[m]);
      forall f | f in fs ensures Turn(f, MethodKey) == 2 && VerbOf(f) == MethodIndex(m) {
        InOperation(f, path, m, b[m], h[m]);
        OperationReportIsThere(f, path, m, b[m], h[m]);
        OperationTurns(f, path, m, b[m], h[m]);
      }
      OrderedOperation(path, m, b[m], h[m]);
      OrderedMore(fs, ByOperation(), ByPath());
    } else {
      OrderedNothing(ByPath());
    }
  }

  lemma OrderedPath(path: string, b: PathItem, h: PathItem)
    ensures Ordered(PathFindings(path, b, h), ByPath())
  {
    hide Ordered, Collect, OperationFindings, OperationFirst, Turn;
    var c := CommonMethodAt(path, b, h);
    OrderedMethodKeys(path, b, h);
    forall m ensures Ordered(c(m), ByPath()) && forall f :: f in c(m) ==> Turn(f, MethodKey) == 2 && VerbOf(f) == MethodIndex(m) {
      OrderedCommon(path, m, b, h);
    }
    MethodsInOrder();
    OrderedCollect(HTTP_METHODS, c, ByPath());
    var x, y := Collect(HTTP_METHODS, RemovedMethodAt(path, b, h)) + Collect(HTTP_METHODS, AddedMethodAt(path, b, h)),
      Collect(HTTP_METHODS, c);
    forall f | f in y ensures Turn(f, MethodKey) == 2 { InCollect(HTTP_METHODS, c, f); }
    OrderedAppend(x, y, ByPath());
  }

  ghost function ByDiff(): (Finding, Finding) -> bool {
    (f, g) => First(f, g)
  }

  lemma OnePath(f: Finding, path: string, b: PathItem, h: PathItem)
    requires f in PathFindings(path, b, h)
    ensures Part(f) == 3 && PathOf(f) == path
  {
    hide PathFindings, PathReport;
    InPath(f, path, b, h);
    PathReportIsThere(f, path, b, h);
  }

  lemma OrderedPaths(b: map<string, PathItem>, h: map<string, PathItem>)
    ensures Ordered(AllPathFindings(b, h), ByDiff()) && forall f :: f in AllPathFindings(b, h) ==> 2 <= Part(f) <= 3
  {
    hide Ordered, Sorted, Collect, KeyChanges, PathFindings, KeyReport, Leq, Part, PathOf, KeyFirst, PathFirst;
    var g, common, ord := PathFindingsAt(b, h), Sorted(b.Keys * h.Keys), ByDiff();
    var x, y := KeyChanges(PathKey, AllPaths, b.Keys, h.Keys, {}), Collect(common, g);
    forall p | p in b && p in h ensures Ordered(g(p), ord) && forall f :: f in g(p) ==> Part(f) == 3 && PathOf(f) == p {
      forall f | f in g(p) ensures Part(f) == 3 && PathOf(f) == p { OnePath(f, p, b[p], h[p]); }
      OrderedPath(p, b[p], h[p]);
      OrderedMore(g(p), ByPath(), ord);
    }
    SortedIsEarlier(b.Keys * h.Keys);
    OrderedCollect(common, g, ord);
    OrderedNames(PathKey, AllPaths, b.Keys, h.Keys, 2);
    forall f | f in y ensures Part(f) == 3 { InCollect(common, g, f); }
    OrderedAppend(x, y, ord);
  }

  /** Lost and new names of the whole document. */
  lemma OrderedNames(subject: Subject, scope: Scope, b: set<string>, h: set<string>, part: nat)
    requires (subject, scope, part) in {(ServerUrl, AllServers, 1), (PathKey, AllPaths, 2), (SchemaName, AllSchemas, 4)}
    ensures var fs := KeyChanges(subject, scope, b, h, {});
            Ordered(fs, ByDiff()) && forall f :: f in fs ==> Part(f) == part
  {
    hide Ordered, KeyChanges, Leq, KeyFirst;
    var fs := KeyChanges(subject, scope, b, h, {});
    forall f | f in fs ensures Part(f) == part { InKeys(f, subject, scope, b, h, {}); }
    OrderedKeys(subject, scope, b, h, {});
    OrderedMore(fs, ByKey(subject), ByDiff());
  }

  // ---- schemas, components, the whole ----

  lemma OrderedProperty(name: string, prop: string, was: bool, now: bool, b: ObjectSchema, h: ObjectSchema)
    ensures var fs := PropertyFindings(name, prop, was, now, b, h);
            && Ordered(fs, ByEntry(PropertyEntry))
            && forall f :: f in fs ==> f.at == Member(PropertiesIn(name), prop) && Turn(f, PropertyEntry) == 2 && f.kind != Changed(SchemaKind)
  {
    hide TypeFindings, ItemFindings, EnumFindings, Ordered;
    var at := Member(PropertiesIn(name), prop);
    TypingAspects(PropertyType, PropertyItemType, at, b, h);
    var u, x, y, z := RequirednessFindings(PropertyEntry, at, was, now), TypeFindings(PropertyType, at, TypeOf(b), TypeOf(h)),
      ItemFindings(PropertyItemType, at, b, h), EnumFindings(at, b, h);
    OrderedSmall(u, ByEntry(PropertyEntry));
    OrderedAspects(u, x, PropertyEntry, at);
    OrderedAspects(u + x, y, PropertyEntry, at);
    OrderedAspects(u + x + y, z, PropertyEntry, at);
  }

  ghost function BySchema(): (Finding, Finding) -> bool {
    (f, g) => SchemaFirst(f, g)
  }

  lemma OrderedProperties(name: string, b: ObjectSchema, h: ObjectSchema)
    ensures var fs := KeyChanges(PropertyEntry, PropertiesIn(name), PropertiesOf(b).Keys, PropertiesOf(h).Keys, RequiredOf(h)) +
                      Collect(Sorted(PropertiesOf(b).Keys * PropertiesOf(h).Keys), PropertyFindingsAt(name, b, h));
            Ordered(fs, ByEntry(PropertyEntry)) && forall f :: f in fs ==> f.kind != Changed(SchemaKind)
  {
    hide Ordered, Sorted, Collect, KeyChanges, PropertyFindings, PropertiesOf, RequiredOf, KeyReport, Leq, Turn;
    var bk, hk, g, ord := PropertiesOf(b).Keys, PropertiesOf(h).Keys, PropertyFindingsAt(name, b, h), ByEntry(PropertyEntry);
    var x, y := KeyChanges(PropertyEntry, PropertiesIn(name), bk, hk, RequiredOf(h)), Collect(Sorted(bk * hk), g);
    forall k | k in bk && k in hk
      ensures Ordered(g(k), ord)
      ensures forall f :: f in g(k) ==> NameOf(f) == k && Turn(f, PropertyEntry) == 2 && f.kind != Changed(SchemaKind)
    {
      OrderedProperty(name, k, k in RequiredOf(b), k in RequiredOf(h), PropertiesOf(b)[k], PropertiesOf(h)[k]);
    }
    var common := Sorted(bk * hk);
    SortedIsEarlier(bk * hk);
    forall i, j | 0 <= i < j < |common| ensures AllFirst(g(common[i]), g(common[j]), ord) {
      assert common[i] in common && common[j] in common && Earlier(common[i], common[j]);
    }
    OrderedCollect(common, g, ord);
    OrderedKeys(PropertyEntry, PropertiesIn(name), bk, hk, RequiredOf(h));
    OrderedMore(x, ByKey(PropertyEntry), ord);
    forall f | f in x ensures Turn(f, PropertyEntry) < 2 && f.kind != Changed(SchemaKind) {
      InKeys(f, PropertyEntry, PropertiesIn(name), bk, hk, RequiredOf(h));
      KeyTurns(f, PropertyEntry);
      KeyIsNoChange(f, PropertyEntry);
    }
    forall f | f in y ensures Turn(f, PropertyEntry) == 2 && f.kind != Changed(SchemaKind) { InCollect(Sorted(bk * hk), g, f); }
    OrderedAppend(x, y, ord);
  }

  lemma KeyIsNoChange(f: Finding, subject: Subject)
    ensures forall was, now, mandatory :: KeyReport(f, subject, was, now, mandatory) ==> !f.kind.Changed?
  {
  }

  lemma OrderedSchema(name: string, b: ObjectSchema, h: ObjectSchema)
    ensures Ordered(SchemaFindings(name, b, h), BySchema())
  {
    hide Ordered, Sorted, Collect, KeyChanges, PropertyFindings, PropertiesOf, RequiredOf, EntryFirst;
    var t, x, y := TypeFindings(SchemaKind, Member(AllSchemas, name), TypeOf(b), TypeOf(h)),
      KeyChanges(PropertyEntry, PropertiesIn(name), PropertiesOf(b).Keys, PropertiesOf(h).Keys, RequiredOf(h)),
      Collect(Sorted(PropertiesOf(b).Keys * PropertiesOf(h).Keys), PropertyFindingsAt(name, b, h));
    OrderedProperties(name, b, h);
    OrderedMore(x + y, ByEntry(PropertyEntry), BySchema());
    OrderedSmall(t, BySchema());
    OrderedAppend(t, x + y, BySchema());
    assert t + (x + y) == t + x + y;
  }

  lemma OneSchema(f: Finding, name: string, b: ObjectSchema, h: ObjectSchema)
    requires f in SchemaFindings(name, b, h)
    ensures Part(f) == 5 && SchemaOf(f) == name
  {
    hide SchemaFindings, AtProperty;
    InSchema(f, name, b, h);
  }

  lemma OrderedSchemas(b: map<string, ObjectSchema>, h: map<string, ObjectSchema>)
    ensures Ordered(AllSchemaFindings(b, h), ByDiff()) && forall f :: f in AllSchemaFindings(b, h) ==> 4 <= Part(f) <= 5
  {
    hide Ordered, Sorted, Collect, KeyChanges, SchemaFindings, Leq, Part, SchemaOf, KeyFirst, SchemaFirst;
    var g, common, ord := SchemaFindingsAt(b, h), Sorted(b.Keys * h.Keys), ByDiff();
    var x, y := KeyChanges(SchemaName, AllSchemas, b.Keys, h.Keys, {}), Collect(common, g);
    forall n | n in b && n in h ensures Ordered(g(n), ord) && forall f :: f in g(n) ==> Part(f) == 5 && SchemaOf(f) == n {
      forall f | f in g(n) ensures Part(f) == 5 && SchemaOf(f) == n { OneSchema(f, n, b[n], h[n]); }
      OrderedSchema(n, b[n], h[n]);
      OrderedMore(g(n), BySchema(), ord);
    }
    SortedIsEarlier(b.Keys * h.Keys);
    OrderedCollect(common, g, ord);
    OrderedNames(SchemaName, AllSchemas, b.Keys, h.Keys, 4);
    forall f | f in y ensures Part(f) == 5 { InCollect(common, g, f); }
    OrderedAppend(x, y, ord);
  }

  lemma SectionsInOrder()
    ensures forall i :: 0 <= i < |COMPONENT_SECTIONS| ==> SectionIndex(COMPONENT_SECTIONS[i]) == i
  {
  }

  lemma OrderedComponents(b: Document, h: Document)
    ensures var fs := Collect(COMPONENT_SECTIONS, ComponentFindingsAt(b, h));
            Ordered(fs, ByDiff()) && forall f :: f in fs ==> Part(f) == 6
  {
    hide Ordered, Collect, KeyChanges, Names, Leq, KeyFirst;
    var g, ord := ComponentFindingsAt(b, h), ByDiff();
    forall s ensures Ordered(g(s), ord) && forall f :: f in g(s) ==> Part(f) == 6 && SectionOf(f) == SectionIndex(s) {
      forall f | f in g(s) ensures Part(f) == 6 && SectionOf(f) == SectionIndex(s) {
        InKeys(f, Component, ComponentsIn(s), Names(b, s), Names(h, s), {});
      }
      OrderedKeys(Component, ComponentsIn(s), Names(b, s), Names(h, s), {});
      OrderedMore(g(s), ByKey(Component), ord);
    }
    SectionsInOrder();
    OrderedCollect(COMPONENT_SECTIONS, g, ord);
    forall f | f in Collect(COMPONENT_SECTIONS, g) ensures Part(f) == 6 { InCollect(COMPONENT_SECTIONS, g, f); }
  }

  lemma OrderedTop(b: Document, h: Document)
    ensures Ordered(TopFindings(b, h), ByDiff()) && forall f :: f in TopFindings(b, h) ==> Part(f) <= 1
  {
    hide KeyChanges, Ordered, KeyFirst;
    var x := When(b.info != h.info, Finding(Changed(InfoBlock), TopLevel, Renamed(b.info, h.info), Info));
    OrderedNames(ServerUrl, AllServers, ServersOf(b), ServersOf(h), 1);
    OrderedSmall(x, ByDiff());
    OrderedAppend(x, KeyChanges(ServerUrl, AllServers, ServersOf(b), ServersOf(h), {}), ByDiff());
  }

  /** The findings of a diff come in order, strictly: none of them comes twice. */
  lemma DiffIsOrdered(b: Document, h: Document)
    ensures forall i, j :: 0 <= i < j < |DiffFindings(b, h)| ==>
              First(DiffFindings(b, h)[i], DiffFindings(b, h)[j]) && DiffFindings(b, h)[i] != DiffFindings(b, h)[j]
  {
    hide TopFindings, AllPathFindings, AllSchemaFindings, Collect, KeyFirst, PathFirst, SchemaFirst, Part;
    var t, p, s, c, ord := TopFindings(b, h), AllPathFindings(b.paths, h.paths), AllSchemaFindings(b.schemas, h.schemas),
      Collect(COMPONENT_SECTIONS, ComponentFindingsAt(b, h)), ByDiff();
    OrderedTop(b, h);
    OrderedPaths(b.paths, h.paths);
    OrderedSchemas(b.schemas, h.schemas);
    OrderedComponents(b, h);
    OrderedAppend(t, p, ord);
    OrderedAppend(t + p, s, ord);
    OrderedAppend(t + p + s, c, ord);
    forall i, j | 0 <= i < j < |DiffFindings(b, h)|
      ensures First(DiffFindings(b, h)[i], DiffFindings(b, h)[j]) && DiffFindings(b, h)[i] != DiffFindings(b, h)[j]
    {
      assert ord(DiffFindings(b, h)[i], DiffFindings(b, h)[j]);
      NeverBeforeItself(DiffFindings(b, h)[i]);
    }
  }
}
