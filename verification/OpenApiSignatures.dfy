/** The signatures that an allowlist names, in literal text, and when one of them can
    stand for two places. */
module OpenApiSignatures {
  import opened Wrappers
  import opened OpenApiDocument
  import opened OpenApiDiff
  import opened OpenApiReported
  import opened OpenApiGate
  import opened OpenApiSurface

  // ---- in literal text ----

  lemma NamesInText(t: string)
    ensures Verb(GET) == "GET" && Verb(PUT) == "PUT" && Verb(POST) == "POST" && Verb(DELETE) == "DELETE"
    ensures Verb(OPTIONS) == "OPTIONS" && Verb(HEAD) == "HEAD" && Verb(PATCH) == "PATCH" && Verb(TRACE) == "TRACE"
    ensures SectionName(SecuritySchemes) == "securitySchemes" && SectionName(Parameters) == "parameters"
    ensures SectionName(RequestBodies) == "requestBodies" && SectionName(Responses) == "responses"
    ensures SectionName(Headers) == "headers" && LocationText(None) == "None" && LocationText(Some(t)) == t
  {
  }

  lemma TypesInText(t: string)
    ensures FingerprintText(Missing) == "('<missing>',)" && FingerprintText(Untyped) == "('<untyped>',)"
    ensures FingerprintText(Ref(t)) == "('$ref', '" + t + "')" && FingerprintText(Typed(One(t))) == "('type', '" + t + "')"
    ensures FingerprintText(Typed(Many([t]))) == "('type', ['" + t + "'])" && QuotedList([t]) == "'" + t + "'"
  {
    assert "('$ref', " + "'" == "('$ref', '" && "('type', " + "'" == "('type', '";
  }

  function Change(before: string, after: string): string {
    " (" + before + " -> " + after + ")"
  }

  function RetypedText(n: Note, items: string): string {
    if n.Retyped? then Change(items + FingerprintText(n.before), FingerprintText(n.after)) else ""
  }

  function DroppedText(n: Note): string {
    if n.Dropped? then " ([" + QuotedList(n.values) + "])" else ""
  }

  function ParameterLine(f: Finding, at: string): string {
    match f.kind
    case Removed(ParameterEntry) => "removed_parameter" + ":" + at
    case Added(ParameterEntry) => "added_parameter" + ":" + at
    case BecameRequired(_) => "parameter_became_required" + ":" + at
    case BecameOptional(_) => "relaxed_parameter" + ":" + at
    case Changed(ParameterIn) =>
      "changed_parameter_in" + ":" + at +
      if f.note.Moved? then Change(LocationText(f.note.fromLocation), LocationText(f.note.toLocation)) else ""
    case Changed(ParameterType) => "changed_parameter_type" + ":" + at + RetypedText(f.note, "")
    case Changed(ParameterItemType) => "changed_parameter_item_type" + ":" + at + RetypedText(f.note, "items ")
    case Removed(EnumValue) => "removed_enum_value" + ":" + at + DroppedText(f.note)
    case _ => ""
  }

  function PropertyLine(f: Finding, at: string): string {
    match f.kind
    case Removed(PropertyEntry) => "removed_property" + ":" + at
    case Added(PropertyEntry) => "added_property" + ":" + at
    case BecameRequired(_) => "property_became_required" + ":" + at
    case BecameOptional(_) => "property_became_optional" + ":" + at
    case Changed(PropertyType) => "changed_property_type" + ":" + at + RetypedText(f.note, "")
    case Changed(PropertyItemType) => "changed_property_item_type" + ":" + at + RetypedText(f.note, "items ")
    case Removed(EnumValue) => "removed_enum_value" + ":" + at + DroppedText(f.note)
    case _ => ""
  }

  function OperationLine(f: Finding, at: string): string {
    match f.kind
    case Removed(MethodKey) => "removed_method" + ":" + at
    case Added(MethodKey) => "added_method" + ":" + at
    case Removed(OperationIdentifier) => "removed_operation_id" + ":" + at + if f.note.Lost? then " " + f.note.id else ""
    case Changed(OperationIdentifier) =>
      "changed_operation_id" + ":" + at + if f.note.Renamed? then " " + f.note.oldText + " -> " + f.note.newText else ""
    case Removed(BodyEntry) => "removed_request_body" + ":" + at
    case Added(BodyEntry) => "added_request_body" + ":" + at
    case BecameRequired(_) => "request_body_became_required" + ":" + at
    case BecameOptional(_) => "request_body_became_optional" + ":" + at
    case Added(Security) => "added_security_requirement" + ":" + at
    case Removed(Security) => "removed_security_requirement" + ":" + at
    case Changed(Security) => "changed_security_requirement" + ":" + at
    case _ => ""
  }

  /** The line that names a finding in an allowlist, kind by kind. */
  function Line(f: Finding): string {
    match f.at
    case TopLevel => "info_changed" + ":" + if f.note.Renamed? then "base=" + f.note.oldText + " head=" + f.note.newText else ""
    case OperationAt(p, m) => OperationLine(f, p + " " + Verb(m))
    case Member(AllServers, k) => (if f.kind.Removed? then "removed_server" else "added_server") + ":" + k
    case Member(AllPaths, k) => (if f.kind.Removed? then "removed_path" else "added_path") + ":" + k
    case Member(ParametersOf(p, m), k) => ParameterLine(f, p + " " + Verb(m) + " " + k)
    case Member(RequestMediaOf(p, m), k) =>
      (if f.kind.Removed? then "removed_media_type" else "added_media_type") + ":" + (p + " " + Verb(m) + " request " + k)
    case Member(ResponsesOf(p, m), k) =>
      (if f.kind.Removed? then "removed_response" else "added_response") + ":" + (p + " " + Verb(m) + " " + k)
    case Member(ResponseMediaOf(p, m, c), k) =>
      var at := p + " " + Verb(m) + " " + c + " " + k;
      if f.kind.Changed? then "changed_response_schema" + ":" + at + RetypedText(f.note, "")
      else (if f.kind.Removed? then "removed_response_media_type" else "added_response_media_type") + ":" + at
    case Member(AllSchemas, k) =>
      if f.kind.Changed? then "changed_schema_type" + ":" + k + RetypedText(f.note, "")
      else (if f.kind.Removed? then "removed_schema" else "added_schema") + ":" + k
    case Member(PropertiesIn(n), k) => PropertyLine(f, n + "." + k)
    case Member(ComponentsIn(s), k) =>
      (if f.kind.Removed? then "removed_component" else "added_component") + ":" + (SectionName(s) + "." + k)
  }

  // ---- what a finding can be ----

  predicate PlainAs(f: Finding, kinds: set<Kind>) {
    f.note == Plain && f.kind in kinds
  }

  predicate RetypedAs(f: Finding, kinds: set<Kind>) {
    f.note.Retyped? && f.kind in kinds
  }

  /** Kind, place and note go together. */
  predicate Fits(f: Finding) {
    match f.at
    case TopLevel => f.kind == Changed(InfoBlock) && f.note.Renamed?
    case OperationAt(_, _) =>
      || PlainAs(f, {Removed(MethodKey), Added(MethodKey), Removed(BodyEntry), Added(BodyEntry), BecameRequired(BodyEntry),
                     BecameOptional(BodyEntry), Removed(Security), Added(Security), Changed(Security)})
      || (f.kind == Changed(OperationIdentifier) && f.note.Renamed?)
      || (f.kind == Removed(OperationIdentifier) && f.note.Lost?)
    case Member(AllServers, _) => PlainAs(f, {Removed(ServerUrl), Added(ServerUrl)})
    case Member(AllPaths, _) => PlainAs(f, {Removed(PathKey), Added(PathKey)})
    case Member(ParametersOf(_, _), _) =>
      || PlainAs(f, {Removed(ParameterEntry), Added(ParameterEntry), BecameRequired(ParameterEntry), BecameOptional(ParameterEntry)})
      || (f.kind == Changed(ParameterIn) && f.note.Moved?)
      || RetypedAs(f, {Changed(ParameterType), Changed(ParameterItemType)})
      || (f.kind == Removed(EnumValue) && f.note.Dropped?)
    case Member(RequestMediaOf(_, _), _) => PlainAs(f, {Removed(BodyMedia), Added(BodyMedia)})
    case Member(ResponsesOf(_, _), _) => PlainAs(f, {Removed(ResponseCode), Added(ResponseCode)})
    case Member(ResponseMediaOf(_, _, _), _) =>
      PlainAs(f, {Removed(ResponseMediaKey), Added(ResponseMediaKey)}) || RetypedAs(f, {Changed(ResponseSchema)})
    case Member(AllSchemas, _) => PlainAs(f, {Removed(SchemaName), Added(SchemaName)}) || RetypedAs(f, {Changed(SchemaKind)})
    case Member(PropertiesIn(_), _) =>
      || PlainAs(f, {Removed(PropertyEntry), Added(PropertyEntry), BecameRequired(PropertyEntry), BecameOptional(PropertyEntry)})
      || RetypedAs(f, {Changed(PropertyType), Changed(PropertyItemType)})
      || (f.kind == Removed(EnumValue) && f.note.Dropped?)
    case Member(ComponentsIn(_), _) => PlainAs(f, {Removed(Component), Added(Component)})
  }

  lemma ReportedFits(b: Document, h: Document, f: Finding)
    requires Reported(b, h, f)
    ensures Fits(f)
  {
    hide DroppedValues, HasItems, TypeOf, SchemaItems, ParamSchema, PropertiesOf, RequiredOf, MediaFingerprint, OperationId,
         SecurityOf, Names, KeyedParameters;
  }

  // ---- every signature is that line ----

  /** What follows the place in the detail of a finding. */
  function Rest(f: Finding): string {
    match f.note
    case Plain => ""
    case Moved(x, y) => Change(LocationText(x), LocationText(y))
    case Retyped(x, y) =>
      RetypedText(f.note, if f.kind.subject in {ParameterItemType, PropertyItemType} then "items " else "")
    case Renamed(x, y) => if f.at == TopLevel then "base=" + x + " head=" + y else " " + x + " -> " + y
    case Lost(id) => " " + id
    case Dropped(_) => DroppedText(f.note)
  }

  lemma ChangeAppended(p: string, items: string, x: string, y: string)
    ensures p + " (" + items + x + " -> " + y + ")" == p + Change(items + x, y)
  {
  }

  lemma MoveAppended(p: string, x: string, y: string)
    ensures p + " (" + x + " -> " + y + ")" == p + Change(x, y)
  {
  }

  lemma RenameAppended(p: string, x: string, y: string)
    ensures p + " " + x + " -> " + y == p + (" " + x + " -> " + y)
  {
  }

  lemma DropAppended(p: string, values: string)
    ensures p + " ([" + values + "])" == p + (" ([" + values + "])")
  {
  }

  lemma PlaceThenRest(f: Finding)
    requires Fits(f)
    ensures Detail(f) == Place(f.at) + Rest(f)
  {
    hide Fits, Place, KindName, FingerprintText, QuotedList, LocationText, Change;
    var p := Place(f.at);
    RenamedAtTop(f);
    match f.note
    case Plain => AppendNothing(p);
    case Moved(x, y) => MoveAppended(p, LocationText(x), LocationText(y));
    case Retyped(x, y) =>
      var items := if f.kind.subject in {ParameterItemType, PropertyItemType} then "items " else "";
      ChangeAppended(p, items, FingerprintText(x), FingerprintText(y));
    case Renamed(x, y) => if f.at == TopLevel { NothingPrepended(Rest(f)); } else { RenameAppended(p, x, y); }
    case Lost(id) => assert p + " " + id == p + (" " + id);
    case Dropped(values) => DropAppended(p, QuotedList(values));
  }

  lemma AppendNothing(s: string)
    ensures s + "" == s
  {
  }

  lemma NothingPrepended(s: string)
    ensures "" + s == s
  {
  }

  lemma DetailIsPlaceAndRest(f: Finding)
    requires Fits(f)
    ensures Detail(f) == Place(f.at) + Rest(f)
    ensures Signature(f) == (KindName(f.kind) + ":") + Place(f.at) + Rest(f)
  {
    hide Fits, Place, KindName, Detail, Rest;
    PlaceThenRest(f);
    assert (KindName(f.kind) + ":") + (Place(f.at) + Rest(f)) == (KindName(f.kind) + ":") + Place(f.at) + Rest(f);
  }

  lemma RenamedAtTop(f: Finding)
    requires Fits(f)
    ensures f.note.Renamed? ==> (f.at == TopLevel <==> f.kind.subject == InfoBlock)
    ensures f.at == TopLevel ==> Place(f.at) == "" && f.note.Renamed?
  {
  }

  lemma ParameterIsLine(f: Finding)
    requires Fits(f) && f.at.Member? && f.at.scope.ParametersOf?
    ensures (KindName(f.kind) + ":") + Place(f.at) + Rest(f) == ParameterLine(f, Place(f.at))
  {
    hide Place, RetypedText, Change, DroppedText;
    AppendNothing((KindName(f.kind) + ":") + Place(f.at));
  }

  lemma PropertyIsLine(f: Finding)
    requires Fits(f) && f.at.Member? && f.at.scope.PropertiesIn?
    ensures (KindName(f.kind) + ":") + Place(f.at) + Rest(f) == PropertyLine(f, Place(f.at))
  {
    hide Place, RetypedText, Change, DroppedText;
    AppendNothing((KindName(f.kind) + ":") + Place(f.at));
  }

  lemma OperationIsLine(f: Finding)
    requires Fits(f) && f.at.OperationAt?
    ensures (KindName(f.kind) + ":") + Place(f.at) + Rest(f) == OperationLine(f, Place(f.at))
  {
    hide Place;
    AppendNothing((KindName(f.kind) + ":") + Place(f.at));
  }

  lemma TopIsLine(f: Finding)
    requires Fits(f) && f.at == TopLevel
    ensures (KindName(f.kind) + ":") + Place(f.at) + Rest(f) == Line(f)
  {
    hide RetypedText, Verb, SectionName, ParameterLine, PropertyLine, OperationLine;
    AppendNothing(KindName(f.kind) + ":");
  }

  lemma MediaIsLine(f: Finding)
    requires Fits(f) && f.at.Member? && f.at.scope.ResponseMediaOf?
    ensures (KindName(f.kind) + ":") + Place(f.at) + Rest(f) == Line(f)
  {
    hide RetypedText, Verb, SectionName, ParameterLine, PropertyLine, OperationLine;
    AppendNothing((KindName(f.kind) + ":") + Place(f.at));
  }

  lemma SchemaIsLine(f: Finding)
    requires Fits(f) && f.at.Member? && f.at.scope.AllSchemas?
    ensures (KindName(f.kind) + ":") + Place(f.at) + Rest(f) == Line(f)
  {
    hide RetypedText, Verb, SectionName, ParameterLine, PropertyLine, OperationLine;
    AppendNothing((KindName(f.kind) + ":") + Place(f.at));
  }

  lemma NameIsLine(f: Finding)
    requires Fits(f) && f.at.Member? && f.at.scope in {AllServers, AllPaths}
    ensures (KindName(f.kind) + ":") + Place(f.at) + Rest(f) == Line(f)
  {
    hide RetypedText, Verb, SectionName, ParameterLine, PropertyLine, OperationLine;
    AppendNothing((KindName(f.kind) + ":") + Place(f.at));
  }

  lemma OperationKeyIsLine(f: Finding)
    requires Fits(f) && f.at.Member? && (f.at.scope.RequestMediaOf? || f.at.scope.ResponsesOf?)
    ensures (KindName(f.kind) + ":") + Place(f.at) + Rest(f) == Line(f)
  {
    hide RetypedText, Verb, SectionName, ParameterLine, PropertyLine, OperationLine;
    AppendNothing((KindName(f.kind) + ":") + Place(f.at));
  }

  lemma ComponentIsLine(f: Finding)
    requires Fits(f) && f.at.Member? && f.at.scope.ComponentsIn?
    ensures (KindName(f.kind) + ":") + Place(f.at) + Rest(f) == Line(f)
  {
    hide RetypedText, Verb, SectionName, ParameterLine, PropertyLine, OperationLine;
    AppendNothing((KindName(f.kind) + ":") + Place(f.at));
  }

  /** Kind by kind and for all names, the signature of a finding is its line. */
  lemma SignatureIsLine(f: Finding)
    requires Fits(f)
    ensures Signature(f) == Line(f)
  {
    hide Signature, Rest, KindName, Verb, Fits, ParameterLine, PropertyLine, OperationLine;
    DetailIsPlaceAndRest(f);
    match f.at
    case OperationAt(_, _) => OperationIsLine(f);
    case Member(ParametersOf(_, _), _) => ParameterIsLine(f);
    case Member(PropertiesIn(_), _) => PropertyIsLine(f);
    case TopLevel => TopIsLine(f);
    case Member(AllSchemas, _) => SchemaIsLine(f);
    case Member(ResponseMediaOf(_, _, _), _) => MediaIsLine(f);
    case Member(ComponentsIn(_), _) => ComponentIsLine(f);
    case Member(AllServers, _) => NameIsLine(f);
    case Member(AllPaths, _) => NameIsLine(f);
    case _ => OperationKeyIsLine(f);
  }

  // ---- the gate, in text ----

  ghost predicate IsBreakingLine(b: Document, h: Document, s: string) {
    exists f :: Reported(b, h, f) && f.severity == Breaking && Line(f) == s
  }

  /** The gate passes exactly when the allowlist holds the lines of the breaking findings
      that are to be reported, and no other. */
  lemma GateInText(b: Document, h: Document, allowlist: map<string, string>)
    ensures VerdictOn(DiffFindings(b, h), allowlist).exit == 0
       <==> forall s :: s in allowlist <==> IsBreakingLine(b, h, s)
  {
    hide DiffFindings, Reported, Signature, Line, Fits, BreakingOnly, Select;
    var fs := DiffFindings(b, h);
    forall s
      ensures s in BreakingSignatures(fs) <==> IsBreakingLine(b, h, s)
    {
      if s in BreakingSignatures(fs) {
        var f :| f in fs && f.severity == Breaking && Signature(f) == s;
        ReportedExactly(b, h, f);
        ReportedFits(b, h, f);
        SignatureIsLine(f);
      }
      if f :| Reported(b, h, f) && f.severity == Breaking && Line(f) == s {
        ReportedExactly(b, h, f);
        ReportedFits(b, h, f);
        SignatureIsLine(f);
      }
    }
  }

  /** One breaking finding is let through by its line, and by nothing else. */
  lemma OneLine(b: Document, h: Document, f: Finding, allowlist: map<string, string>)
    requires Reported(b, h, f) && f.severity == Breaking
    requires forall g :: Reported(b, h, g) && g.severity == Breaking ==> g == f
    ensures VerdictOn(DiffFindings(b, h), allowlist).exit == 0 <==> allowlist.Keys == {Line(f)}
  {
    hide Reported, Line, VerdictOn, DiffFindings;
    GateInText(b, h, allowlist);
    assert forall s :: IsBreakingLine(b, h, s) <==> s == Line(f);
    assert (forall s :: s in allowlist <==> s == Line(f)) <==> allowlist.Keys == {Line(f)};
  }

  lemma NothingNew(b: Document, f: Finding)
    ensures !Reported(b, b, f)
  {
    hide Reported, DiffFindings;
    DiffWithItself(b);
    ReportedExactly(b, b, f);
  }

  /** A head that lacks one path of the base: one line lets it through. */
  lemma LostPath(b: Document, p: string, allowlist: map<string, string>)
    requires p in b.paths
    ensures var h := b.(paths := b.paths - {p});
            VerdictOn(DiffFindings(b, h), allowlist).exit == 0 <==> allowlist.Keys == {"removed_path:" + p}
  {
    hide VerdictOn, DiffFindings, PathReport, AtSchema, AtProperty, KeyReport;
    var h, f := b.(paths := b.paths - {p}), Finding(Removed(PathKey), Member(AllPaths, p), Plain, Breaking);
    forall g | Reported(b, h, g) && g.severity == Breaking ensures g == f {
      NothingNew(b, g);
      KeyReportOfOne(g, PathKey);
    }
    assert Reported(b, h, f) by { KeyReportOfOne(f, PathKey); }
    OneLine(b, h, f, allowlist);
    assert "removed_path" + ":" == "removed_path:";
  }

  /** ... one method of a path. */
  lemma LostMethod(b: Document, p: string, m: Method, allowlist: map<string, string>)
    requires p in b.paths && m in b.paths[p]
    ensures var h := b.(paths := b.paths[p := b.paths[p] - {m}]);
            VerdictOn(DiffFindings(b, h), allowlist).exit == 0 <==> allowlist.Keys == {"removed_method:" + (p + " " + Verb(m))}
  {
    hide VerdictOn, DiffFindings, OperationReport, AtSchema, AtProperty, KeyReport, Verb;
    var h, f := b.(paths := b.paths[p := b.paths[p] - {m}]), Finding(Removed(MethodKey), OperationAt(p, m), Plain, Breaking);
    forall g | Reported(b, h, g) && g.severity == Breaking ensures g == f {
      NothingNew(b, g);
      KeyReportOfOne(g, MethodKey);
    }
    assert Reported(b, h, f) by { KeyReportOfOne(f, MethodKey); }
    OneLine(b, h, f, allowlist);
    assert "removed_method" + ":" == "removed_method:";
  }

  /** ... one schema. */
  lemma LostSchema(b: Document, n: string, allowlist: map<string, string>)
    requires n in b.schemas
    ensures var h := b.(schemas := b.schemas - {n});
            VerdictOn(DiffFindings(b, h), allowlist).exit == 0 <==> allowlist.Keys == {"removed_schema:" + n}
  {
    hide VerdictOn, DiffFindings, PathReport, AtProperty, KeyReport, TypeReport;
    var h, f := b.(schemas := b.schemas - {n}), Finding(Removed(SchemaName), Member(AllSchemas, n), Plain, Breaking);
    forall g | Reported(b, h, g) && g.severity == Breaking ensures g == f {
      NothingNew(b, g);
      KeyReportOfOne(g, SchemaName);
    }
    assert Reported(b, h, f) by { KeyReportOfOne(f, SchemaName); }
    OneLine(b, h, f, allowlist);
    assert "removed_schema" + ":" == "removed_schema:";
  }

  lemma KeyReportOfOne(f: Finding, subject: Subject)
    ensures KeyReport(f, subject, true, false, false) <==> f.kind == Removed(subject) && f.note == Plain && f.severity == Breaking
  {
  }
}
