/** Swapping base and head mirrors the findings: what was added is removed, what
    became required becomes optional, what changed changes back. */
module OpenApiMirror {
  import opened Wrappers
  import opened OpenApiDocument
  import opened OpenApiDiff
  import opened OpenApiReported
  import opened OpenApiUnreported

  function Opposite(k: Kind): Kind {
    match k
    case Removed(s) => Added(s)
    case Added(s) => Removed(s)
    case BecameRequired(s) => BecameOptional(s)
    case BecameOptional(s) => BecameRequired(s)
    case Changed(s) => Changed(s)
  }

  function Reversed(n: Note): Note {
    match n
    case Moved(x, y) => Moved(y, x)
    case Retyped(x, y) => Retyped(y, x)
    case Renamed(x, y) => Renamed(y, x)
    case _ => n
  }

  /** A new operation id and a new enum value are not reported, so the loss of
      either has no counterpart in the opposite diff. */
  predicate HasMirror(k: Kind) {
    k != Removed(OperationIdentifier) && k != Removed(EnumValue)
  }

  ghost predicate MirroredIn(f: Finding, fs: seq<Finding>) {
    exists g :: g in fs && g.kind == Opposite(f.kind) && g.at == f.at && g.note == Reversed(f.note)
  }

  ghost predicate Mirrors(xs: seq<Finding>, ys: seq<Finding>) {
    forall f :: f in xs && HasMirror(f.kind) ==> MirroredIn(f, ys)
  }

  /** The mirror image of a finding, with a severity. */
  function Mirror(f: Finding, s: Severity): Finding {
    Finding(Opposite(f.kind), f.at, Reversed(f.note), s)
  }

  /** How severe the mirror image is, where a lost name would be `mandatory` when new. */
  function SeverityBack(f: Finding, mandatory: bool): Severity {
    match f.kind
    case Removed(Security) => Breaking
    case Added(Security) => Additive
    case Removed(_) => if mandatory then Breaking else Additive
    case BecameRequired(_) => Additive
    case Changed(InfoBlock) => Info
    case _ => Breaking
  }

  lemma MirrorParameter(f: Finding, k: string, b: map<string, Parameter>, h: map<string, Parameter>)
    requires AtParameter(f, k, b, h) && HasMirror(f.kind)
    ensures AtParameter(Mirror(f, SeverityBack(f, k in b && b[k].required)), k, h, b)
  {
    hide DroppedValues, HasItems, TypeOf, SchemaItems, ParamSchema;
  }

  lemma MirrorProperty(f: Finding, k: string, b: ObjectSchema, h: ObjectSchema)
    requires AtProperty(f, k, b, h) && HasMirror(f.kind)
    ensures AtProperty(Mirror(f, SeverityBack(f, k in RequiredOf(b))), k, h, b)
  {
    hide DroppedValues, HasItems, TypeOf, SchemaItems, PropertiesOf, RequiredOf;
  }

  lemma MirrorOperation(f: Finding, b: Operation, h: Operation)
    requires AtOperation(f, b, h) && HasMirror(f.kind)
    ensures AtOperation(Mirror(f, SeverityBack(f, b.requestBody.Some? && b.requestBody.value.required)), h, b)
  {
    hide OperationId, SecurityOf;
  }

  lemma MirrorPath(f: Finding, path: string, b: PathItem, h: PathItem) returns (s: Severity)
    requires PathReport(f, path, b, h) && HasMirror(f.kind)
    ensures PathReport(Mirror(f, s), path, h, b)
  {
    hide AtOperation, AtParameter, MediaFingerprint;
    var m := MethodOf(f.at).value.1;
    s := SeverityBack(f, false);
    match f.at
    case OperationAt(_, _) =>
      if m in b && m in h {
        MirrorOperation(f, b[m], h[m]);
        s := SeverityBack(f, b[m].requestBody.Some? && b[m].requestBody.value.required);
      }
    case Member(ParametersOf(_, _), k) =>
      MirrorParameter(f, k, Params(b[m]), Params(h[m]));
      s := SeverityBack(f, k in Params(b[m]) && Params(b[m])[k].required);
    case _ =>
  }

  lemma MirrorReported(b: Document, h: Document, f: Finding) returns (s: Severity)
    requires Reported(b, h, f) && HasMirror(f.kind)
    ensures Reported(h, b, Mirror(f, s))
  {
    hide PathReport, AtProperty, Names, TypeOf;
    s := SeverityBack(f, false);
    if MethodOf(f.at).Some? {
      var p := MethodOf(f.at).value.0;
      s := MirrorPath(f, p, b.paths[p], h.paths[p]);
    } else if f.at.Member? && f.at.scope.PropertiesIn? {
      var x := b.schemas[f.at.scope.schema];
      MirrorProperty(f, f.at.name, x, h.schemas[f.at.scope.schema]);
      s := SeverityBack(f, f.at.name in RequiredOf(x));
    }
  }

  lemma MirrorKeyChanges(subject: Subject, scope: Scope, b: set<string>, h: set<string>,
                         mb: set<string>, mh: set<string>)
    ensures Mirrors(KeyChanges(subject, scope, b, h, mh), KeyChanges(subject, scope, h, b, mb))
  {
    hide KeyChanges;
    forall f | f in KeyChanges(subject, scope, b, h, mh) ensures MirroredIn(f, KeyChanges(subject, scope, h, b, mb)) {
      InKeys(f, subject, scope, b, h, mh);
      var g := Mirror(f, if f.kind.Added? || f.at.name in mb then Breaking else Additive);
      InKeys(g, subject, scope, h, b, mb);
    }
  }

  /** Every finding of diff(b, h) has its mirror image in diff(h, b), except the
      loss of an operation id or of an enum value. */
  lemma DiffMirrors(b: Document, h: Document)
    ensures Mirrors(DiffFindings(b, h), DiffFindings(h, b))
  {
    hide DiffFindings, Reported;
    forall f | f in DiffFindings(b, h) && HasMirror(f.kind) ensures MirroredIn(f, DiffFindings(h, b)) {
      ReportedExactly(b, h, f);
      var s := MirrorReported(b, h, f);
      ReportedExactly(h, b, Mirror(f, s));
      assert Mirror(f, s) in DiffFindings(h, b);
    }
  }

  ghost predicate Reports(fs: seq<Finding>, kind: Kind, at: Location) {
    exists f :: f in fs && f.kind == kind && f.at == at
  }

  lemma ReportedBack(xs: seq<Finding>, ys: seq<Finding>, kind: Kind, at: Location)
    requires Mirrors(xs, ys) && HasMirror(kind) && Reports(xs, kind, at)
    ensures Reports(ys, Opposite(kind), at)
  {
    var f :| f in xs && f.kind == kind && f.at == at;
    assert MirroredIn(f, ys);
  }

  /** Read off one kind at a time: an addition is reported at a place exactly
      when the opposite diff reports a removal there, and so on. */
  lemma AddedIffRemoved(b: Document, h: Document, kind: Kind, at: Location)
    requires HasMirror(kind) && HasMirror(Opposite(kind))
    ensures Reports(DiffFindings(b, h), kind, at) <==> Reports(DiffFindings(h, b), Opposite(kind), at)
  {
    hide DiffFindings, Mirrors, Reports;
    DiffMirrors(b, h);
    DiffMirrors(h, b);
    if Reports(DiffFindings(b, h), kind, at) {
      ReportedBack(DiffFindings(b, h), DiffFindings(h, b), kind, at);
    }
    if Reports(DiffFindings(h, b), Opposite(kind), at) {
      ReportedBack(DiffFindings(h, b), DiffFindings(b, h), Opposite(kind), at);
    }
  }

  // ---- the two exceptions are exact ----

  /** A finding of diff(b, h) has its mirror image in diff(h, b) exactly when it is not
      the loss of an operation id or of an enum value. */
  lemma MirroredExactly(b: Document, h: Document, f: Finding)
    requires f in DiffFindings(b, h)
    ensures MirroredIn(f, DiffFindings(h, b)) <==> HasMirror(f.kind)
  {
    hide DiffFindings;
    DiffMirrors(b, h);
    NewIdsAndEnumValuesGoUnannounced(h, b);
  }

  // ---- both exceptions occur ----

  function OneOperation(id: Option<string>): Document {
    Document("", [], map["/health" := map[GET := Operation(id, [], None, map[], [])]], map[], map[])
  }

  /** Losing an operation id is reported, and gaining it is not. */
  lemma LostOperationIdHasNoMirror(id: string)
    requires id != ""
    ensures var f := Finding(Removed(OperationIdentifier), OperationAt("/health", GET), Lost(id), Breaking);
            var b, h := OneOperation(Some(id)), OneOperation(None);
            f in DiffFindings(b, h) && !MirroredIn(f, DiffFindings(h, b))
  {
    hide DiffFindings, MirroredIn;
    var f := Finding(Removed(OperationIdentifier), OperationAt("/health", GET), Lost(id), Breaking);
    var b, h := OneOperation(Some(id)), OneOperation(None);
    ReportedExactly(b, h, f);
    MirroredExactly(b, h, f);
  }

  function OneEnum(values: seq<string>): Document {
    Document("", [], map[], map["Order" := EMPTY_SCHEMA.(
      properties := Some(map["state" := EMPTY_SCHEMA.(enum := Some(values))]))], map[])
  }

  /** Losing an enum value is reported, and gaining it is not. */
  lemma LostEnumValueHasNoMirror(value: string)
    ensures var f := Finding(Removed(EnumValue), Member(PropertiesIn("Order"), "state"), Dropped([value]), Breaking);
            var b, h := OneEnum([value]), OneEnum([]);
            f in DiffFindings(b, h) && !MirroredIn(f, DiffFindings(h, b))
  {
    hide DiffFindings, MirroredIn;
    var f := Finding(Removed(EnumValue), Member(PropertiesIn("Order"), "state"), Dropped([value]), Breaking);
    var b, h := OneEnum([value]), OneEnum([]);
    assert DroppedValues([value], []) == [value] by {
      assert [value][..0] == [] && DroppedValues([], []) == [];
    }
    assert value in [value];
    ReportedExactly(b, h, f);
    MirroredExactly(b, h, f);
  }
}
