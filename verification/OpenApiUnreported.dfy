/** Findings that no diff reports: a new operation id, a new enum value and, where
    parameters are in the standard places, a moved parameter. */
module OpenApiUnreported {
  import opened OpenApiDocument
  import opened OpenApiDiff
  import opened OpenApiReported

  ghost predicate Never(kind: Kind, fs: seq<Finding>) {
    forall f :: f in fs ==> f.kind != kind
  }

  lemma NotAtParameter(f: Finding, k: string, b: map<string, Parameter>, h: map<string, Parameter>)
    requires AtParameter(f, k, b, h)
    ensures f.kind != Added(OperationIdentifier) && f.kind != Added(EnumValue)
    ensures f.kind == Changed(ParameterIn) ==> k in b && k in h && b[k].location != h[k].location
  {
    hide DroppedValues, HasItems, TypeOf, SchemaItems, ParamSchema;
  }

  lemma NotAtProperty(f: Finding, k: string, b: ObjectSchema, h: ObjectSchema)
    requires AtProperty(f, k, b, h)
    ensures f.kind !in {Added(OperationIdentifier), Added(EnumValue), Changed(ParameterIn)}
  {
    hide DroppedValues, HasItems, TypeOf, SchemaItems, PropertiesOf, RequiredOf;
  }

  lemma NotInPath(f: Finding, path: string, b: PathItem, h: PathItem)
    requires PathReport(f, path, b, h)
    ensures f.kind != Added(OperationIdentifier) && f.kind != Added(EnumValue)
    ensures f.kind == Changed(ParameterIn) ==>
              && f.at.Member? && f.at.scope.ParametersOf? && var m := f.at.scope.verb;
              && m in b && m in h && var k := f.at.name;
              && k in Params(b[m]) && k in Params(h[m]) && Params(b[m])[k].location != Params(h[m])[k].location
  {
    hide AtParameter, MediaFingerprint, OperationId, SecurityOf, KeyedParameters;
    match f.at
    case Member(ParametersOf(_, m), k) => NotAtParameter(f, k, Params(b[m]), Params(h[m]));
    case _ =>
  }

  /** No diff announces a new operation id or a new enum value. */
  lemma NewIdsAndEnumValuesGoUnannounced(b: Document, h: Document)
    ensures Never(Added(OperationIdentifier), DiffFindings(b, h))
    ensures Never(Added(EnumValue), DiffFindings(b, h))
  {
    hide DiffFindings, PathReport, AtProperty, Names;
    forall f | f in DiffFindings(b, h) ensures f.kind != Added(OperationIdentifier) && f.kind != Added(EnumValue) {
      ReportedExactly(b, h, f);
      if MethodOf(f.at).Some? {
        var p := MethodOf(f.at).value.0;
        NotInPath(f, p, b.paths[p], h.paths[p]);
      } else if f.at.Member? && f.at.scope.PropertiesIn? {
        NotAtProperty(f, f.at.name, b.schemas[f.at.scope.schema], h.schemas[f.at.scope.schema]);
      }
    }
  }

  ghost predicate StandardLocations(d: Document) {
    forall p, m, q | p in d.paths && m in d.paths[p] && q in d.paths[p][m].parameters :: StandardLocation(q.location)
  }

  /** With every parameter in a standard place, no diff reports that one has moved: it
      is matched by its place, so that a move reads as a removal and an addition. */
  lemma MovesAreNeverReported(b: Document, h: Document)
    requires StandardLocations(b) && StandardLocations(h)
    ensures Never(Changed(ParameterIn), DiffFindings(b, h))
  {
    hide DiffFindings, PathReport, AtProperty, Names, KeyedParameters, ParameterKey, StandardLocation;
    forall f | f in DiffFindings(b, h) ensures f.kind != Changed(ParameterIn) {
      ReportedExactly(b, h, f);
      if MethodOf(f.at).Some? {
        var p := MethodOf(f.at).value.0;
        NotInPath(f, p, b.paths[p], h.paths[p]);
        if f.kind == Changed(ParameterIn) {
          var m, k := f.at.scope.verb, f.at.name;
          NoMove(b, h, p, m, k);
        }
      } else if f.at.Member? && f.at.scope.PropertiesIn? {
        NotAtProperty(f, f.at.name, b.schemas[f.at.scope.schema], h.schemas[f.at.scope.schema]);
      }
    }
  }

  lemma NoMove(b: Document, h: Document, p: string, m: Method, k: string)
    requires StandardLocations(b) && StandardLocations(h)
    requires p in b.paths && p in h.paths && m in b.paths[p] && m in h.paths[p]
    requires k in Params(b.paths[p][m]) && k in Params(h.paths[p][m])
    ensures Params(b.paths[p][m])[k].location == Params(h.paths[p][m])[k].location
  {
    hide KeyedParameters, ParameterKey, StandardLocation;
    var x, y := Params(b.paths[p][m])[k], Params(h.paths[p][m])[k];
    assert StandardLocation(x.location) && StandardLocation(y.location);
    MatchedParametersShareLocation(x, y);
  }
}
