/** The verdict of scripts/check_openapi_diff.py: allowlist, report and exit code. */
module OpenApiGate {
  import opened Wrappers
  import opened StringOrder
  import opened OpenApiDocument
  import opened OpenApiDiff
  import opened OpenApiCompatibility

  // ---- signatures ----

  /** The kinds that the comparisons write. */
  function KindName(k: Kind): string {
    match k
    case Changed(InfoBlock) => "info_changed"
    case Removed(ServerUrl) => "removed_server"
    case Added(ServerUrl) => "added_server"
    case Removed(PathKey) => "removed_path"
    case Added(PathKey) => "added_path"
    case Removed(MethodKey) => "removed_method"
    case Added(MethodKey) => "added_method"
    case Changed(OperationIdentifier) => "changed_operation_id"
    case Removed(OperationIdentifier) => "removed_operation_id"
    case Removed(ParameterEntry) => "removed_parameter"
    case Added(ParameterEntry) => "added_parameter"
    case BecameRequired(ParameterEntry) => "parameter_became_required"
    case BecameOptional(ParameterEntry) => "relaxed_parameter"
    case Changed(ParameterIn) => "changed_parameter_in"
    case Changed(ParameterType) => "changed_parameter_type"
    case Changed(ParameterItemType) => "changed_parameter_item_type"
    case Removed(BodyEntry) => "removed_request_body"
    case Added(BodyEntry) => "added_request_body"
    case BecameRequired(BodyEntry) => "request_body_became_required"
    case BecameOptional(BodyEntry) => "request_body_became_optional"
    case Removed(BodyMedia) => "removed_media_type"
    case Added(BodyMedia) => "added_media_type"
    case Removed(ResponseCode) => "removed_response"
    case Added(ResponseCode) => "added_response"
    case Removed(ResponseMediaKey) => "removed_response_media_type"
    case Added(ResponseMediaKey) => "added_response_media_type"
    case Changed(ResponseSchema) => "changed_response_schema"
    case Removed(Security) => "removed_security_requirement"
    case Added(Security) => "added_security_requirement"
    case Changed(Security) => "changed_security_requirement"
    case Removed(SchemaName) => "removed_schema"
    case Added(SchemaName) => "added_schema"
    case Changed(SchemaKind) => "changed_schema_type"
    case Removed(PropertyEntry) => "removed_property"
    case Added(PropertyEntry) => "added_property"
    case BecameRequired(PropertyEntry) => "property_became_required"
    case BecameOptional(PropertyEntry) => "property_became_optional"
    case Changed(PropertyType) => "changed_property_type"
    case Changed(PropertyItemType) => "changed_property_item_type"
    case Removed(EnumValue) => "removed_enum_value"
    case Removed(Component) => "removed_component"
    case Added(Component) => "added_component"
    case _ => ""
  }

  function Verb(m: Method): string {
    match m
    case GET => "GET" case PUT => "PUT" case POST => "POST" case DELETE => "DELETE"
    case OPTIONS => "OPTIONS" case HEAD => "HEAD" case PATCH => "PATCH" case TRACE => "TRACE"
  }

  function SectionName(s: Section): string {
    match s
    case SecuritySchemes => "securitySchemes"
    case Parameters => "parameters"
    case RequestBodies => "requestBodies"
    case Responses => "responses"
    case Headers => "headers"
  }

  function Place(at: Location): string {
    match at
    case TopLevel => ""
    case OperationAt(path, verb) => path + " " + Verb(verb)
    case Member(scope, name) =>
      match scope
      case AllServers => name
      case AllPaths => name
      case ParametersOf(path, verb) => path + " " + Verb(verb) + " " + name
      case RequestMediaOf(path, verb) => path + " " + Verb(verb) + " request " + name
      case ResponsesOf(path, verb) => path + " " + Verb(verb) + " " + name
      case ResponseMediaOf(path, verb, code) => path + " " + Verb(verb) + " " + code + " " + name
      case AllSchemas => name
      case PropertiesIn(schema) => schema + "." + name
      case ComponentsIn(section) => SectionName(section) + "." + name
  }

  function Quoted(s: string): string {
    "'" + s + "'"
  }

  function QuotedList(xs: seq<string>): string {
    if xs == [] then ""
    else if |xs| == 1 then Quoted(xs[0])
    else Quoted(xs[0]) + ", " + QuotedList(xs[1..])
  }

  function FingerprintText(f: Fingerprint): string {
    match f
    case Missing => "('<missing>',)"
    case Untyped => "('<untyped>',)"
    case Ref(t) => "('$ref', " + Quoted(t) + ")"
    case Typed(One(t)) => "('type', " + Quoted(t) + ")"
    case Typed(Many(ts)) => "('type', [" + QuotedList(ts) + "])"
  }

  function LocationText(l: Option<string>): string {
    if l.Some? then l.value else "None"
  }

  function Detail(f: Finding): string {
    match f.note
    case Plain => Place(f.at)
    case Moved(x, y) => Place(f.at) + " (" + LocationText(x) + " -> " + LocationText(y) + ")"
    case Retyped(x, y) =>
      var items := if f.kind.subject in {ParameterItemType, PropertyItemType} then "items " else "";
      Place(f.at) + " (" + items + FingerprintText(x) + " -> " + FingerprintText(y) + ")"
    case Renamed(x, y) =>
      if f.kind.subject == InfoBlock then "base=" + x + " head=" + y
      else Place(f.at) + " " + x + " -> " + y
    case Lost(id) => Place(f.at) + " " + id
    case Dropped(values) => Place(f.at) + " ([" + QuotedList(values) + "])"
  }

  function Signature(f: Finding): string {
    KindName(f.kind) + ":" + Detail(f)
  }

  // ---- the verdict ----

  datatype Verdict = Verdict(exit: nat, remaining: seq<Finding>, allowlisted: seq<Finding>, stale: seq<string>)

  function BreakingOnly(findings: seq<Finding>): (r: seq<Finding>)
    ensures forall f :: f in r <==> f in findings && f.severity == Breaking
  {
    if findings == [] then []
    else
      var last := findings[|findings| - 1];
      BreakingOnly(findings[..|findings| - 1]) + (if last.severity == Breaking then [last] else [])
  }

  function BreakingSignatures(findings: seq<Finding>): set<string> {
    set f | f in findings && f.severity == Breaking :: Signature(f)
  }

  /** The findings whose signature is in `sigs`, or those whose signature is not, in order. */
  function Select(findings: seq<Finding>, sigs: set<string>, inside: bool): (r: seq<Finding>)
    ensures forall f :: f in r <==> f in findings && (Signature(f) in sigs <==> inside)
  {
    if findings == [] then []
    else
      var last := findings[|findings| - 1];
      Select(findings[..|findings| - 1], sigs, inside) + (if Signature(last) in sigs <==> inside then [last] else [])
  }

  lemma {:induction false} SelectPartitions(findings: seq<Finding>, sigs: set<string>)
    ensures multiset(Select(findings, sigs, true)) + multiset(Select(findings, sigs, false)) == multiset(findings)
  {
    hide Signature;
    if findings != [] {
      var init, last := findings[..|findings| - 1], findings[|findings| - 1];
      SelectPartitions(init, sigs);
      var a, b := Select(init, sigs, true), Select(init, sigs, false);
      MultisetMore(init, last);
      MultisetMore(a, last);
      MultisetMore(b, last);
      assert findings == init + [last];
      if Signature(last) in sigs {
        assert Select(findings, sigs, true) == a + [last] && Select(findings, sigs, false) == b + [] == b;
      } else {
        assert Select(findings, sigs, true) == a + [] == a && Select(findings, sigs, false) == b + [last];
      }
    }
  }

  lemma MultisetMore(s: seq<Finding>, f: Finding)
    ensures multiset(s + [f]) == multiset(s) + multiset{f}
  {
  }

  /** Setting aside what the allowlist names, and then what no remaining finding
      carries, sets the same findings aside. */
  lemma {:induction false} SelectByRemaining(findings: seq<Finding>, sigs: set<string>, taken: set<string>)
    requires forall f :: f in findings ==> (Signature(f) in taken <==> Signature(f) !in sigs)
    ensures Select(findings, taken, false) == Select(findings, sigs, true)
  {
    hide Signature;
    if findings != [] {
      SelectByRemaining(findings[..|findings| - 1], sigs, taken);
    }
  }

  /** `[f for f in findings if f.signature not in sigs]`, as the loop of `main`. */
  method Without(findings: seq<Finding>, sigs: set<string>) returns (r: seq<Finding>)
    ensures r == Select(findings, sigs, false)
  {
    r := [];
    for i := 0 to |findings|
      invariant r == Select(findings[..i], sigs, false)
    {
      assert findings[..i + 1][..i] == findings[..i];
      if Signature(findings[i]) !in sigs {
        r := r + [findings[i]];
      }
    }
    assert findings[..|findings|] == findings;
  }

  function SignaturesOf(findings: seq<Finding>): set<string> {
    set f | f in findings :: Signature(f)
  }

  lemma BreakingSignaturesAre(findings: seq<Finding>)
    ensures SignaturesOf(BreakingOnly(findings)) == BreakingSignatures(findings)
  {
    hide Signature;
  }

  lemma RemainingSignatures(breaking: seq<Finding>, sigs: set<string>)
    ensures forall f :: f in breaking ==>
              (Signature(f) in SignaturesOf(Select(breaking, sigs, false)) <==> Signature(f) !in sigs)
    ensures Select(breaking, sigs, false) == [] <==> SignaturesOf(breaking) <= sigs
  {
    hide Signature;
    var remaining := Select(breaking, sigs, false);
    if remaining != [] {
      assert remaining[0] in breaking && Signature(remaining[0]) in SignaturesOf(breaking);
    }
    if !(SignaturesOf(breaking) <= sigs) {
      var f :| f in breaking && Signature(f) !in sigs;
      assert f in remaining;
    }
  }

  /** The verdict on a list of findings: the gate passes exactly when the allowlist names
      the breaking signatures and nothing else. */
  function VerdictOn(findings: seq<Finding>, allowlist: map<string, string>): Verdict {
    var breaking := BreakingOnly(findings);
    Verdict(if allowlist.Keys == BreakingSignatures(findings) then 0 else 1,
            Select(breaking, allowlist.Keys, false),
            Select(breaking, allowlist.Keys, true),
            Sorted(allowlist.Keys - BreakingSignatures(findings)))
  }

  /** The part of `main` from the diff to the exit code: first stale entries, then
      remaining findings. It reports each breaking finding on exactly one of two lists. */
  method Judge(findings: seq<Finding>, allowlist: map<string, string>) returns (v: Verdict)
    ensures v == VerdictOn(findings, allowlist)
    ensures v.exit == 0 <==> allowlist.Keys == BreakingSignatures(findings)
    ensures forall f :: f in v.remaining <==> f in findings && f.severity == Breaking && Signature(f) !in allowlist
    ensures forall f :: f in v.allowlisted <==> f in findings && f.severity == Breaking && Signature(f) in allowlist
    ensures forall s :: s in v.stale <==> s in allowlist && s !in BreakingSignatures(findings)
    ensures multiset(v.remaining) + multiset(v.allowlisted) == multiset(BreakingOnly(findings))
  {
    hide Signature, Select, BreakingOnly, BreakingSignatures, SignaturesOf;
    var breaking := BreakingOnly(findings);
    var remaining := Without(breaking, allowlist.Keys);
    BreakingSignaturesAre(findings);
    var stale := Sorted(allowlist.Keys - SignaturesOf(breaking));
    RemainingSignatures(breaking, allowlist.Keys);
    SelectByRemaining(breaking, allowlist.Keys, SignaturesOf(remaining));
    SelectPartitions(breaking, allowlist.Keys);
    var allowlisted := Without(breaking, SignaturesOf(remaining));
    var exit: nat := 0;
    if stale != [] {
      exit := 1;
      assert stale[0] in stale;
    } else if remaining != [] {
      exit := 1;
    } else {
      assert |allowlist.Keys - SignaturesOf(breaking)| == 0;
      assert allowlist.Keys == SignaturesOf(breaking);
    }
    v := Verdict(exit, remaining, allowlisted, stale);
  }

  lemma BreakingOnlyOfOneMore(s: seq<Finding>, f: Finding)
    ensures BreakingOnly(s + [f]) == if f.severity == Breaking then BreakingOnly(s) + [f] else BreakingOnly(s)
  {
    assert (s + [f])[..|s|] == s;
  }

  lemma {:induction false} BreakingOnlyTwice(findings: seq<Finding>)
    ensures BreakingOnly(BreakingOnly(findings)) == BreakingOnly(findings)
  {
    if findings != [] {
      var init, last := findings[..|findings| - 1], findings[|findings| - 1];
      BreakingOnlyTwice(init);
      assert findings == init + [last];
      BreakingOnlyOfOneMore(init, last);
      BreakingOnlyOfOneMore(BreakingOnly(init), last);
    }
  }

  /** Additive and informational findings, wherever they stand in the list, change
      nothing in the verdict: not the exit code, not the lists, not the stale entries. */
  lemma OnlyBreakingMatters(findings: seq<Finding>, allowlist: map<string, string>)
    ensures VerdictOn(findings, allowlist) == VerdictOn(BreakingOnly(findings), allowlist)
  {
    hide Signature, Select;
    BreakingOnlyTwice(findings);
    assert BreakingSignatures(BreakingOnly(findings)) == BreakingSignatures(findings);
  }

  /** Diff and verdict together: with no allowlist, the gate lets a change
      through exactly when the head keeps the whole tracked surface of the base. */
  method RunGate(b: Document, h: Document, allowlist: map<string, string>) returns (v: Verdict)
    ensures v == VerdictOn(DiffFindings(b, h), allowlist)
    ensures v.exit == 0 <==> allowlist.Keys == BreakingSignatures(DiffFindings(b, h))
    ensures allowlist == map[] ==> (v.exit == 0 <==> DocumentKept(b, h))
  {
    hide DiffFindings, DocumentKept, Signature;
    var findings := DiffSpecs(b, h);
    v := Judge(findings, allowlist);
    CompatibleIffKept(b, h);
    NoSignaturesIffClean(findings);
  }

  lemma NoSignaturesIffClean(findings: seq<Finding>)
    ensures BreakingSignatures(findings) == {} <==> Clean(findings)
  {
    hide Signature;
    if !Clean(findings) {
      var f :| f in findings && f.severity == Breaking;
      assert Signature(f) in BreakingSignatures(findings);
    }
  }
}
