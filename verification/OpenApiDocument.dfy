/** The part of an OpenAPI 3.x document that the diff gate reads
    (scripts/check_openapi_diff.py). A JSON null is treated as an absent key. */
module OpenApiDocument {
  import opened Wrappers

  datatype Method = GET | PUT | POST | DELETE | OPTIONS | HEAD | PATCH | TRACE

  const HTTP_METHODS: seq<Method> := [GET, PUT, POST, DELETE, OPTIONS, HEAD, PATCH, TRACE]

  /** The component sections whose entries are compared by name only. */
  datatype Section = SecuritySchemes | Parameters | RequestBodies | Responses | Headers

  const COMPONENT_SECTIONS: seq<Section> :=
    [SecuritySchemes, Parameters, RequestBodies, Responses, Headers]

  /** The value of a `type` keyword: one name, or a list of names. */
  datatype TypeTag = One(name: string) | Many(names: seq<string>)

  /** A schema position may hold a truthy value that is not an object, such as `true`. */
  datatype Schema = NonObject(text: string) | Object(body: ObjectSchema)

  /** `other` holds the keywords that the gate never reads; they matter only
      because an object that carries one is not empty. Enum values are
      identified by their JSON text. */
  datatype ObjectSchema = ObjectSchema(
    ref: Option<string>,
    typ: Option<TypeTag>,
    items: Option<Schema>,
    enum: Option<seq<string>>,
    required: Option<seq<string>>,
    properties: Option<map<string, ObjectSchema>>,
    other: map<string, string>)

  const EMPTY_SCHEMA := ObjectSchema(None, None, None, None, None, None, map[])

  datatype Parameter = Parameter(
    location: Option<string>,
    name: Option<string>,
    required: bool,
    schema: Option<ObjectSchema>)

  datatype MediaType = MediaType(schema: Option<Schema>)

  datatype RequestBody = RequestBody(required: bool, content: map<string, MediaType>)

  datatype Response = Response(content: map<string, MediaType>)

  /** Each security alternative is the set of scheme names it asks for. */
  datatype Operation = Operation(
    operationId: Option<string>,
    parameters: seq<Parameter>,
    requestBody: Option<RequestBody>,
    responses: map<string, Response>,
    security: seq<set<string>>)

  type PathItem = map<Method, Operation>

  datatype Document = Document(
    info: string,
    servers: seq<string>,
    paths: map<string, PathItem>,
    schemas: map<string, ObjectSchema>,
    components: map<Section, set<string>>)

  // ---- what the comparison reads off a document ----

  /** The comparable fingerprint of a schema: its `$ref` target or its type. */
  datatype Fingerprint = Missing | Ref(target: string) | Typed(tag: TypeTag) | Untyped

  function SchemaType(s: Schema): Fingerprint {
    match s
    case NonObject(_) => Missing
    case Object(o) =>
      if o.ref.Some? then Ref(o.ref.value)
      else if o.typ.Some? then Typed(o.typ.value)
      else Untyped
  }

  function TypeOf(o: ObjectSchema): Fingerprint {
    SchemaType(Object(o))
  }

  function SchemaItems(o: ObjectSchema): ObjectSchema {
    if o.typ == Some(One("array")) && o.items.Some? && o.items.value.Object? then
      o.items.value.body
    else
      EMPTY_SCHEMA
  }

  /** The truth value of `schema_items(schema)`: an empty object is falsy. */
  predicate HasItems(o: ObjectSchema) {
    SchemaItems(o) != EMPTY_SCHEMA
  }

  function ParameterKey(p: Parameter): string {
    (if p.location.Some? then p.location.value else "?") + ":" +
    (if p.name.Some? then p.name.value else "?")
  }

  /** `{parameter_key(p): p for p in parameters}`: a later entry replaces an earlier one. */
  function KeyedParameters(ps: seq<Parameter>): (m: map<string, Parameter>)
    ensures forall k :: k in m ==> m[k] in ps && ParameterKey(m[k]) == k
    ensures forall p :: p in ps ==> ParameterKey(p) in m
  {
    if ps == [] then map[]
    else
      var last := ps[|ps| - 1];
      KeyedParameters(ps[..|ps| - 1])[ParameterKey(last) := last]
  }

  lemma KeyedOfOneMore(ps: seq<Parameter>, p: Parameter)
    ensures KeyedParameters(ps + [p]) == KeyedParameters(ps)[ParameterKey(p) := p]
  {
    assert (ps + [p])[..|ps|] == ps;
  }

  /** Of the parameters with one key, exactly the last is read. */
  lemma {:induction false} LastParameterIsRead(before: seq<Parameter>, p: Parameter, after: seq<Parameter>)
    requires forall q :: q in after ==> ParameterKey(q) != ParameterKey(p)
    ensures var m := KeyedParameters(before + [p] + after);
            ParameterKey(p) in m && m[ParameterKey(p)] == p
  {
    hide ParameterKey, KeyedParameters;
    if after == [] {
      assert before + [p] + after == before + [p];
      KeyedOfOneMore(before, p);
    } else {
      var init, last := after[..|after| - 1], after[|after| - 1];
      LastParameterIsRead(before, p, init);
      assert before + [p] + after == before + [p] + init + [last];
      KeyedOfOneMore(before + [p] + init, last);
      assert last in after;
    }
  }

  function Params(op: Operation): map<string, Parameter> {
    KeyedParameters(op.parameters)
  }

  function ParamSchema(p: Parameter): ObjectSchema {
    if p.schema.Some? then p.schema.value else EMPTY_SCHEMA
  }

  /** An empty operation id is as good as none. */
  function OperationId(op: Operation): Option<string> {
    if op.operationId == Some("") then None else op.operationId
  }

  function SecurityOf(op: Operation): set<set<string>> {
    set r | r in op.security
  }

  function ServersOf(d: Document): set<string> {
    set u | u in d.servers
  }

  function Names(d: Document, section: Section): set<string> {
    if section in d.components then d.components[section] else {}
  }

  function PropertiesOf(o: ObjectSchema): map<string, ObjectSchema> {
    if o.properties.Some? then o.properties.value else map[]
  }

  function RequiredOf(o: ObjectSchema): set<string> {
    if o.required.Some? then (set r | r in o.required.value) else {}
  }

  function MediaFingerprint(m: MediaType): Fingerprint {
    if m.schema.Some? then SchemaType(m.schema.value) else Untyped
  }

  /** Two objects have the same fingerprint exactly when they refer to the same schema or,
      neither referring to any, declare the same type or none. */
  lemma FingerprintsAgreeExactly(a: ObjectSchema, b: ObjectSchema)
    ensures TypeOf(a) == TypeOf(b) <==> a.ref == b.ref && (a.ref == None ==> a.typ == b.typ)
    ensures TypeOf(a) != Missing && (a.ref.Some? ==> TypeOf(a) == Ref(a.ref.value))
    ensures a.ref == None && a.typ.Some? ==> TypeOf(a) == Typed(a.typ.value)
  {
  }

  /** Items count only under the type `array`, and only if they are an object that says something. */
  lemma ItemsAreReadExactly(o: ObjectSchema, items: ObjectSchema)
    ensures HasItems(o) && SchemaItems(o) == items
       <==> o.typ == Some(One("array")) && o.items == Some(Object(items)) && items != EMPTY_SCHEMA
  {
  }

  /** The key of a parameter is its place, a colon and its name, a question mark standing
      for either of them where it is missing. */
  lemma KeysInText(l: string, n: string, required: bool, s: Option<ObjectSchema>)
    ensures ParameterKey(Parameter(Some(l), Some(n), required, s)) == l + ":" + n
    ensures ParameterKey(Parameter(None, Some(n), required, s)) == "?:" + n
    ensures ParameterKey(Parameter(Some(l), None, required, s)) == l + ":?"
  {
    assert "?" + ":" == "?:";
    assert l + ":" + "?" == l + ":?";
  }

  /** A location as section 4.8.12 of the OpenAPI Specification 3.1.0 allows it. */
  predicate StandardLocation(l: Option<string>) {
    l in {Some("query"), Some("header"), Some("path"), Some("cookie")}
  }

  /** Parameters are matched by `in:name`, so two standard parameters that are
      matched are in the same place: moving one shows up as a removal and an
      addition, never as a change of location. */
  lemma MatchedParametersShareLocation(b: Parameter, h: Parameter)
    requires StandardLocation(b.location) && StandardLocation(h.location)
    requires ParameterKey(b) == ParameterKey(h)
    ensures b.location == h.location
  {
    var x, y := b.location.value, h.location.value;
    assert ParameterKey(b)[..|x|] == x && ParameterKey(h)[..|y|] == y;
    assert ParameterKey(b)[|x|] == ':' && ParameterKey(h)[|y|] == ':';
  }
}
