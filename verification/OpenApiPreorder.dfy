/** Exactly when compatibility composes. */
module OpenApiPreorder {
  import opened Wrappers
  import opened OpenApiDocument
  import opened OpenApiCompatibility

  // ---- composition ----

  /** Where the middle schema is silent about items or enum values, the outer two agree. */
  ghost predicate GapAgrees(a: ObjectSchema, b: ObjectSchema, c: ObjectSchema) {
    && (!HasItems(b) ==> ItemsAgree(a, c))
    && (b.enum.None? ==> EnumsKept(a, c))
  }

  ghost predicate ParameterGapsAgree(a: map<string, Parameter>, b: map<string, Parameter>, c: map<string, Parameter>) {
    forall k :: k in a && k in b && k in c ==> GapAgrees(ParamSchema(a[k]), ParamSchema(b[k]), ParamSchema(c[k]))
  }

  ghost predicate PathGapsAgree(a: PathItem, b: PathItem, c: PathItem) {
    forall m :: m in a && m in b && m in c ==> ParameterGapsAgree(Params(a[m]), Params(b[m]), Params(c[m]))
  }

  ghost predicate PropertyGapsAgree(a: map<string, ObjectSchema>, b: map<string, ObjectSchema>, c: map<string, ObjectSchema>) {
    forall q :: q in a && q in b && q in c ==> GapAgrees(a[q], b[q], c[q])
  }

  ghost predicate GapsAgree(a: Document, b: Document, c: Document) {
    && (forall p :: p in a.paths && p in b.paths && p in c.paths ==>
          PathGapsAgree(a.paths[p], b.paths[p], c.paths[p]))
    && (forall n :: n in a.schemas && n in b.schemas && n in c.schemas ==>
          PropertyGapsAgree(PropertiesOf(a.schemas[n]), PropertiesOf(b.schemas[n]), PropertiesOf(c.schemas[n])))
  }

  lemma TypingComposes(a: ObjectSchema, b: ObjectSchema, c: ObjectSchema)
    requires TypingKept(a, b) && TypingKept(b, c)
    ensures TypingKept(a, c) <==> GapAgrees(a, b, c)
  {
  }

  lemma ParametersCompose(a: map<string, Parameter>, b: map<string, Parameter>, c: map<string, Parameter>)
    requires ParametersKept(a, b) && ParametersKept(b, c)
    ensures ParametersKept(a, c) <==> ParameterGapsAgree(a, b, c)
  {
    hide TypingKept, GapAgrees;
    forall k | k in a && k in b && k in c
      ensures ParameterKept(a[k], c[k]) <==> GapAgrees(ParamSchema(a[k]), ParamSchema(b[k]), ParamSchema(c[k]))
    {
      TypingComposes(ParamSchema(a[k]), ParamSchema(b[k]), ParamSchema(c[k]));
    }
  }

  lemma OperationComposes(a: Operation, b: Operation, c: Operation)
    requires OperationKept(a, b) && OperationKept(b, c)
    ensures OperationKept(a, c) <==> ParameterGapsAgree(Params(a), Params(b), Params(c))
  {
    hide ParametersKept, ParameterGapsAgree;
    ParametersCompose(Params(a), Params(b), Params(c));
  }

  lemma PathComposes(a: PathItem, b: PathItem, c: PathItem)
    requires PathKept(a, b) && PathKept(b, c)
    ensures PathKept(a, c) <==> PathGapsAgree(a, b, c)
  {
    hide OperationKept, ParameterGapsAgree;
    forall m | m in a && m in b && m in c
      ensures OperationKept(a[m], c[m]) <==> ParameterGapsAgree(Params(a[m]), Params(b[m]), Params(c[m]))
    {
      OperationComposes(a[m], b[m], c[m]);
    }
  }

  lemma SchemaComposes(a: ObjectSchema, b: ObjectSchema, c: ObjectSchema)
    requires SchemaKept(a, b) && SchemaKept(b, c)
    ensures SchemaKept(a, c) <==> PropertyGapsAgree(PropertiesOf(a), PropertiesOf(b), PropertiesOf(c))
  {
    hide TypingKept, GapAgrees;
    var pa, pb, pc := PropertiesOf(a), PropertiesOf(b), PropertiesOf(c);
    forall q | q in pa && q in pb && q in pc
      ensures TypingKept(pa[q], pc[q]) <==> GapAgrees(pa[q], pb[q], pc[q])
    {
      TypingComposes(pa[q], pb[q], pc[q]);
    }
  }

  /** Two clean steps make one clean step exactly when, at every parameter and
      property where the middle document is silent about items or enum values,
      the outer documents agree with each other. */
  lemma CompatibilityComposesExactly(a: Document, b: Document, c: Document)
    requires Compatible(a, b) && Compatible(b, c)
    ensures Compatible(a, c) <==> GapsAgree(a, b, c)
  {
    hide Compatible, PathKept, SchemaKept, PathGapsAgree, PropertyGapsAgree;
    CompatibleIffKept(a, b);
    CompatibleIffKept(b, c);
    CompatibleIffKept(a, c);
    forall p | p in a.paths
      ensures PathKept(a.paths[p], c.paths[p]) <==> PathGapsAgree(a.paths[p], b.paths[p], c.paths[p])
    {
      PathComposes(a.paths[p], b.paths[p], c.paths[p]);
    }
    forall n | n in a.schemas
      ensures SchemaKept(a.schemas[n], c.schemas[n])
         <==> PropertyGapsAgree(PropertiesOf(a.schemas[n]), PropertiesOf(b.schemas[n]), PropertiesOf(c.schemas[n]))
    {
      SchemaComposes(a.schemas[n], b.schemas[n], c.schemas[n]);
    }
  }

  /** The middle schema declares items and an enum wherever both outer ones do. */
  ghost predicate Bridges(a: ObjectSchema, b: ObjectSchema, c: ObjectSchema) {
    && (HasItems(a) && HasItems(c) ==> HasItems(b))
    && (a.enum.Some? && c.enum.Some? ==> b.enum.Some?)
  }

  ghost predicate BridgesPath(a: PathItem, b: PathItem, c: PathItem) {
    forall m | m in a && m in b && m in c ::
      forall k | k in Params(a[m]) && k in Params(b[m]) && k in Params(c[m]) ::
        Bridges(ParamSchema(Params(a[m])[k]), ParamSchema(Params(b[m])[k]), ParamSchema(Params(c[m])[k]))
  }

  ghost predicate BridgesSchema(a: ObjectSchema, b: ObjectSchema, c: ObjectSchema) {
    forall q | q in PropertiesOf(a) && q in PropertiesOf(b) && q in PropertiesOf(c) ::
      Bridges(PropertiesOf(a)[q], PropertiesOf(b)[q], PropertiesOf(c)[q])
  }

  ghost predicate BridgesEverywhere(a: Document, b: Document, c: Document) {
    && (forall p | p in a.paths && p in b.paths && p in c.paths ::
          BridgesPath(a.paths[p], b.paths[p], c.paths[p]))
    && (forall n | n in a.schemas && n in b.schemas && n in c.schemas ::
          BridgesSchema(a.schemas[n], b.schemas[n], c.schemas[n]))
  }

  lemma BridgeAgrees(a: ObjectSchema, b: ObjectSchema, c: ObjectSchema)
    requires Bridges(a, b, c)
    ensures GapAgrees(a, b, c)
  {
  }

  /** It composes in particular when the middle document declares whatever both others do. */
  lemma CompatibilityComposes(a: Document, b: Document, c: Document)
    requires Compatible(a, b) && Compatible(b, c)
    requires BridgesEverywhere(a, b, c)
    ensures Compatible(a, c)
  {
    hide Compatible, GapAgrees, Bridges;
    CompatibilityComposesExactly(a, b, c);
    forall x, y, z | Bridges(x, y, z) ensures GapAgrees(x, y, z) { BridgeAgrees(x, y, z); }
  }

  // ---- without the proviso it does not compose ----

  /** A document with one schema, `Order`, that has one property, `tags`. */
  function OrderWith(tags: ObjectSchema): Document {
    Document("", [], map[], map["Order" := EMPTY_SCHEMA.(properties := Some(map["tags" := tags]))], map[])
  }

  function ArrayOf(items: Option<Schema>): ObjectSchema {
    EMPTY_SCHEMA.(typ := Some(One("array")), items := items)
  }

  function OfType(name: string): Option<Schema> {
    Some(Object(EMPTY_SCHEMA.(typ := Some(One(name)))))
  }

  function OneOf(values: Option<seq<string>>): ObjectSchema {
    EMPTY_SCHEMA.(typ := Some(One("string")), enum := values)
  }

  lemma PropertyStep(x: ObjectSchema, y: ObjectSchema)
    ensures Compatible(OrderWith(x), OrderWith(y)) <==> TypingKept(x, y)
  {
    hide Compatible, TypingKept;
    var b, h := OrderWith(x), OrderWith(y);
    CompatibleIffKept(b, h);
    assert "Order" in b.schemas && "tags" in PropertiesOf(b.schemas["Order"]);
    assert SchemaKept(b.schemas["Order"], h.schemas["Order"]) <==> TypingKept(x, y);
  }

  /** An item type can be changed in two clean steps, through a version that leaves the items out. */
  lemma ItemTypeChangedInTwoSteps()
    ensures Compatible(OrderWith(ArrayOf(OfType("string"))), OrderWith(ArrayOf(None)))
    ensures Compatible(OrderWith(ArrayOf(None)), OrderWith(ArrayOf(OfType("integer"))))
    ensures !Compatible(OrderWith(ArrayOf(OfType("string"))), OrderWith(ArrayOf(OfType("integer"))))
  {
    hide Compatible;
    PropertyStep(ArrayOf(OfType("string")), ArrayOf(None));
    PropertyStep(ArrayOf(None), ArrayOf(OfType("integer")));
    PropertyStep(ArrayOf(OfType("string")), ArrayOf(OfType("integer")));
  }

  /** An enum value can be dropped in two clean steps, through a version that leaves the enum out. */
  lemma EnumValueDroppedInTwoSteps()
    ensures Compatible(OrderWith(OneOf(Some(["open", "closed"]))), OrderWith(OneOf(None)))
    ensures Compatible(OrderWith(OneOf(None)), OrderWith(OneOf(Some(["open"]))))
    ensures !Compatible(OrderWith(OneOf(Some(["open", "closed"]))), OrderWith(OneOf(Some(["open"]))))
  {
    hide Compatible;
    PropertyStep(OneOf(Some(["open", "closed"])), OneOf(None));
    PropertyStep(OneOf(None), OneOf(Some(["open"])));
    PropertyStep(OneOf(Some(["open", "closed"])), OneOf(Some(["open"])));
    assert "closed" in ["open", "closed"] && "closed" !in ["open"];
  }
}
