/** What a clean diff is for: requests that the base accepts stay accepted, and
    responses keep their shape. */
module OpenApiRequests {
  import opened Wrappers
  import opened OpenApiDocument
  import opened OpenApiCompatibility

  /** An argument, described by the schema fingerprint and item fingerprint it
      was written for and by its JSON text. */
  datatype Argument = Argument(fingerprint: Fingerprint, items: Fingerprint, text: string)

  /** `arguments` is keyed as parameters are; `body` is the media type sent, if
      any; `credentials` are the security schemes the caller can satisfy. */
  datatype Request = Request(
    path: string,
    verb: Method,
    arguments: map<string, Argument>,
    body: Option<string>,
    credentials: set<string>)

  ghost predicate AcceptsArgument(p: Parameter, a: Argument) {
    a.fingerprint == TypeOf(ParamSchema(p))
  }

  ghost predicate AcceptsArguments(ps: map<string, Parameter>, args: map<string, Argument>) {
    && args.Keys <= ps.Keys
    && (forall k :: k in ps && ps[k].required ==> k in args)
    && (forall k :: k in args && k in ps ==> AcceptsArgument(ps[k], args[k]))
  }

  ghost predicate AcceptsBody(b: Option<RequestBody>, sent: Option<string>) {
    match sent
    case None => b.Some? ==> !b.value.required
    case Some(media) => b.Some? && media in b.value.content
  }

  ghost predicate Authorizes(security: set<set<string>>, credentials: set<string>) {
    security == {} || exists r :: r in security && r <= credentials
  }

  ghost predicate Accepts(d: Document, r: Request) {
    && r.path in d.paths
    && r.verb in d.paths[r.path]
    && var op := d.paths[r.path][r.verb];
       && AcceptsArguments(Params(op), r.arguments)
       && AcceptsBody(op.requestBody, r.body)
       && Authorizes(SecurityOf(op), r.credentials)
  }

  lemma OperationStaysAccepting(b: Operation, h: Operation, r: Request)
    requires OperationKept(b, h)
    requires AcceptsArguments(Params(b), r.arguments) && AcceptsBody(b.requestBody, r.body)
    requires Authorizes(SecurityOf(b), r.credentials)
    ensures AcceptsArguments(Params(h), r.arguments) && AcceptsBody(h.requestBody, r.body)
    ensures Authorizes(SecurityOf(h), r.credentials)
  {
    var bp, hp := Params(b), Params(h);
    forall k | k in hp && hp[k].required ensures k in r.arguments {
      assert k in bp && ParameterKept(bp[k], hp[k]);
    }
    forall k | k in r.arguments ensures AcceptsArgument(hp[k], r.arguments[k]) {
      assert ParameterKept(bp[k], hp[k]);
    }
  }

  /** Every request that the base accepts is accepted by a compatible head. */
  lemma RequestsStayAccepted(b: Document, h: Document, r: Request)
    requires Compatible(b, h)
    requires Accepts(b, r)
    ensures Accepts(h, r)
  {
    hide Compatible, OperationKept, AcceptsArguments, AcceptsBody, Authorizes;
    CompatibleIffKept(b, h);
    assert PathKept(b.paths[r.path], h.paths[r.path]);
    OperationStaysAccepting(b.paths[r.path][r.verb], h.paths[r.path][r.verb], r);
  }

  /** Every response code and media type of the base is still there, with the same fingerprint. */
  lemma ResponsesKeepTheirShape(b: Document, h: Document, path: string, verb: Method, code: string, media: string)
    requires Compatible(b, h)
    requires path in b.paths && verb in b.paths[path] && code in b.paths[path][verb].responses
    requires media in b.paths[path][verb].responses[code].content
    ensures path in h.paths && verb in h.paths[path] && code in h.paths[path][verb].responses
    ensures media in h.paths[path][verb].responses[code].content
    ensures MediaFingerprint(h.paths[path][verb].responses[code].content[media])
         == MediaFingerprint(b.paths[path][verb].responses[code].content[media])
  {
    hide Compatible, ParametersKept;
    CompatibleIffKept(b, h);
    assert PathKept(b.paths[path], h.paths[path]);
    assert OperationKept(b.paths[path][verb], h.paths[path][verb]);
    assert MediaKept(b.paths[path][verb].responses[code].content, h.paths[path][verb].responses[code].content);
  }

  // ---- items and enum values ----

  /** The finer reading: declared items and declared enum values must match too. */
  ghost predicate AcceptsValue(p: Parameter, a: Argument) {
    var s := ParamSchema(p);
    && a.fingerprint == TypeOf(s)
    && (HasItems(s) ==> a.items == TypeOf(SchemaItems(s)))
    && (s.enum.Some? ==> a.text in s.enum.value)
  }

  /** The head declares items, or an enum, only where the base already did. */
  ghost predicate DeclaresNoMore(b: Parameter, h: Parameter) {
    && (HasItems(ParamSchema(h)) ==> HasItems(ParamSchema(b)))
    && (ParamSchema(h).enum.Some? ==> ParamSchema(b).enum.Some?)
  }

  ghost predicate EveryValueStays(b: Parameter, h: Parameter) {
    forall a :: AcceptsValue(b, a) ==> AcceptsValue(h, a)
  }

  /** A clean parameter comparison keeps every accepted value if the head declares no more. */
  lemma ValuesStayAccepted(b: Parameter, h: Parameter)
    requires ParameterKept(b, h) && DeclaresNoMore(b, h)
    ensures EveryValueStays(b, h)
  {
  }

  /** ... and where the head declares more, some value is lost: items always, an
      enum always, unless the base accepted nothing at all. */
  lemma ValuesLostWhereMoreIsDeclared(b: Parameter, h: Parameter)
    requires ParameterKept(b, h) && !DeclaresNoMore(b, h)
    requires exists a :: AcceptsValue(b, a)
    ensures !EveryValueStays(b, h)
  {
    var s, t := ParamSchema(b), ParamSchema(h);
    var a :| AcceptsValue(b, a);
    if HasItems(t) && !HasItems(s) {
      var other := a.(items := if TypeOf(SchemaItems(t)) == Missing then Untyped else Missing);
      assert AcceptsValue(b, other) && !AcceptsValue(h, other);
    } else {
      var other := a.(text := LongerThan(t.enum.value));
      assert AcceptsValue(b, other) && !AcceptsValue(h, other);
    }
  }

  /** A text that is longer than every listed value, hence not listed. */
  ghost function LongerThan(values: seq<string>): (r: string)
    ensures forall v :: v in values ==> |v| < |r|
  {
    if values == [] then ""
    else
      var shorter := LongerThan(values[1..]);
      shorter + values[0] + "x"
  }

  // ---- the finer reading, document by document ----

  ghost predicate AcceptsValues(ps: map<string, Parameter>, args: map<string, Argument>) {
    && args.Keys <= ps.Keys
    && (forall k :: k in ps && ps[k].required ==> k in args)
    && (forall k :: k in args && k in ps ==> AcceptsValue(ps[k], args[k]))
  }

  ghost predicate AcceptsFinely(d: Document, r: Request) {
    && r.path in d.paths
    && r.verb in d.paths[r.path]
    && var op := d.paths[r.path][r.verb];
       && AcceptsValues(Params(op), r.arguments)
       && AcceptsBody(op.requestBody, r.body)
       && Authorizes(SecurityOf(op), r.credentials)
  }

  /** Some value is accepted: the enum, if there is one, lists a value. */
  predicate TakesValues(p: Parameter) {
    ParamSchema(p).enum != Some([])
  }

  lemma TakesValuesMeans(p: Parameter)
    ensures TakesValues(p) <==> exists a :: AcceptsValue(p, a)
  {
    var s := ParamSchema(p);
    if TakesValues(p) {
      var text := if s.enum.Some? then s.enum.value[0] else "";
      assert AcceptsValue(p, Argument(TypeOf(s), TypeOf(SchemaItems(s)), text));
    }
  }

  /** Some request to the operation is accepted. */
  predicate Usable(op: Operation) {
    && (forall k | k in Params(op) :: Params(op)[k].required ==> TakesValues(Params(op)[k]))
    && (op.requestBody.Some? && op.requestBody.value.required ==> op.requestBody.value.content != map[])
  }

  ghost function SomeValue(p: Parameter): (a: Argument)
    requires TakesValues(p)
    ensures AcceptsValue(p, a)
  {
    TakesValuesMeans(p);
    var a :| AcceptsValue(p, a);
    a
  }

  lemma UsableMeans(d: Document, path: string, verb: Method)
    requires path in d.paths && verb in d.paths[path]
    ensures Usable(d.paths[path][verb]) <==> exists r: Request :: r.path == path && r.verb == verb && AcceptsFinely(d, r)
  {
    hide AcceptsValue, TakesValues, Params;
    var op := d.paths[path][verb];
    if Usable(op) {
      var r := SomeRequest(op, path, verb);
      assert AcceptsFinely(d, r);
    }
    if r: Request :| r.path == path && r.verb == verb && AcceptsFinely(d, r) {
      forall k | k in Params(op) && Params(op)[k].required ensures TakesValues(Params(op)[k]) {
        TakesValuesMeans(Params(op)[k]);
        assert AcceptsValue(Params(op)[k], r.arguments[k]);
      }
    }
  }

  lemma SomeRequest(op: Operation, path: string, verb: Method) returns (r: Request)
    requires Usable(op)
    ensures r.path == path && r.verb == verb && AcceptsValues(Params(op), r.arguments)
    ensures AcceptsBody(op.requestBody, r.body) && Authorizes(SecurityOf(op), r.credentials)
  {
    hide AcceptsValue, TakesValues, Params;
    var arguments := map k | k in Params(op) && Params(op)[k].required :: SomeValue(Params(op)[k]);
    var body := None;
    if op.requestBody.Some? && op.requestBody.value.required {
      var media :| media in op.requestBody.value.content;
      body := Some(media);
    }
    var credentials := {};
    if SecurityOf(op) != {} {
      credentials :| credentials in SecurityOf(op);
    }
    r := Request(path, verb, arguments, body, credentials);
  }

  /** At the operation, where a value is accepted at all, the head declares items and
      enums only where the base did. */
  ghost predicate OperationDeclaresNoMore(b: Operation, h: Operation) {
    forall k | k in Params(b) && k in Params(h) && TakesValues(Params(b)[k]) :: DeclaresNoMore(Params(b)[k], Params(h)[k])
  }

  lemma ValuesOfKeptParameters(b: Operation, h: Operation, r: Request)
    requires OperationKept(b, h) && OperationDeclaresNoMore(b, h) && AcceptsValues(Params(b), r.arguments)
    ensures AcceptsValues(Params(h), r.arguments)
  {
    hide DeclaresNoMore, AcceptsValue, TypingKept, TakesValues, Params;
    var bp, hp := Params(b), Params(h);
    forall k | k in hp && hp[k].required ensures k in r.arguments {
      assert k in bp && ParameterKept(bp[k], hp[k]);
    }
    forall k | k in r.arguments ensures AcceptsValue(hp[k], r.arguments[k]) {
      TakesValuesMeans(bp[k]);
      assert ParameterKept(bp[k], hp[k]) && DeclaresNoMore(bp[k], hp[k]);
      ValuesStayAccepted(bp[k], hp[k]);
    }
  }

  lemma BodyStaysAccepted(b: Operation, h: Operation, r: Request)
    requires OperationKept(b, h) && AcceptsBody(b.requestBody, r.body) && Authorizes(SecurityOf(b), r.credentials)
    ensures AcceptsBody(h.requestBody, r.body) && Authorizes(SecurityOf(h), r.credentials)
  {
  }

  lemma RequestStays(b: Document, h: Document, r: Request)
    requires DocumentKept(b, h) && AcceptsFinely(b, r)
    requires r.path in h.paths && r.verb in h.paths[r.path] ==>
               OperationDeclaresNoMore(b.paths[r.path][r.verb], h.paths[r.path][r.verb])
    ensures AcceptsFinely(h, r)
  {
    hide AcceptsBody, Authorizes, AcceptsValues, OperationDeclaresNoMore, ParametersKept;
    assert PathKept(b.paths[r.path], h.paths[r.path]);
    var x, y := b.paths[r.path][r.verb], h.paths[r.path][r.verb];
    ValuesOfKeptParameters(x, y, r);
    BodyStaysAccepted(x, y, r);
  }

  /** A usable operation at which the head declares more loses a request. */
  lemma RequestIsLost(b: Document, h: Document, path: string, verb: Method) returns (r: Request)
    requires path in b.paths && path in h.paths && verb in b.paths[path] && verb in h.paths[path]
    requires var x, y := b.paths[path][verb], h.paths[path][verb];
             OperationKept(x, y) && Usable(x) && !OperationDeclaresNoMore(x, y)
    ensures AcceptsFinely(b, r) && !AcceptsFinely(h, r)
  {
    hide AcceptsValue, TakesValues, Params, DeclaresNoMore, AcceptsBody, Authorizes, Usable, TypingKept, ResponsesKept;
    var x, y := b.paths[path][verb], h.paths[path][verb];
    r := SomeRequest(x, path, verb);
    var k :| k in Params(x) && k in Params(y) && TakesValues(Params(x)[k]) && !DeclaresNoMore(Params(x)[k], Params(y)[k]);
    TakesValuesMeans(Params(x)[k]);
    ValuesLostWhereMoreIsDeclared(Params(x)[k], Params(y)[k]);
    var a :| AcceptsValue(Params(x)[k], a) && !AcceptsValue(Params(y)[k], a);
    r := r.(arguments := r.arguments[k := a]);
  }

  ghost predicate EveryRequestStays(b: Document, h: Document) {
    forall r :: AcceptsFinely(b, r) ==> AcceptsFinely(h, r)
  }

  /** No more is declared at any operation that can be used. */
  ghost predicate DocumentDeclaresNoMore(b: Document, h: Document) {
    forall path, verb | path in b.paths && path in h.paths && verb in b.paths[path] && verb in h.paths[path] ::
      Usable(b.paths[path][verb]) ==> OperationDeclaresNoMore(b.paths[path][verb], h.paths[path][verb])
  }

  /** What a compatible head keeps in the finer sense: every request that the base
      accepts, exactly when it declares no more at the operations that can be used. */
  lemma RequestsStayFinelyAccepted(b: Document, h: Document)
    requires Compatible(b, h)
    ensures EveryRequestStays(b, h) <==> DocumentDeclaresNoMore(b, h)
  {
    hide Compatible, OperationDeclaresNoMore, Usable, OperationKept, AcceptsFinely;
    CompatibleIffKept(b, h);
    assert forall path | path in b.paths :: PathKept(b.paths[path], h.paths[path]);
    if path, verb :| path in b.paths && verb in b.paths[path] && Usable(b.paths[path][verb])
                     && !OperationDeclaresNoMore(b.paths[path][verb], h.paths[path][verb]) {
      var r := RequestIsLost(b, h, path, verb);
    } else {
      forall r | AcceptsFinely(b, r) ensures AcceptsFinely(h, r) {
        FinelyIsThere(b, r);
        UsableMeans(b, r.path, r.verb);
        RequestStays(b, h, r);
      }
    }
  }

  lemma FinelyIsThere(d: Document, r: Request)
    requires AcceptsFinely(d, r)
    ensures r.path in d.paths && r.verb in d.paths[r.path]
  {
  }
}
