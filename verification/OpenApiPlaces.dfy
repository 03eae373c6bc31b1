/** When a signature names one place: exactly when its text can be read in one way. */
module OpenApiPlaces {
  import opened Wrappers
  import opened OpenApiDocument
  import opened OpenApiDiff
  import opened OpenApiReported
  import opened OpenApiGate
  import opened OpenApiSignatures

  // ---- words ----

  /** Two texts that are equal agree up to the first separator and from there on. */
  lemma SplitAgrees(c: char, a: string, x: string, b: string, y: string)
    requires c !in a && c !in b && (x == "" || x[0] == c) && (y == "" || y[0] == c) && a + x == b + y
    ensures a == b && x == y
  {
    assert forall i :: 0 <= i < |a| ==> (a + x)[i] == a[i] && a[i] in a;
    assert forall i :: 0 <= i < |b| ==> (b + y)[i] == b[i] && b[i] in b;
    assert x != "" ==> (a + x)[|a|] == c;
    assert y != "" ==> (b + y)[|b|] == c;
    assert a == (a + x)[..|a|] && b == (b + y)[..|b|] && x == (a + x)[|a|..] && y == (b + y)[|b|..];
  }

  lemma VerbIsOneWord(m: Method)
    ensures ' ' !in Verb(m) && '.' !in Verb(m) && Verb(m) != "" && Verb(m)[0] != '('
  {
  }

  lemma VerbDetermines(m: Method, n: Method)
    requires Verb(m) == Verb(n)
    ensures m == n
  {
    assert Verb(m)[0] == Verb(n)[0] && |Verb(m)| == |Verb(n)| && Verb(m)[1] == Verb(n)[1];
  }

  /** A path, a method and something more, with a space between them. */
  function Triple(p: string, m: Method, k: string): string {
    p + " " + Verb(m) + " " + k
  }

  function After(i: nat, m: Method): nat {
    i + |Verb(m)| + 2
  }

  /** A method stands between two spaces, the first of them at `i`. */
  predicate VerbAt(t: string, i: nat, m: Method) {
    After(i, m) <= |t| && t[i..After(i, m)] == " " + Verb(m) + " "
  }

  lemma TripleReads(p: string, m: Method, k: string)
    ensures var t := Triple(p, m, k); VerbAt(t, |p|, m) && t[..|p|] == p && t[After(|p|, m)..] == k
  {
    hide Verb;
    var t, v := Triple(p, m, k), " " + Verb(m) + " ";
    assert t == p + (v + k);
    assert t[|p|..] == v + k;
    assert t[|p|..After(|p|, m)] == t[|p|..][..|v|] == v;
    assert t[After(|p|, m)..] == t[|p|..][|v|..] == k;
  }

  lemma TripleFrom(t: string, i: nat, m: Method)
    requires VerbAt(t, i, m)
    ensures Triple(t[..i], m, t[After(i, m)..]) == t
  {
    hide Verb;
    var v := " " + Verb(m) + " ";
    assert t == t[..i] + t[i..After(i, m)] + t[After(i, m)..];
    assert t[..i] + v + t[After(i, m)..] == t[..i] + " " + Verb(m) + " " + t[After(i, m)..];
  }

  lemma VerbAtDetermines(t: string, i: nat, m: Method, n: Method)
    requires VerbAt(t, i, m) && VerbAt(t, i, n)
    ensures m == n
  {
    hide Verb;
    var u := t[i + 1..];
    VerbIsOneWord(m);
    VerbIsOneWord(n);
    WordFrom(t, i, m);
    WordFrom(t, i, n);
    SplitAgrees(' ', Verb(m), u[|Verb(m)|..], Verb(n), u[|Verb(n)|..]);
    VerbDetermines(m, n);
  }

  lemma WordFrom(t: string, i: nat, m: Method)
    requires VerbAt(t, i, m)
    ensures var u := t[i + 1..]; |Verb(m)| < |u| && u == Verb(m) + u[|Verb(m)|..] && u[|Verb(m)|] == ' '
  {
    hide Verb;
    var u, v := t[i + 1..], t[i..After(i, m)];
    assert v[1..|Verb(m)| + 1] == Verb(m) && v[|Verb(m)| + 1] == ' ';
    assert forall j :: 0 <= j < |Verb(m)| + 1 ==> u[j] == v[j + 1];
    assert u[..|Verb(m)|] == v[1..|Verb(m)| + 1];
    assert u[|Verb(m)|] == v[|Verb(m)| + 1];
  }

  // ---- one text, one place ----

  function Family(at: Location): nat {
    match at
    case TopLevel => 0
    case OperationAt(_, _) => 1
    case Member(AllServers, _) => 2
    case Member(AllPaths, _) => 3
    case Member(ParametersOf(_, _), _) => 4
    case Member(RequestMediaOf(_, _), _) => 5
    case Member(ResponsesOf(_, _), _) => 6
    case Member(ResponseMediaOf(_, _, _), _) => 7
    case Member(AllSchemas, _) => 8
    case Member(PropertiesIn(_), _) => 9
    case Member(ComponentsIn(_), _) => 10
  }

  ghost predicate OneVerb(t: string, p: string) {
    forall i: nat, m :: VerbAt(t, i, m) ==> i == |p|
  }

  predicate FollowedBy(t: string, i: nat, s: string) {
    i + |s| <= |t| && t[i..i + |s|] == s
  }

  /** The text of the place can be taken apart in one way only. */
  ghost predicate OneReading(at: Location) {
    var t := Place(at);
    match at
    case Member(ParametersOf(p, _), _) => OneVerb(t, p)
    case Member(ResponsesOf(p, _), _) => OneVerb(t, p)
    case Member(RequestMediaOf(p, _), _) =>
      forall i: nat, m :: VerbAt(t, i, m) && FollowedBy(t, After(i, m), "request ") ==> i == |p|
    case Member(ResponseMediaOf(p, v, c), _) =>
      forall i: nat, m, j | VerbAt(t, i, m) && After(i, m) <= j < |t| && t[j] == ' ' :: i == |p| && j == After(|p|, v) + |c|
    case Member(PropertiesIn(n), _) => forall j | 0 <= j < |t| && t[j] == '.' :: j == |n|
    case _ => true
  }

  /** No other place of its family has the text of this one. */
  ghost predicate Alone(at: Location) {
    forall other :: Family(other) == Family(at) && Place(other) == Place(at) ==> other == at
  }

  lemma SameTriple(p: string, m: Method, k: string, q: string, n: Method, l: string)
    requires Triple(p, m, k) == Triple(q, n, l) && |p| == |q|
    ensures p == q && m == n && k == l
  {
    hide Verb;
    TripleReads(p, m, k);
    TripleReads(q, n, l);
    VerbAtDetermines(Triple(p, m, k), |p|, m, n);
  }

  /** Families whose texts are a path, a method and a name. */
  lemma AloneByVerb(at: Location, p: string, m: Method, k: string)
    requires at == Member(ParametersOf(p, m), k) || at == Member(ResponsesOf(p, m), k)
    ensures Alone(at) <==> OneReading(at)
  {
    hide Verb, VerbAt, Triple;
    var t := Place(at);
    assert t == Triple(p, m, k) by { TripleIs(p, m, k); }
    if OneReading(at) {
      forall other | Family(other) == Family(at) && Place(other) == t ensures other == at {
        var q, n, l := other.scope.path, other.scope.verb, other.name;
        TripleIs(q, n, l);
        TripleReads(q, n, l);
        SameTriple(p, m, k, q, n, l);
      }
    } else {
      var i: nat, n :| VerbAt(t, i, n) && i != |p|;
      TripleFrom(t, i, n);
      AfterIsInside(t, i, n);
      TripleIs(t[..i], n, t[After(i, n)..]);
      var other := if at.scope.ParametersOf? then Member(ParametersOf(t[..i], n), t[After(i, n)..])
                   else Member(ResponsesOf(t[..i], n), t[After(i, n)..]);
      assert Place(other) == t && other != at;
    }
  }

  lemma TripleIs(p: string, m: Method, k: string)
    ensures Triple(p, m, k) == p + " " + Verb(m) + " " + k
  {
  }

  lemma AfterIsInside(t: string, i: nat, m: Method)
    requires VerbAt(t, i, m)
    ensures i <= After(i, m) <= |t|
  {
  }

  function Request(k: string): string {
    "request " + k
  }

  lemma RequestPlace(p: string, m: Method, k: string)
    ensures Place(Member(RequestMediaOf(p, m), k)) == Triple(p, m, Request(k))
  {
    hide Verb;
    assert " " + "request " == " request ";
    assert p + " " + Verb(m) + (" " + "request ") + k == p + " " + Verb(m) + " " + ("request " + k);
  }

  lemma RequestReads(p: string, m: Method, k: string)
    ensures var t := Triple(p, m, Request(k));
            && VerbAt(t, |p|, m) && FollowedBy(t, After(|p|, m), "request ") && t[After(|p|, m) + 8..] == k
  {
    hide Verb, VerbAt;
    var t := Triple(p, m, Request(k));
    TripleReads(p, m, Request(k));
    var r := t[After(|p|, m)..];
    assert r[..8] == "request " && r[8..] == k;
    AfterIsInside(t, |p|, m);
  }

  lemma AloneByRequest(p: string, m: Method, k: string)
    ensures var at := Member(RequestMediaOf(p, m), k); Alone(at) <==> OneReading(at)
  {
    hide Verb, VerbAt, Triple, FollowedBy, Request, Place;
    var at := Member(RequestMediaOf(p, m), k);
    var t := Place(at);
    RequestPlace(p, m, k);
    if OneReading(at) {
      forall other | Family(other) == Family(at) && Place(other) == t ensures other == at {
        var q, n, l := other.scope.path, other.scope.verb, other.name;
        RequestPlace(q, n, l);
        RequestReads(q, n, l);
        RequestReads(p, m, k);
        SameTriple(p, m, Request(k), q, n, Request(l));
      }
    } else {
      var i: nat, n :| VerbAt(t, i, n) && FollowedBy(t, After(i, n), "request ") && i != |p|;
      TripleFrom(t, i, n);
      AfterIsInside(t, i, n);
      var l := RequestFrom(t, After(i, n));
      RequestPlace(t[..i], n, l);
      assert Place(Member(RequestMediaOf(t[..i], n), l)) == t;
    }
  }

  lemma RequestFrom(t: string, i: nat) returns (l: string)
    requires i <= |t| && FollowedBy(t, i, "request ")
    ensures t[i..] == Request(l)
  {
    l := t[i + 8..];
    assert t[i..] == t[i..i + 8] + l;
  }

  function Spaced(c: string, k: string): string {
    c + " " + k
  }

  lemma MediaPlace(p: string, m: Method, c: string, k: string)
    ensures Place(Member(ResponseMediaOf(p, m, c), k)) == Triple(p, m, Spaced(c, k))
  {
    hide Verb;
    assert p + " " + Verb(m) + " " + c + " " + k == p + " " + Verb(m) + " " + (c + " " + k);
  }

  lemma MediaReads(p: string, m: Method, c: string, k: string)
    ensures var t, i := Triple(p, m, Spaced(c, k)), After(|p|, m);
            && VerbAt(t, |p|, m) && i + |c| < |t| && t[i + |c|] == ' ' && t[i..i + |c|] == c && t[i + |c| + 1..] == k
  {
    hide Verb, VerbAt;
    var t, i := Triple(p, m, Spaced(c, k)), After(|p|, m);
    TripleReads(p, m, Spaced(c, k));
    AfterIsInside(t, |p|, m);
    var r := t[i..];
    assert r[|c|] == ' ' && r[..|c|] == c && r[|c| + 1..] == k;
    assert t[i + |c|] == r[|c|] && t[i..i + |c|] == r[..|c|] && t[i + |c| + 1..] == r[|c| + 1..];
  }

  lemma MediaFrom(t: string, i: nat, m: Method, j: nat)
    requires VerbAt(t, i, m) && After(i, m) <= j < |t| && t[j] == ' '
    ensures i <= j && Triple(t[..i], m, Spaced(t[After(i, m)..j], t[j + 1..])) == t
  {
    hide Verb, VerbAt;
    AfterIsInside(t, i, m);
    assert t[After(i, m)..] == t[After(i, m)..j] + " " + t[j + 1..];
    TripleFrom(t, i, m);
  }

  lemma AloneByMedia(p: string, m: Method, c: string, k: string)
    ensures var at := Member(ResponseMediaOf(p, m, c), k); Alone(at) <==> OneReading(at)
  {
    hide Verb, VerbAt, Triple, Spaced, Place, After;
    var at := Member(ResponseMediaOf(p, m, c), k);
    var t := Place(at);
    MediaPlace(p, m, c, k);
    MediaReads(p, m, c, k);
    if OneReading(at) {
      forall other | Family(other) == Family(at) && Place(other) == t ensures other == at {
        var q, n, d, l := other.scope.path, other.scope.verb, other.scope.code, other.name;
        MediaPlace(q, n, d, l);
        MediaReads(q, n, d, l);
        SameTriple(p, m, Spaced(c, k), q, n, Spaced(d, l));
      }
    } else {
      var i: nat, n, j: nat :| VerbAt(t, i, n) && After(i, n) <= j < |t| && t[j] == ' '
                               && !(i == |p| && j == After(|p|, m) + |c|);
      MediaFrom(t, i, n, j);
      MediaPlace(t[..i], n, t[After(i, n)..j], t[j + 1..]);
      var other := Member(ResponseMediaOf(t[..i], n, t[After(i, n)..j]), t[j + 1..]);
      assert Place(other) == t;
      assert other.scope.path == t[..i] && |other.scope.code| == j - After(i, n);
      if other == at { VerbAtDetermines(t, i, n, m); }
    }
  }

  function Dotted(n: string, k: string): string {
    n + "." + k
  }

  lemma DotPlace(n: string, k: string)
    ensures Place(Member(PropertiesIn(n), k)) == Dotted(n, k)
  {
  }

  lemma AloneByDot(n: string, k: string)
    ensures var at := Member(PropertiesIn(n), k); Alone(at) <==> OneReading(at)
  {
    hide Place, Dotted;
    var at := Member(PropertiesIn(n), k);
    var t := Place(at);
    DotPlace(n, k);
    DotReads(n, k);
    if OneReading(at) {
      forall other | Family(other) == Family(at) && Place(other) == t ensures other == at {
        DotPlace(other.scope.schema, other.name);
        DotReads(other.scope.schema, other.name);
      }
    } else {
      var j :| 0 <= j < |t| && t[j] == '.' && j != |n|;
      DotFrom(t, j);
      DotPlace(t[..j], t[j + 1..]);
      var other := Member(PropertiesIn(t[..j]), t[j + 1..]);
      assert Place(other) == t && |other.scope.schema| == j;
    }
  }

  lemma DotReads(n: string, k: string)
    ensures var t := Dotted(n, k); |n| < |t| && t[|n|] == '.' && t[..|n|] == n && t[|n| + 1..] == k
  {
  }

  lemma DotFrom(t: string, j: nat)
    requires j < |t| && t[j] == '.'
    ensures Dotted(t[..j], t[j + 1..]) == t
  {
  }

  lemma SectionIsOneWord(s: Section)
    ensures '.' !in SectionName(s)
  {
  }

  lemma SectionDetermines(s: Section, r: Section)
    requires SectionName(s) == SectionName(r)
    ensures s == r
  {
    assert SectionName(s)[0] == SectionName(r)[0] && |SectionName(s)| == |SectionName(r)|;
  }

  lemma AloneAnyway(at: Location)
    requires Family(at) in {0, 1, 2, 3, 8, 10}
    ensures Alone(at)
  {
    hide Verb, SectionName;
    forall other | Family(other) == Family(at) && Place(other) == Place(at) ensures other == at {
      match at
      case OperationAt(p, m) => SameOperation(p, m, other.path, other.verb);
      case Member(ComponentsIn(s), k) => SameComponent(s, k, other.scope.section, other.name);
      case _ =>
    }
  }

  lemma SameComponent(s: Section, k: string, r: Section, l: string)
    requires SectionName(s) + "." + k == SectionName(r) + "." + l
    ensures s == r && k == l
  {
    hide SectionName;
    SectionIsOneWord(s);
    SectionIsOneWord(r);
    assert SectionName(s) + ("." + k) == SectionName(s) + "." + k && SectionName(r) + ("." + l) == SectionName(r) + "." + l;
    SplitAgrees('.', SectionName(s), "." + k, SectionName(r), "." + l);
    assert ("." + k)[1..] == k && ("." + l)[1..] == l;
    SectionDetermines(s, r);
  }

  /** A path and a method: the method is what follows the last space. */
  lemma SameOperation(p: string, m: Method, q: string, n: Method)
    requires p + " " + Verb(m) == q + " " + Verb(n)
    ensures p == q && m == n
  {
    hide Verb;
    VerbIsOneWord(m);
    VerbIsOneWord(n);
    LastSpace(p, Verb(m));
    LastSpace(q, Verb(n));
    VerbDetermines(m, n);
  }

  lemma LastSpace(p: string, v: string)
    requires ' ' !in v
    ensures var t := p + " " + v;
            t[|p|] == ' ' && (forall i :: |p| < i < |t| ==> t[i] != ' ') && t[..|p|] == p && t[|p| + 1..] == v
  {
    var t := p + " " + v;
    assert forall i :: |p| < i < |t| ==> t[i] == v[i - |p| - 1] && v[i - |p| - 1] in v;
  }

  /** A place shares its text with no other of its family exactly when the text can be
      taken apart in one way. */
  lemma AloneIffOneReading(at: Location)
    ensures Alone(at) <==> OneReading(at)
  {
    hide Alone, Place, Verb, VerbAt;
    match at
    case Member(ParametersOf(p, m), k) => AloneByVerb(at, p, m, k);
    case Member(ResponsesOf(p, m), k) => AloneByVerb(at, p, m, k);
    case Member(RequestMediaOf(p, m), k) => AloneByRequest(p, m, k);
    case Member(ResponseMediaOf(p, m, c), k) => AloneByMedia(p, m, c, k);
    case Member(PropertiesIn(n), k) => AloneByDot(n, k);
    case _ => AloneAnyway(at);
  }

  // ---- one line, one finding ----

  lemma {:induction false} HeadAgrees(k: string, x: string, y: string)
    requires k + x == k + y
    ensures x == y
  {
    assert x == (k + x)[|k|..] && y == (k + y)[|k|..];
  }

  lemma SameKindSameDetail(f: Finding, g: Finding)
    requires f.kind == g.kind
    ensures Signature(f) == Signature(g) <==> Detail(f) == Detail(g)
  {
    hide KindName, Detail;
    if Signature(f) == Signature(g) { HeadAgrees(KindName(f.kind) + ":", Detail(f), Detail(g)); }
  }

  lemma FamilyFits(f: Finding, at: Location)
    requires Fits(f) && f.note == Plain && Family(at) == Family(f.at)
    ensures Fits(f.(at := at))
  {
  }

  lemma PlainKindHasOneFamily(f: Finding, g: Finding)
    requires Fits(f) && Fits(g) && f.note == Plain && f.kind == g.kind
    ensures g.note == Plain && Family(f.at) == Family(g.at)
  {
    KindOfFamily(f);
    KindOfFamily(g);
  }

  /** An entry for a lost, new or newly required name stands for one place exactly when
      its text can be taken apart in one way. */
  lemma EntryNamesOnePlace(f: Finding)
    requires Fits(f) && f.note == Plain
    ensures (forall g :: Fits(g) && g.kind == f.kind && Signature(g) == Signature(f) ==> g.at == f.at) <==> OneReading(f.at)
  {
    hide Signature, Fits, Family, OneReading, Place;
    AloneIffOneReading(f.at);
    if OneReading(f.at) {
      forall g | Fits(g) && g.kind == f.kind && Signature(g) == Signature(f) ensures g.at == f.at {
        SameKindSameDetail(f, g);
        PlainKindHasOneFamily(f, g);
        PlainDetail(f);
        PlainDetail(g);
      }
    } else {
      var other :| Family(other) == Family(f.at) && Place(other) == Place(f.at) && other != f.at;
      var g := f.(at := other);
      FamilyFits(f, other);
      SameKindSameDetail(f, g);
      PlainDetail(f);
      PlainDetail(g);
    }
  }

  lemma PlainDetail(f: Finding)
    requires f.note == Plain
    ensures Detail(f) == Place(f.at)
  {
    hide Place;
  }

  /** No name that a further part follows contains a space, and no schema name a dot. */
  predicate Tidy(at: Location) {
    match at
    case OperationAt(p, _) => ' ' !in p
    case Member(ParametersOf(p, _), k) => ' ' !in p && ' ' !in k
    case Member(RequestMediaOf(p, _), _) => ' ' !in p
    case Member(ResponsesOf(p, _), _) => ' ' !in p
    case Member(ResponseMediaOf(p, _, c), k) => ' ' !in p && ' ' !in c && ' ' !in k
    case Member(AllSchemas, k) => ' ' !in k
    case Member(PropertiesIn(n), k) => ' ' !in n && '.' !in n && ' ' !in k
    case _ => true
  }

  lemma RestIsApart(f: Finding)
    requires Fits(f) && f.at != TopLevel
    ensures Rest(f) == "" || Rest(f)[0] == ' '
    ensures f.kind == Removed(EnumValue) ==> |Rest(f)| > 1 && Rest(f)[1] == '('
  {
    hide Fits, FingerprintText, QuotedList, LocationText;
    RestOfEnum(f);
  }

  lemma RestOfEnum(f: Finding)
    requires Fits(f)
    ensures f.kind == Removed(EnumValue) ==> f.note.Dropped?
    ensures f.note.Renamed? && f.at != TopLevel ==> Rest(f)[0] == ' '
  {
  }

  /** What follows the path in the text of a finding about an operation. */
  lemma TidyWords(p: string, m: Method, x: string, q: string, n: Method, y: string)
    requires ' ' !in p && ' ' !in q && (x == "" || x[0] == ' ') && (y == "" || y[0] == ' ')
    requires p + " " + Verb(m) + x == q + " " + Verb(n) + y
    ensures p == q && m == n && x == y
  {
    hide Verb;
    var u, v := " " + (Verb(m) + x), " " + (Verb(n) + y);
    assert p + " " + Verb(m) + x == p + u && q + " " + Verb(n) + y == q + v;
    SplitAgrees(' ', p, u, q, v);
    assert u[1..] == Verb(m) + x && v[1..] == Verb(n) + y;
    VerbIsOneWord(m);
    VerbIsOneWord(n);
    SplitAgrees(' ', Verb(m), x, Verb(n), y);
    VerbDetermines(m, n);
  }

  lemma TidyTriples(p: string, m: Method, k: string, x: string, q: string, n: Method, l: string, y: string)
    requires ' ' !in p && ' ' !in q && ' ' !in k && ' ' !in l && (x == "" || x[0] == ' ') && (y == "" || y[0] == ' ')
    requires p + " " + Verb(m) + " " + k + x == q + " " + Verb(n) + " " + l + y
    ensures p == q && m == n && k == l && x == y
  {
    hide Verb;
    var u, v := " " + (k + x), " " + (l + y);
    assert p + " " + Verb(m) + " " + k + x == p + " " + Verb(m) + u;
    assert q + " " + Verb(n) + " " + l + y == q + " " + Verb(n) + v;
    TidyWords(p, m, u, q, n, v);
    assert u[1..] == k + x && v[1..] == l + y;
    SplitAgrees(' ', k, x, l, y);
  }

  lemma TidyMedia(p: string, m: Method, c: string, k: string, x: string, q: string, n: Method, d: string, l: string, y: string)
    requires ' ' !in p && ' ' !in q && ' ' !in c && ' ' !in d && ' ' !in k && ' ' !in l
    requires (x == "" || x[0] == ' ') && (y == "" || y[0] == ' ')
    requires p + " " + Verb(m) + " " + c + " " + k + x == q + " " + Verb(n) + " " + d + " " + l + y
    ensures p == q && m == n && c == d && k == l && x == y
  {
    hide Verb;
    var u, v := " " + (k + x), " " + (l + y);
    assert p + " " + Verb(m) + " " + c + " " + k + x == p + " " + Verb(m) + " " + c + u;
    assert q + " " + Verb(n) + " " + d + " " + l + y == q + " " + Verb(n) + " " + d + v;
    TidyTriples(p, m, c, u, q, n, d, v);
    assert u[1..] == k + x && v[1..] == l + y;
    SplitAgrees(' ', k, x, l, y);
  }

  lemma TidyProperties(n: string, k: string, x: string, r: string, l: string, y: string)
    requires ' ' !in n && '.' !in n && ' ' !in k && ' ' !in r && '.' !in r && ' ' !in l
    requires (x == "" || x[0] == ' ') && (y == "" || y[0] == ' ') && n + "." + k + x == r + "." + l + y
    ensures n == r && k == l && x == y
  {
    var u, v := "." + (k + x), "." + (l + y);
    assert n + "." + k + x == n + u && r + "." + l + y == r + v;
    SplitAgrees('.', n, u, r, v);
    assert u[1..] == k + x && v[1..] == l + y;
    SplitAgrees(' ', k, x, l, y);
  }

  /** A parameter and a property never share an entry for lost enum values. */
  lemma ParameterIsNoProperty(p: string, m: Method, k: string, x: string, n: string, l: string, y: string)
    requires ' ' !in p && ' ' !in n && ' ' !in l && |y| > 1 && y[0] == ' ' && y[1] == '('
    ensures p + " " + Verb(m) + " " + k + x != n + "." + l + y
  {
    hide Verb;
    VerbIsOneWord(m);
    var u := " " + (Verb(m) + (" " + k + x));
    assert p + " " + Verb(m) + " " + k + x == p + u;
    assert u[1] == Verb(m)[0];
    if p + u == n + "." + l + y {
      SplitAgrees(' ', p, u, n + "." + l, y);
    }
  }

  lemma SameFamilySamePlace(f: Finding, g: Finding)
    requires Fits(f) && Fits(g) && f.kind == g.kind && Family(f.at) == Family(g.at) && Tidy(f.at) && Tidy(g.at)
    requires Place(f.at) + Rest(f) == Place(g.at) + Rest(g)
    ensures f.at == g.at
  {
    hide Verb, Rest, Fits, Signature, SectionName;
    if f.at != TopLevel {
      RestIsApart(f);
      RestIsApart(g);
    }
    var x, y := Rest(f), Rest(g);
    match f.at
    case OperationAt(p, m) => TidyWords(p, m, x, g.at.path, g.at.verb, y);
    case Member(ParametersOf(p, m), k) => TidyTriples(p, m, k, x, g.at.scope.path, g.at.scope.verb, g.at.name, y);
    case Member(ResponseMediaOf(p, m, c), k) =>
      TidyMedia(p, m, c, k, x, g.at.scope.path, g.at.scope.verb, g.at.scope.code, g.at.name, y);
    case Member(PropertiesIn(n), k) => TidyProperties(n, k, x, g.at.scope.schema, g.at.name, y);
    case Member(AllSchemas, k) => SplitAgrees(' ', k, x, g.at.name, y);
    case Member(RequestMediaOf(p, m), k) =>
      PlainRest(f);
      PlainRest(g);
      TidyRequests(p, m, k, g.at.scope.path, g.at.scope.verb, g.at.name);
    case Member(ResponsesOf(p, m), k) =>
      PlainRest(f);
      PlainRest(g);
      TidyResponses(p, m, k, g.at.scope.path, g.at.scope.verb, g.at.name);
    case Member(ComponentsIn(s), k) =>
      PlainRest(f);
      PlainRest(g);
      SameComponent(s, k, g.at.scope.section, g.at.name);
    case _ =>
      if f.at != TopLevel {
        PlainRest(f);
        PlainRest(g);
      }
  }

  lemma PlainRest(f: Finding)
    requires Fits(f) && Family(f.at) in {2, 3, 5, 6, 10}
    ensures Place(f.at) + Rest(f) == Place(f.at)
  {
    hide Place;
  }

  lemma TidyResponses(p: string, m: Method, k: string, q: string, n: Method, l: string)
    requires ' ' !in p && ' ' !in q && p + " " + Verb(m) + " " + k == q + " " + Verb(n) + " " + l
    ensures p == q && m == n && k == l
  {
    hide Verb;
    assert p + " " + Verb(m) + " " + k == p + " " + Verb(m) + (" " + k) && q + " " + Verb(n) + " " + l == q + " " + Verb(n) + (" " + l);
    TidyWords(p, m, " " + k, q, n, " " + l);
    assert (" " + k)[1..] == k && (" " + l)[1..] == l;
  }

  lemma TidyRequests(p: string, m: Method, k: string, q: string, n: Method, l: string)
    requires ' ' !in p && ' ' !in q && p + " " + Verb(m) + " request " + k == q + " " + Verb(n) + " request " + l
    ensures p == q && m == n && k == l
  {
    hide Verb;
    var u, v := " request " + k, " request " + l;
    assert p + " " + Verb(m) + " request " + k == p + " " + Verb(m) + u && q + " " + Verb(n) + " request " + l == q + " " + Verb(n) + v;
    TidyWords(p, m, u, q, n, v);
    HeadAgrees(" request ", k, l);
  }

  /** Where names are tidy, findings of one kind at different places have different
      signatures, whatever their notes say. */
  lemma TidySignaturesDiffer(f: Finding, g: Finding)
    requires Fits(f) && Fits(g) && f.kind == g.kind && Tidy(f.at) && Tidy(g.at) && f.at != g.at
    ensures Signature(f) != Signature(g)
  {
    hide Signature, Fits, Tidy, Place, Rest, Detail;
    SameKindSameDetail(f, g);
    DetailIsPlaceAndRest(f);
    DetailIsPlaceAndRest(g);
    OneKindTwoFamilies(f, g);
    if Place(f.at) + Rest(f) == Place(g.at) + Rest(g) && Family(f.at) == Family(g.at) {
      SameFamilySamePlace(f, g);
    }
  }

  lemma OneKindTwoFamilies(f: Finding, g: Finding)
    requires Fits(f) && Fits(g) && f.kind == g.kind && Tidy(f.at) && Tidy(g.at)
    ensures Family(f.at) == Family(g.at) || Place(f.at) + Rest(f) != Place(g.at) + Rest(g)
  {
    hide Rest, Verb, Signature, Detail, Fits;
    FamiliesOfKind(f, g);
    if Family(f.at) == 4 && Family(g.at) == 9 {
      RestIsApart(g);
      ParameterIsNoProperty(f.at.scope.path, f.at.scope.verb, f.at.name, Rest(f), g.at.scope.schema, g.at.name, Rest(g));
    } else if Family(f.at) == 9 && Family(g.at) == 4 {
      RestIsApart(f);
      ParameterIsNoProperty(g.at.scope.path, g.at.scope.verb, g.at.name, Rest(g), f.at.scope.schema, f.at.name, Rest(f));
    }
  }

  /** Only lost enum values are reported in two families. */
  lemma FamiliesOfKind(f: Finding, g: Finding)
    requires Fits(f) && Fits(g) && f.kind == g.kind
    ensures Family(f.at) == Family(g.at) || (f.kind == Removed(EnumValue) && {Family(f.at), Family(g.at)} == {4, 9})
  {
    KindOfFamily(f);
    KindOfFamily(g);
  }

  lemma KindOfFamily(f: Finding)
    requires Fits(f)
    ensures Family(f.at) == FamilyOf(f.kind) || (f.kind == Removed(EnumValue) && Family(f.at) == 9)
  {
    hide Fits;
    match f.at
    case OperationAt(_, _) => KindOfOperation(f);
    case Member(ParametersOf(_, _), _) => KindOfParameter(f);
    case Member(PropertiesIn(_), _) => KindOfProperty(f);
    case _ => KindOfOther(f);
  }

  lemma KindOfOperation(f: Finding)
    requires Fits(f) && f.at.OperationAt?
    ensures FamilyOf(f.kind) == 1
  {
  }

  lemma KindOfParameter(f: Finding)
    requires Fits(f) && f.at.Member? && f.at.scope.ParametersOf?
    ensures FamilyOf(f.kind) == 4
  {
  }

  lemma KindOfProperty(f: Finding)
    requires Fits(f) && f.at.Member? && f.at.scope.PropertiesIn?
    ensures FamilyOf(f.kind) == 9 || f.kind == Removed(EnumValue)
  {
  }

  lemma KindOfOther(f: Finding)
    requires Fits(f) && Family(f.at) !in {1, 4, 9}
    ensures FamilyOf(f.kind) == Family(f.at)
  {
  }

  /** The family that reports a kind. */
  function FamilyOf(k: Kind): nat {
    match k.subject
    case InfoBlock => 0
    case MethodKey | OperationIdentifier | BodyEntry | Security => 1
    case ServerUrl => 2
    case PathKey => 3
    case ParameterEntry | ParameterIn | ParameterType | ParameterItemType | EnumValue => 4
    case BodyMedia => 5
    case ResponseCode => 6
    case ResponseMediaKey | ResponseSchema => 7
    case SchemaName | SchemaKind => 8
    case PropertyEntry | PropertyType | PropertyItemType => 9
    case Component => 10
  }

  lemma TypingIs(f: Finding, ts: Subject, items: Subject, b: ObjectSchema, h: ObjectSchema)
    requires SchemaReport(f, ts, items, b, h)
    ensures f.severity == Breaking
    ensures || (f.kind == Changed(ts) && f.note == Retyped(TypeOf(b), TypeOf(h)))
            || (f.kind == Changed(items) && f.note == Retyped(TypeOf(SchemaItems(b)), TypeOf(SchemaItems(h))))
            || (f.kind == Removed(EnumValue) && b.enum.Some? && h.enum.Some?
                && f.note == Dropped(DroppedValues(b.enum.value, h.enum.value)))
  {
    hide HasItems, TypeOf, SchemaItems, DroppedValues;
  }

  lemma DetermineTyping(f: Finding, g: Finding, ts: Subject, items: Subject, b: ObjectSchema, h: ObjectSchema)
    requires SchemaReport(f, ts, items, b, h) && SchemaReport(g, ts, items, b, h) && f.kind == g.kind && ts != items
    ensures f.note == g.note && f.severity == g.severity
  {
    hide SchemaReport, TypeOf, SchemaItems, DroppedValues;
    TypingIs(f, ts, items, b, h);
    TypingIs(g, ts, items, b, h);
  }

  lemma TypingKinds(f: Finding, ts: Subject, items: Subject, b: ObjectSchema, h: ObjectSchema)
    requires SchemaReport(f, ts, items, b, h)
    ensures f.kind in {Changed(ts), Changed(items), Removed(EnumValue)}
  {
    hide SchemaReport, TypeOf, SchemaItems, DroppedValues;
    TypingIs(f, ts, items, b, h);
  }

  lemma DetermineParameter(f: Finding, g: Finding, k: string, b: map<string, Parameter>, h: map<string, Parameter>)
    requires AtParameter(f, k, b, h) && AtParameter(g, k, b, h) && f.kind == g.kind
    ensures f.note == g.note && f.severity == g.severity
  {
    hide SchemaReport, ParamSchema;
    if k in b && k in h {
      var bs, hs := ParamSchema(b[k]), ParamSchema(h[k]);
      if SchemaReport(f, ParameterType, ParameterItemType, bs, hs) { TypingKinds(f, ParameterType, ParameterItemType, bs, hs); }
      if SchemaReport(g, ParameterType, ParameterItemType, bs, hs) {
        TypingKinds(g, ParameterType, ParameterItemType, bs, hs);
        if SchemaReport(f, ParameterType, ParameterItemType, bs, hs) {
          DetermineTyping(f, g, ParameterType, ParameterItemType, bs, hs);
        }
      }
    }
  }

  lemma DetermineProperty(f: Finding, g: Finding, k: string, b: ObjectSchema, h: ObjectSchema)
    requires AtProperty(f, k, b, h) && AtProperty(g, k, b, h) && f.kind == g.kind
    ensures f.note == g.note && f.severity == g.severity
  {
    hide SchemaReport, PropertiesOf, RequiredOf;
    if k in PropertiesOf(b) && k in PropertiesOf(h) {
      var bs, hs := PropertiesOf(b)[k], PropertiesOf(h)[k];
      if SchemaReport(f, PropertyType, PropertyItemType, bs, hs) { TypingKinds(f, PropertyType, PropertyItemType, bs, hs); }
      if SchemaReport(g, PropertyType, PropertyItemType, bs, hs) {
        TypingKinds(g, PropertyType, PropertyItemType, bs, hs);
        if SchemaReport(f, PropertyType, PropertyItemType, bs, hs) {
          DetermineTyping(f, g, PropertyType, PropertyItemType, bs, hs);
        }
      }
    }
  }

  lemma DetermineOperation(f: Finding, g: Finding, b: Operation, h: Operation)
    requires AtOperation(f, b, h) && AtOperation(g, b, h) && f.kind == g.kind
    ensures f.note == g.note && f.severity == g.severity && f.kind.subject != MethodKey
  {
    hide OperationId, SecurityOf;
  }

  lemma DeterminePath(f: Finding, g: Finding, path: string, b: PathItem, h: PathItem)
    requires PathReport(f, path, b, h) && PathReport(g, path, b, h) && f.kind == g.kind && f.at == g.at
    ensures f == g
  {
    hide AtOperation, AtParameter;
    var m := MethodOf(f.at).value.1;
    if m in b && m in h {
      match f.at
      case OperationAt(_, _) => DetermineOperation(f, g, b[m], h[m]);
      case Member(ParametersOf(_, _), k) => DetermineParameter(f, g, k, Params(b[m]), Params(h[m]));
      case _ =>
    }
  }

  /** One diff reports at one place at most one finding of a kind. */
  lemma KindAndPlaceDetermine(b: Document, h: Document, f: Finding, g: Finding)
    requires Reported(b, h, f) && Reported(b, h, g) && f.kind == g.kind && f.at == g.at
    ensures f == g
  {
    hide PathReport, AtProperty, Names;
    match f.at
    case Member(PropertiesIn(n), k) => DetermineProperty(f, g, k, b.schemas[n], h.schemas[n]);
    case Member(AllSchemas, _) =>
    case Member(AllServers, _) =>
    case Member(AllPaths, _) =>
    case Member(ComponentsIn(_), _) =>
    case TopLevel =>
    case _ =>
      var p := MethodOf(f.at).value.0;
      DeterminePath(f, g, p, b.paths[p], h.paths[p]);
  }

  /** So where names are tidy, an allowlist entry covers one finding of its kind. */
  lemma OneEntryOneFinding(b: Document, h: Document, f: Finding, g: Finding)
    requires Reported(b, h, f) && Reported(b, h, g) && f.kind == g.kind && Tidy(f.at) && Tidy(g.at)
    ensures Signature(f) == Signature(g) <==> f == g
  {
    hide Reported, Signature, Tidy, Fits;
    ReportedFits(b, h, f);
    ReportedFits(b, h, g);
    if f.at == g.at { KindAndPlaceDetermine(b, h, f, g); } else { TidySignaturesDiffer(f, g); }
  }

  function Opening(x: Fingerprint): string {
    " (" + FingerprintText(x) + " -> ('$ref', '"
  }

  lemma ReferenceDetail(n: string, x: Fingerprint, t: string)
    ensures Detail(Finding(Changed(SchemaKind), Member(AllSchemas, n), Retyped(x, Ref(t)), Breaking)) == n + Opening(x) + t + "'))"
  {
    var a := FingerprintText(x);
    assert " -> ('$ref', '" == " -> " + ("('$ref', " + "'");
    assert n + (" (" + a + (" -> " + ("('$ref', " + "'"))) + t + "'))"
        == n + " (" + "" + a + " -> " + ("('$ref', " + ("'" + t + "'") + ")") + ")";
  }

  lemma Regroup(n: string, a: string, u: string, b: string, v: string, z: string)
    ensures n + a + (u + b + v) + z == (n + a + u) + b + v + z
  {
  }

  /** A name that holds the beginning of a note may collide: another schema has the same
      signature, for whatever name and types. */
  lemma UntidyNameCollides(n: string, x: Fingerprint, u: string, x': Fingerprint, v: string)
    ensures var longer, lost := n + Opening(x) + u, u + Opening(x') + v;
            && longer != n
            && Signature(Finding(Changed(SchemaKind), Member(AllSchemas, n), Retyped(x, Ref(lost)), Breaking))
               == Signature(Finding(Changed(SchemaKind), Member(AllSchemas, longer), Retyped(x', Ref(v)), Breaking))
  {
    hide KindName, Detail, Opening;
    assert |Opening(x)| > 0 by { OpeningIsNotEmpty(x); }
    var longer, lost := n + Opening(x) + u, u + Opening(x') + v;
    ReferenceDetail(n, x, lost);
    ReferenceDetail(longer, x', v);
    Regroup(n, Opening(x), u, Opening(x'), v, "'))");
  }

  lemma OpeningIsNotEmpty(x: Fingerprint)
    ensures |Opening(x)| > 0
  {
  }
}
