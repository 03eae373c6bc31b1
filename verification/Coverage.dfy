/** The coverage summary of scripts/coverage_report.py: the counting loop that builds
    it and the comparison of two of them. */
module Coverage {
  import opened Wrappers
  import opened StringOrder

  /** `condition` is the covered/total pair of a branch line. */
  datatype Branch = Branch(covered: nat, total: nat)

  datatype Line = Line(hits: int, condition: Option<Branch>)

  /** A `<class>` element; its name is absent if it carries neither attribute. */
  datatype ClassElement = ClassElement(name: Option<string>, lines: seq<Line>)

  datatype Counter = Counter(total: int, covered: int)

  datatype Counters = Counters(lines: Counter, branches: Counter)

  /** The elements in document order, and the totals the reporter wrote itself. */
  datatype CoverageReport = CoverageReport(classes: seq<ClassElement>, reported: Counters)

  datatype Summary = Summary(totals: Counters, files: map<string, Counters>)

  datatype ReadError = UnnamedClass | NoMeasuredFile | LinesDoNotSum | BranchesDoNotSum

  datatype ReadResult = Read(summary: Summary) | Unreadable(error: ReadError)

  const NOTHING := Counters(Counter(0, 0), Counter(0, 0))

  function Plus(a: Counters, b: Counters): Counters {
    Counters(Counter(a.lines.total + b.lines.total, a.lines.covered + b.lines.covered),
             Counter(a.branches.total + b.branches.total, a.branches.covered + b.branches.covered))
  }

  function CountLine(l: Line): Counters {
    Counters(Counter(1, if l.hits > 0 then 1 else 0),
             if l.condition.Some? then Counter(l.condition.value.total, l.condition.value.covered) else Counter(0, 0))
  }

  function CountLines(lines: seq<Line>): Counters {
    if lines == [] then NOTHING else Plus(CountLines(lines[..|lines| - 1]), CountLine(lines[|lines| - 1]))
  }

  /** All elements together, whatever they are called. */
  function Seen(classes: seq<ClassElement>): Counters {
    if classes == [] then NOTHING
    else Plus(Seen(classes[..|classes| - 1]), CountLines(classes[|classes| - 1].lines))
  }

  predicate AllNamed(classes: seq<ClassElement>) {
    forall c :: c in classes ==> c.name.Some? && c.name.value != ""
  }

  /** `files[name] = ...` in document order: a later element replaces an earlier one. */
  function FilesOf(classes: seq<ClassElement>): map<string, Counters>
    requires AllNamed(classes)
  {
    if classes == [] then map[]
    else
      var last := classes[|classes| - 1];
      FilesOf(classes[..|classes| - 1])[last.name.value := CountLines(last.lines)]
  }

  /** The lines that were hit, by position. */
  ghost function HitLines(lines: seq<Line>): set<nat> {
    set i: nat | i < |lines| && lines[i].hits > 0
  }

  /** Counting goes line by line; all lines are counted, those with hits as covered, and
      branches are added up over the lines that have them. */
  lemma {:induction false} CountsAreExact(lines: seq<Line>)
    ensures CountLines(lines).lines == Counter(|lines|, |HitLines(lines)|)
  {
    if lines != [] {
      var init, last := lines[..|lines| - 1], lines[|lines| - 1];
      CountsAreExact(init);
      if last.hits > 0 {
        assert HitLines(lines) == HitLines(init) + {|lines| - 1};
      } else {
        assert HitLines(lines) == HitLines(init);
      }
    }
  }

  lemma {:induction false} CountingIsPointwise(x: seq<Line>, y: seq<Line>)
    ensures CountLines(x + y) == Plus(CountLines(x), CountLines(y))
    ensures |y| == 1 && y[0].condition.Some? ==>
              CountLines(y).branches == Counter(y[0].condition.value.total, y[0].condition.value.covered)
    ensures |y| == 1 && y[0].condition.None? ==> CountLines(y).branches == Counter(0, 0)
  {
    if y == [] {
      assert x + y == x;
    } else {
      var init := y[..|y| - 1];
      assert (x + y)[..|x + y| - 1] == x + init;
      CountingIsPointwise(x, init);
      assert |y| == 1 ==> CountLines(init) == NOTHING;
    }
  }

  // ---- reading ----

  method CountClass(lines: seq<Line>) returns (c: Counters)
    ensures c == CountLines(lines)
  {
    var covered, branchesCovered, branchesTotal := 0, 0, 0;
    assert lines[..0] == [];
    for i := 0 to |lines|
      invariant CountLines(lines[..i]) == Counters(Counter(i, covered), Counter(branchesTotal, branchesCovered))
    {
      assert lines[..i + 1][..i] == lines[..i];
      if lines[i].hits > 0 { covered := covered + 1; }
      if lines[i].condition.Some? {
        branchesCovered := branchesCovered + lines[i].condition.value.covered;
        branchesTotal := branchesTotal + lines[i].condition.value.total;
      }
    }
    assert lines[..|lines|] == lines;
    c := Counters(Counter(|lines|, covered), Counter(branchesTotal, branchesCovered));
  }

  lemma NothingRead(classes: seq<ClassElement>)
    ensures FilesOf(classes[..0]) == map[] && Seen(classes[..0]) == NOTHING
  {
    assert classes[..0] == [];
  }

  lemma ReadOneMore(classes: seq<ClassElement>, i: nat)
    requires i < |classes| && AllNamed(classes[..i])
    ensures var c := classes[i];
            && Seen(classes[..i + 1]) == Plus(Seen(classes[..i]), CountLines(c.lines))
            && (AllNamed(classes[..i + 1]) <==> c.name.Some? && c.name.value != "")
            && (AllNamed(classes[..i + 1]) ==>
                  FilesOf(classes[..i + 1]) == FilesOf(classes[..i])[c.name.value := CountLines(c.lines)])
  {
    hide Plus, CountLines;
    assert classes[..i + 1][..i] == classes[..i] && classes[..i + 1] == classes[..i] + [classes[i]];
  }

  /** `read_report`: a summary is given exactly when every element is named, there is
      one, and the elements add up to what the reporter wrote. */
  method ReadReport(report: CoverageReport) returns (r: ReadResult)
    ensures r.Read? <==> AllNamed(report.classes) && report.classes != [] && Seen(report.classes) == report.reported
    ensures r.Read? ==> r.summary == Summary(report.reported, FilesOf(report.classes))
    ensures r == Unreadable(UnnamedClass) <==> !AllNamed(report.classes)
    ensures r == Unreadable(NoMeasuredFile) <==> report.classes == []
    ensures r == Unreadable(LinesDoNotSum) <==>
              AllNamed(report.classes) && report.classes != [] && Seen(report.classes).lines != report.reported.lines
  {
    hide Plus, CountLines, FilesOf, Seen;
    var classes := report.classes;
    assert FilesOf(classes[..0]) == map[] && Seen(classes[..0]) == NOTHING by { NothingRead(classes); }
    var files: map<string, Counters>, seen := map[], NOTHING;
    for i := 0 to |classes|
      invariant AllNamed(classes[..i]) && files == FilesOf(classes[..i]) && seen == Seen(classes[..i])
      invariant i > 0 ==> files != map[]
    {
      ReadOneMore(classes, i);
      var name := classes[i].name;
      if name.None? || name.value == "" {
        assert classes[i] in classes;
        return Unreadable(UnnamedClass);
      }
      var counters := CountClass(classes[i].lines);
      seen := Plus(seen, counters);
      files := files[name.value := counters];
      assert name.value in files;
    }
    assert classes[..|classes|] == classes;
    if files == map[] { return Unreadable(NoMeasuredFile); }
    if seen.lines != report.reported.lines { return Unreadable(LinesDoNotSum); }
    if seen.branches != report.reported.branches { return Unreadable(BranchesDoNotSum); }
    r := Read(Summary(report.reported, files));
  }

  // ---- published counters add up ----

  ghost function SumOver(names: set<string>, files: map<string, Counters>): Counters
    requires names <= files.Keys
  {
    if names == {} then NOTHING
    else
      var n := Least(names);
      Plus(SumOver(names - {n}, files), files[n])
  }

  lemma {:induction false} SumTakesOut(names: set<string>, files: map<string, Counters>, x: string)
    requires names <= files.Keys && x in names
    ensures SumOver(names, files) == Plus(SumOver(names - {x}, files), files[x])
    decreases |names|
  {
    var n := Least(names);
    if n != x {
      SumTakesOut(names - {n}, files, x);
      SumTakesOut(names - {x}, files, n);
      assert names - {n} - {x} == names - {x} - {n};
    }
  }

  lemma {:induction false} SumDependsOn(names: set<string>, f: map<string, Counters>, g: map<string, Counters>)
    requires names <= f.Keys && names <= g.Keys && forall n :: n in names ==> f[n] == g[n]
    ensures SumOver(names, f) == SumOver(names, g)
    decreases |names|
  {
    if names != {} { SumDependsOn(names - {Least(names)}, f, g); }
  }

  /** No element that another element of the same name replaces has any lines. */
  ghost predicate NothingReplaced(classes: seq<ClassElement>) {
    forall i, j :: 0 <= i < j < |classes| && classes[i].name == classes[j].name ==> classes[i].lines == []
  }

  lemma {:induction false} LinesAreCounted(lines: seq<Line>)
    ensures var c := CountLines(lines);
            c.lines.total == |lines| && c.lines.covered >= 0 && c.branches.total >= 0 && c.branches.covered >= 0
  {
    if lines != [] { LinesAreCounted(lines[..|lines| - 1]); }
  }

  /** Componentwise order of counters. */
  ghost predicate AtMost(a: Counters, b: Counters) {
    && a.lines.total <= b.lines.total && a.lines.covered <= b.lines.covered
    && a.branches.total <= b.branches.total && a.branches.covered <= b.branches.covered
  }

  /** The counters under a name are those of the last element that carries it. */
  lemma {:induction false} LastOneCounts(classes: seq<ClassElement>, name: string) returns (k: nat)
    requires AllNamed(classes) && name in FilesOf(classes)
    ensures k < |classes| && classes[k].name.value == name && FilesOf(classes)[name] == CountLines(classes[k].lines)
    ensures forall i :: k < i < |classes| ==> classes[i].name.value != name
  {
    hide CountLines;
    k := |classes| - 1;
    if classes[k].name.value != name {
      k := LastOneCounts(classes[..k], name);
    }
  }

  lemma {:induction false} MissingIsUnnamed(classes: seq<ClassElement>, name: string)
    requires AllNamed(classes) && name !in FilesOf(classes)
    ensures forall i :: 0 <= i < |classes| ==> classes[i].name.value != name
  {
    hide CountLines;
    if classes != [] { MissingIsUnnamed(classes[..|classes| - 1], name); }
  }

  ghost function SumAll(classes: seq<ClassElement>): Counters
    requires AllNamed(classes)
  {
    SumOver(FilesOf(classes).Keys, FilesOf(classes))
  }

  /** What the counters under a name were before its next element replaced them. */
  ghost function Before(classes: seq<ClassElement>, name: string): Counters
    requires AllNamed(classes)
  {
    if name in FilesOf(classes) then FilesOf(classes)[name] else NOTHING
  }

  /** A further element adds its counters and takes away those it replaces. */
  lemma SumOfOneMore(classes: seq<ClassElement>)
    requires AllNamed(classes) && classes != []
    ensures var init, last := classes[..|classes| - 1], classes[|classes| - 1];
            Plus(SumAll(classes), Before(init, last.name.value)) == Plus(SumAll(init), CountLines(last.lines))
  {
    hide CountLines;
    var init, last := classes[..|classes| - 1], classes[|classes| - 1];
    var f, g, name := FilesOf(init), FilesOf(classes), last.name.value;
    SumTakesOut(g.Keys, g, name);
    SumDependsOn(g.Keys - {name}, f, g);
    if name in f {
      assert g.Keys == f.Keys;
      SumTakesOut(f.Keys, f, name);
    } else {
      assert g.Keys - {name} == f.Keys;
    }
  }

  /** Replacing an element never adds counters. */
  lemma {:induction false} SumIsAtMostSeen(classes: seq<ClassElement>)
    requires AllNamed(classes)
    ensures AtMost(SumAll(classes), Seen(classes))
  {
    hide SumAll, CountLines;
    if classes == [] {
      SumOfNothing();
    } else {
      var init, last := classes[..|classes| - 1], classes[|classes| - 1];
      SumIsAtMostSeen(init);
      SumOfOneMore(classes);
      BeforeIsSomething(init, last.name.value);
    }
  }

  lemma SumOfNothing()
    ensures SumAll([]) == NOTHING
  {
  }

  lemma BeforeIsSomething(classes: seq<ClassElement>, name: string)
    requires AllNamed(classes)
    ensures AtMost(NOTHING, Before(classes, name))
    ensures Before(classes, name) == NOTHING
       <==> forall i | 0 <= i < |classes| && classes[i].name.value == name ::
              (forall j :: i < j < |classes| ==> classes[j].name.value != name) ==> classes[i].lines == []
  {
    hide CountLines;
    CountOfNothing();
    if name in FilesOf(classes) {
      var k := LastOneCounts(classes, name);
      LinesAreCounted(classes[k].lines);
    } else {
      MissingIsUnnamed(classes, name);
    }
  }

  lemma CountOfNothing()
    ensures CountLines([]) == NOTHING
  {
  }

  lemma NothingReplacedInit(classes: seq<ClassElement>)
    requires AllNamed(classes) && classes != []
    ensures var init, name := classes[..|classes| - 1], classes[|classes| - 1].name.value;
            NothingReplaced(classes) <==> NothingReplaced(init) && Before(init, name) == NOTHING
  {
    hide Before, FilesOf;
    var init, last := classes[..|classes| - 1], classes[|classes| - 1];
    BeforeIsSomething(init, last.name.value);
    assert forall c :: c in classes <==> c in init || c == last;
    assert forall i :: 0 <= i < |init| ==> init[i] == classes[i] && classes[i] in classes;
    if NothingReplaced(init) && Before(init, last.name.value) == NOTHING {
      forall i | 0 <= i < |init| && init[i].name == last.name ensures init[i].lines == [] {
        if j :| i < j < |init| && init[j].name == init[i].name {
          assert init[i].lines == [];
        }
      }
    }
  }

  /** The per-file counters sum to the totals exactly when no element with lines is
      replaced by a later one of the same name. */
  lemma {:induction false} FileCountersSumToTotals(classes: seq<ClassElement>)
    requires AllNamed(classes)
    ensures SumOver(FilesOf(classes).Keys, FilesOf(classes)) == Seen(classes) <==> NothingReplaced(classes)
  {
    hide SumOver, CountLines, FilesOf, NothingReplaced, Before;
    if classes == [] {
      SumOfNothing();
      EmptyReplacesNothing();
    } else {
      var init, last := classes[..|classes| - 1], classes[|classes| - 1];
      FileCountersSumToTotals(init);
      SumIsAtMostSeen(init);
      SumOfOneMore(classes);
      BeforeIsSomething(init, last.name.value);
      NothingReplacedInit(classes);
    }
  }

  lemma EmptyReplacesNothing()
    ensures NothingReplaced([])
  {
  }

  // ---- comparing ----

  datatype Divergence = Identical | MeasuredFiles(files: nat) | StatementTotals(statements: nat, coverage: nat)
                      | CoverageOnly(coverage: nat)

  predicate TotalDiffers(a: Counters, b: Counters) {
    a.lines.total != b.lines.total
  }

  predicate CoverageDiffers(a: Counters, b: Counters) {
    a.lines.total == b.lines.total && (a.lines.covered != b.lines.covered || a.branches != b.branches)
  }

  function TotalsDiffering(p: map<string, Counters>, r: map<string, Counters>): set<string> {
    set n | n in p && n in r && TotalDiffers(p[n], r[n])
  }

  function CoverageDiffering(p: map<string, Counters>, r: map<string, Counters>): set<string> {
    set n | n in p && n in r && CoverageDiffers(p[n], r[n])
  }

  /** The class of a divergence, said without a loop. */
  function Classify(p: map<string, Counters>, r: map<string, Counters>): Divergence {
    var differing := (p.Keys - r.Keys) + (r.Keys - p.Keys);
    if differing != {} then MeasuredFiles(|differing|)
    else if TotalsDiffering(p, r) != {} then StatementTotals(|TotalsDiffering(p, r)|, |CoverageDiffering(p, r)|)
    else if CoverageDiffering(p, r) != {} then CoverageOnly(|CoverageDiffering(p, r)|)
    else Identical
  }

  /** `compare_summaries`: the loop over sorted names that fills the two lists. */
  method CompareSummaries(p: map<string, Counters>, r: map<string, Counters>) returns (d: Divergence)
    ensures d == Classify(p, r)
  {
    var differing := (p.Keys - r.Keys) + (r.Keys - p.Keys);
    if differing != {} { return MeasuredFiles(|differing|); }
    assert p.Keys == r.Keys;
    var statements, coverage := CollectDifferences(p, r, Sorted(p.Keys));
    ListIsSet(statements, TotalsDiffering(p, r));
    ListIsSet(coverage, CoverageDiffering(p, r));
    if statements != [] {
      d := StatementTotals(|statements|, |coverage|);
    } else if coverage != [] {
      d := CoverageOnly(|coverage|);
    } else {
      d := Identical;
    }
  }

  ghost predicate Lists(s: seq<string>, t: set<string>) {
    (forall n :: n in s <==> n in t) && forall i, j :: 0 <= i < j < |s| ==> s[i] != s[j]
  }

  lemma {:induction false} ListIsSet(s: seq<string>, t: set<string>)
    requires Lists(s, t)
    ensures |s| == |t| && (s == [] <==> t == {})
    decreases |s|
  {
    if s == [] {
      assert t == {};
    } else {
      var last, init := s[|s| - 1], s[..|s| - 1];
      assert last in t;
      ListIsSet(init, t - {last});
    }
  }

  method CollectDifferences(p: map<string, Counters>, r: map<string, Counters>, names: seq<string>)
    returns (statements: seq<string>, coverage: seq<string>)
    requires p.Keys == r.Keys && Ascending(names) && forall n :: n in names <==> n in p
    ensures Lists(statements, TotalsDiffering(p, r)) && Lists(coverage, CoverageDiffering(p, r))
  {
    statements, coverage := [], [];
    for i := 0 to |names|
      invariant forall n :: n in statements <==> n in names[..i] && TotalDiffers(p[n], r[n])
      invariant forall n :: n in coverage <==> n in names[..i] && CoverageDiffers(p[n], r[n])
      invariant forall j, k :: 0 <= j < k < |statements| ==> statements[j] != statements[k]
      invariant forall j, k :: 0 <= j < k < |coverage| ==> coverage[j] != coverage[k]
    {
      var n := names[i];
      assert n !in names[..i];
      assert forall m :: m in names[..i + 1] <==> m in names[..i] || m == n;
      if p[n].lines.total != r[n].lines.total {
        statements := statements + [n];
        continue;
      }
      if p[n].lines.covered != r[n].lines.covered || p[n].branches != r[n].branches {
        coverage := coverage + [n];
      }
    }
    assert names[..|names|] == names;
  }

  /** The files whose counters are not the same on both sides. */
  ghost function Changed(p: map<string, Counters>, r: map<string, Counters>): set<string> {
    set n | n in p && n in r && p[n] != r[n]
  }

  ghost function Retotalled(p: map<string, Counters>, r: map<string, Counters>): set<string> {
    set n | n in p && n in r && p[n].lines.total != r[n].lines.total
  }

  lemma ChangedSplits(p: map<string, Counters>, r: map<string, Counters>)
    ensures TotalsDiffering(p, r) == Retotalled(p, r)
    ensures |Changed(p, r)| == |TotalsDiffering(p, r)| + |CoverageDiffering(p, r)|
  {
    assert Changed(p, r) == TotalsDiffering(p, r) + CoverageDiffering(p, r);
    assert TotalsDiffering(p, r) !! CoverageDiffering(p, r);
  }

  lemma {:induction false} NamesOnOneSide(p: map<string, Counters>, r: map<string, Counters>)
    ensures (p.Keys - r.Keys) + (r.Keys - p.Keys) == {} <==> p.Keys == r.Keys
    ensures |(p.Keys - r.Keys) + (r.Keys - p.Keys)| == |p.Keys + r.Keys| - |p.Keys * r.Keys|
  {
    var x := (p.Keys - r.Keys) + (r.Keys - p.Keys);
    assert p.Keys + r.Keys == x + p.Keys * r.Keys && x !! p.Keys * r.Keys;
    if x == {} {
      forall n ensures n in p.Keys <==> n in r.Keys { assert n !in x; }
    }
  }

  /** When each class is given, and with which counts: other files, and how many are on one
      side only; else another number of lines somewhere, and how many files changed in
      that or in another way; else files changed in their hits only; else nothing. */
  lemma ClassesAreExact(p: map<string, Counters>, r: map<string, Counters>)
    ensures match Classify(p, r)
            case MeasuredFiles(n) => p.Keys != r.Keys && n == |p.Keys + r.Keys| - |p.Keys * r.Keys|
            case StatementTotals(s, c) => p.Keys == r.Keys && s == |Retotalled(p, r)| > 0 && s + c == |Changed(p, r)|
            case CoverageOnly(c) => p.Keys == r.Keys && Retotalled(p, r) == {} && c == |Changed(p, r)| > 0
            case Identical => p.Keys == r.Keys && Changed(p, r) == {}
  {
    hide TotalsDiffering, CoverageDiffering, Changed, Retotalled;
    NamesOnOneSide(p, r);
    ChangedSplits(p, r);
  }

  /** The classification is symmetric, counts included. */
  lemma ClassifyIsSymmetric(p: map<string, Counters>, r: map<string, Counters>)
    ensures Classify(p, r) == Classify(r, p)
  {
    assert TotalsDiffering(p, r) == TotalsDiffering(r, p);
    assert CoverageDiffering(p, r) == CoverageDiffering(r, p);
    assert (p.Keys - r.Keys) + (r.Keys - p.Keys) == (r.Keys - p.Keys) + (p.Keys - r.Keys);
  }

  /** "Identical" means that the per-file counters are equal, so it is an equivalence. */
  lemma IdenticalMeansEqual(p: map<string, Counters>, r: map<string, Counters>)
    ensures Classify(p, r) == Identical <==> p == r
  {
    if Classify(p, r) == Identical {
      assert p.Keys == r.Keys;
      forall n | n in p ensures p[n] == r[n] {
        assert n !in TotalsDiffering(p, r) && n !in CoverageDiffering(p, r);
      }
    }
    if p == r {
      assert TotalsDiffering(p, r) == {} && CoverageDiffering(p, r) == {};
      assert (p.Keys - r.Keys) + (r.Keys - p.Keys) == {};
    }
  }

  function Percent(c: Counter): real {
    if c.total != 0 then 100.0 * c.covered as real / c.total as real else 0.0
  }

  /** A published percentage is the covered part of the total, from 0 to 100. */
  lemma PercentIsExact(c: Counter)
    requires 0 <= c.covered <= c.total
    ensures 0.0 <= Percent(c) <= 100.0 && Percent(c) * c.total as real == 100.0 * c.covered as real
    ensures c.total > 0 ==> (Percent(c) == 100.0 <==> c.covered == c.total)
  {
    if c.total > 0 {
      var x, t := c.covered as real, c.total as real;
      assert Percent(c) * t == 100.0 * x;
      assert Percent(c) < 0.0 ==> Percent(c) * t < 0.0;
      assert Percent(c) > 100.0 ==> Percent(c) * t > 100.0 * t;
    }
  }

  /** Two summaries read from reports in which nothing is replaced, as when file names are
      distinct, that compare as identical publish equal totals, hence equal percentages. */
  lemma IdenticalSummariesPublishTheSame(a: CoverageReport, b: CoverageReport)
    requires AllNamed(a.classes) && NothingReplaced(a.classes) && Seen(a.classes) == a.reported
    requires AllNamed(b.classes) && NothingReplaced(b.classes) && Seen(b.classes) == b.reported
    requires Classify(FilesOf(a.classes), FilesOf(b.classes)) == Identical
    ensures a.reported == b.reported
    ensures Percent(a.reported.lines) == Percent(b.reported.lines)
  {
    hide Classify, Seen, FilesOf, NothingReplaced;
    IdenticalMeansEqual(FilesOf(a.classes), FilesOf(b.classes));
    FileCountersSumToTotals(a.classes);
    FileCountersSumToTotals(b.classes);
  }
}
