/** Which backup bundles survive pruning (deploy/wealthfolio/backup.py), stated on
    sets of files, and why pruning after every backup is the same as pruning once. */
module BackupRetention {
  import opened Wrappers
  import opened StringOrder

  /** A file of the backup directory; `stamp` is absent if its name does not parse. */
  datatype File = File(name: string, stamp: Option<int>)

  /** The week or month label of an instant. */
  type Labelling = int -> string

  datatype Policy = Policy(daily: int, weekly: int, monthly: int, week: Labelling, month: Labelling)

  predicate Parsed(f: File) {
    f.stamp.Some?
  }

  function At(f: File): int {
    if f.stamp.Some? then f.stamp.value else 0
  }

  /** The order of pruning: later stamps first and, as the sort is stable and reads the
      files by name, the lesser name first among equal stamps. */
  predicate Ahead(g: File, f: File) {
    At(g) > At(f) || (At(g) == At(f) && g.name != f.name && Leq(g.name, f.name))
  }

  lemma AheadTotal(f: File, g: File)
    requires Parsed(f) && Parsed(g) && f != g
    ensures Ahead(f, g) <==> !Ahead(g, f)
  {
    hide Leq;
    if f.name != g.name {
      LeqTotal(f.name, g.name);
      if Leq(f.name, g.name) && Leq(g.name, f.name) { LeqAntisymmetric(f.name, g.name); }
    }
  }

  lemma AheadTransitive(h: File, g: File, f: File)
    requires Ahead(h, g) && Ahead(g, f)
    ensures Ahead(h, f)
  {
    hide Leq;
    if At(h) == At(f) {
      LeqTransitive(h.name, g.name, f.name);
      if h.name == f.name { LeqAntisymmetric(h.name, g.name); }
    }
  }

  /** No two files of a directory share a name. */
  ghost predicate DistinctNames(s: set<File>) {
    forall f, g :: f in s && g in s && f.name == g.name ==> f == g
  }

  ghost function Bundles(s: set<File>): set<File> {
    set f | f in s && Parsed(f)
  }

  ghost function Newer(s: set<File>, f: File): set<File> {
    set g | g in s && Parsed(g) && Ahead(g, f)
  }

  ghost function LabelsOf(s: set<File>, tag: Labelling): set<string> {
    set g | g in s :: tag(At(g))
  }

  ghost function AtLeastOne(n: int): nat {
    if n < 1 then 1 else n
  }

  /** Fewer than `n` bundles are newer. A negative `n` drops that many from the old
      end, as a slice does. */
  ghost predicate DailyKeeps(s: set<File>, f: File, n: int) {
    |Newer(s, f)| < if n >= 0 then n else |Bundles(s)| + n
  }

  /** The newest of its tag, and fewer than `m` labels are newer. The code adds
      before it checks, so a limit below one acts as one. */
  ghost predicate LabelKeeps(s: set<File>, f: File, tag: Labelling, m: int) {
    && tag(At(f)) !in LabelsOf(Newer(s, f), tag)
    && |LabelsOf(Newer(s, f), tag)| < AtLeastOne(m)
  }

  ghost predicate Keeps(s: set<File>, f: File, p: Policy) {
    && Parsed(f)
    && (DailyKeeps(s, f, p.daily) || LabelKeeps(s, f, p.week, p.weekly) || LabelKeeps(s, f, p.month, p.monthly))
  }

  ghost function Kept(s: set<File>, p: Policy): set<File> {
    set f | f in s && Keeps(s, f, p)
  }

  // ---- finite sets ----

  lemma {:induction false} SubsetSize<T>(a: set<T>, b: set<T>)
    requires a <= b
    ensures |a| <= |b|
    ensures |a| == |b| ==> a == b
    decreases |a|
  {
    if a != {} {
      var x :| x in a;
      SubsetSize(a - {x}, b - {x});
      assert a == (a - {x}) + {x} && b == (b - {x}) + {x};
    }
  }

  lemma {:induction false} Oldest(s: set<File>) returns (f: File)
    requires s != {} && forall g :: g in s ==> Parsed(g)
    ensures f in s && forall g :: g in s && g != f ==> Ahead(g, f)
    decreases |s|
  {
    hide Ahead;
    var x :| x in s;
    f := x;
    if s - {x} != {} {
      var y := Oldest(s - {x});
      AheadTotal(x, y);
      if Ahead(x, y) { f := y; }
      forall g | g in s && g != f ensures Ahead(g, f) {
        if g != x && f == x && g != y { AheadTransitive(g, y, x); }
      }
    } else {
      assert s == {x};
    }
  }

  lemma NewerNests(s: set<File>, g: File, f: File)
    requires Ahead(g, f)
    ensures Newer(s, g) <= Newer(s, f) && |Newer(s, g)| <= |Newer(s, f)|
  {
    hide Ahead;
    forall h | h in Newer(s, g) ensures h in Newer(s, f) {
      AheadTransitive(h, g, f);
    }
    SubsetSize(Newer(s, g), Newer(s, f));
  }

  /** The bundle just newer than `f`. */
  lemma Predecessor(s: set<File>, f: File) returns (g: File)
    requires Newer(s, f) != {}
    ensures g in s && Parsed(g) && Ahead(g, f)
    ensures g !in Newer(s, g) && Newer(s, f) == Newer(s, g) + {g}
    ensures |Newer(s, f)| == |Newer(s, g)| + 1
  {
    g := Oldest(Newer(s, f));
    NewerNests(s, g, f);
    assert !Ahead(g, g);
    assert Newer(s, f) == Newer(s, g) + {g};
  }

  lemma NewerShrinks(t: set<File>, s: set<File>, f: File)
    requires t <= s
    ensures Newer(t, f) <= Newer(s, f) && |Newer(t, f)| <= |Newer(s, f)|
  {
    SubsetSize(Newer(t, f), Newer(s, f));
  }

  lemma LabelsShrink(a: set<File>, b: set<File>, tag: Labelling)
    requires a <= b
    ensures LabelsOf(a, tag) <= LabelsOf(b, tag) && |LabelsOf(a, tag)| <= |LabelsOf(b, tag)|
  {
    SubsetSize(LabelsOf(a, tag), LabelsOf(b, tag));
  }

  lemma LabelsMore(a: set<File>, g: File, tag: Labelling)
    ensures LabelsOf(a + {g}, tag) == LabelsOf(a, tag) + {tag(At(g))}
  {
  }

  // ---- what survives, bucket by bucket ----

  /** For every bundle with fewer than `m` newer labels, one of its label survives that is
      not behind it. */
  ghost predicate LabelsSurviveIn(s: set<File>, t: set<File>, tag: Labelling, m: int) {
    forall f | f in s && Parsed(f) && |LabelsOf(Newer(s, f), tag)| < AtLeastOne(m) ::
      exists g :: g in t && tag(At(g)) == tag(At(f)) && (g == f || Ahead(g, f))
  }

  /** The first of its label, and of one of the first `m` labels. */
  ghost predicate FirstOfLabel(s: set<File>, f: File, tag: Labelling, m: int) {
    && (forall g | g in s && Parsed(g) && Ahead(g, f) :: tag(At(g)) != tag(At(f)))
    && |LabelsOf(Newer(s, f), tag)| < AtLeastOne(m)
  }

  ghost predicate AmongNewest(s: set<File>, f: File, n: int) {
    |Newer(s, f)| < if n >= 0 then n else |Bundles(s)| + n
  }

  /** What pruning `s` is to leave: bundles only; all of the newest; for each of the latest
      weeks and for each of the latest months one; and none without such a reason. */
  ghost predicate Retains(s: set<File>, t: set<File>, p: Policy) {
    && t <= s
    && (forall f :: f in t ==> Parsed(f))
    && (forall f | f in s && Parsed(f) && AmongNewest(s, f, p.daily) :: f in t)
    && LabelsSurviveIn(s, t, p.week, p.weekly)
    && LabelsSurviveIn(s, t, p.month, p.monthly)
    && (forall f | f in t ::
          AmongNewest(s, f, p.daily) || FirstOfLabel(s, f, p.week, p.weekly) || FirstOfLabel(s, f, p.month, p.monthly))
  }

  lemma {:induction false} Newest(s: set<File>) returns (f: File)
    requires s != {} && forall g :: g in s ==> Parsed(g)
    ensures f in s && forall g :: g in s && g != f ==> Ahead(f, g)
    decreases |s|
  {
    hide Ahead;
    var x :| x in s;
    f := x;
    if s - {x} != {} {
      var y := Newest(s - {x});
      AheadTotal(x, y);
      if Ahead(y, x) { f := y; }
      forall g | g in s && g != f ensures Ahead(f, g) {
        if g != x && f == x && g != y { AheadTransitive(x, y, g); }
      }
    } else {
      assert s == {x};
    }
  }

  /** The first bundle of the label of `f`. */
  lemma FirstOf(s: set<File>, f: File, tag: Labelling) returns (g: File)
    requires f in s && Parsed(f)
    ensures g in s && Parsed(g) && tag(At(g)) == tag(At(f)) && (g == f || Ahead(g, f))
    ensures tag(At(g)) !in LabelsOf(Newer(s, g), tag)
    ensures |LabelsOf(Newer(s, g), tag)| <= |LabelsOf(Newer(s, f), tag)|
  {
    hide Ahead;
    var same := set x | x in s && Parsed(x) && tag(At(x)) == tag(At(f));
    assert f in same;
    g := Newest(same);
    if g != f { NewerNests(s, g, f); }
    LabelsShrink(Newer(s, g), Newer(s, f), tag);
    forall x | x in Newer(s, g) ensures tag(At(x)) != tag(At(g)) {
      if tag(At(x)) == tag(At(g)) {
        assert x in same;
        NotAheadOfItself(g);
        if x != g { AheadTotal(x, g); }
      }
    }
  }

  lemma NotAheadOfItself(f: File)
    ensures !Ahead(f, f)
  {
  }

  lemma LabelsDoSurvive(s: set<File>, t: set<File>, tag: Labelling, m: int)
    requires forall g | g in s && Parsed(g) && LabelKeeps(s, g, tag, m) :: g in t
    ensures LabelsSurviveIn(s, t, tag, m)
  {
    hide Ahead, AtLeastOne;
    forall f | f in s && Parsed(f) && |LabelsOf(Newer(s, f), tag)| < AtLeastOne(m)
      ensures exists g :: g in t && tag(At(g)) == tag(At(f)) && (g == f || Ahead(g, f))
    {
      var g := FirstOf(s, f, tag);
      assert LabelKeeps(s, g, tag, m);
    }
  }

  lemma FirstIsKept(s: set<File>, f: File, tag: Labelling, m: int)
    ensures LabelKeeps(s, f, tag, m) <==> FirstOfLabel(s, f, tag, m)
  {
    hide Ahead, AtLeastOne;
    if tag(At(f)) in LabelsOf(Newer(s, f), tag) {
      var g :| g in Newer(s, f) && tag(At(g)) == tag(At(f));
    }
    forall g | g in s && Parsed(g) && Ahead(g, f) ensures tag(At(g)) in LabelsOf(Newer(s, f), tag) {
      assert g in Newer(s, f);
    }
  }

  lemma SurvivingIsKept(s: set<File>, t: set<File>, f: File, tag: Labelling, m: int)
    requires t <= s && (forall g :: g in t ==> Parsed(g)) && LabelsSurviveIn(s, t, tag, m)
    requires f in s && Parsed(f) && FirstOfLabel(s, f, tag, m)
    ensures f in t
  {
    hide Ahead, AtLeastOne;
    var g :| g in t && tag(At(g)) == tag(At(f)) && (g == f || Ahead(g, f));
  }

  /** The kept set is what pruning is to leave, and the only such set. */
  lemma RetainsExactly(s: set<File>, t: set<File>, p: Policy)
    ensures Retains(s, t, p) <==> t == Kept(s, p)
  {
    hide LabelKeeps, FirstOfLabel, Newer, LabelsSurviveIn;
    forall f
      ensures LabelKeeps(s, f, p.week, p.weekly) <==> FirstOfLabel(s, f, p.week, p.weekly)
      ensures LabelKeeps(s, f, p.month, p.monthly) <==> FirstOfLabel(s, f, p.month, p.monthly)
    {
      FirstIsKept(s, f, p.week, p.weekly);
      FirstIsKept(s, f, p.month, p.monthly);
    }
    if t == Kept(s, p) {
      LabelsDoSurvive(s, t, p.week, p.weekly);
      LabelsDoSurvive(s, t, p.month, p.monthly);
    }
    if Retains(s, t, p) {
      forall f | f in Kept(s, p) ensures f in t {
        if FirstOfLabel(s, f, p.week, p.weekly) { SurvivingIsKept(s, t, f, p.week, p.weekly); }
        if FirstOfLabel(s, f, p.month, p.monthly) { SurvivingIsKept(s, t, f, p.month, p.monthly); }
      }
    }
  }

  // ---- dropping what is not kept changes no verdict ----

  /** If the `n` newest bundles of `s` are in `t`, then `t` has as many newer ones, up to `n`. */
  lemma {:induction false} RankSurvives(s: set<File>, t: set<File>, f: File, n: nat)
    requires t <= s && n <= |Newer(s, f)|
    requires forall g :: g in s && Parsed(g) && |Newer(s, g)| < n ==> g in t
    ensures n <= |Newer(t, f)|
    decreases |Newer(s, f)|
  {
    hide Ahead;
    if n > 0 {
      var g := Predecessor(s, f);
      if n <= |Newer(s, g)| {
        RankSurvives(s, t, g, n);
        NewerNests(t, g, f);
      } else {
        forall h | h in Newer(s, f) ensures h in t {
          if h != g { NewerNests(s, h, g); }
        }
        assert Newer(t, f) == Newer(s, f);
      }
    }
  }

  /** While no more than `m` labels are newer, `t` shows all of them. */
  lemma {:induction false} LabelsSurvive(s: set<File>, t: set<File>, f: File, tag: Labelling, m: int)
    requires t <= s && |LabelsOf(Newer(s, f), tag)| <= AtLeastOne(m)
    requires forall g :: g in s && Parsed(g) && LabelKeeps(s, g, tag, m) ==> g in t
    ensures LabelsOf(Newer(t, f), tag) == LabelsOf(Newer(s, f), tag)
    decreases |Newer(s, f)|
  {
    hide Ahead, AtLeastOne;
    NewerShrinks(t, s, f);
    if Newer(s, f) != {} {
      var g := Predecessor(s, f);
      LabelsMore(Newer(s, g), g, tag);
      LabelsShrink(Newer(s, g), Newer(s, f), tag);
      LabelsSurvive(s, t, g, tag, m);
      NewerNests(t, g, f);
      LabelsShrink(Newer(t, g), Newer(t, f), tag);
      if tag(At(g)) !in LabelsOf(Newer(s, g), tag) {
        assert |LabelsOf(Newer(s, g), tag)| + 1 == |LabelsOf(Newer(s, f), tag)|;
        assert LabelKeeps(s, g, tag, m);
        assert g in Newer(t, f);
      }
    }
  }

  lemma {:induction false} LabelCountSurvives(s: set<File>, t: set<File>, f: File, tag: Labelling, m: int)
    requires t <= s && |LabelsOf(Newer(s, f), tag)| >= AtLeastOne(m)
    requires forall g :: g in s && Parsed(g) && LabelKeeps(s, g, tag, m) ==> g in t
    ensures |LabelsOf(Newer(t, f), tag)| >= AtLeastOne(m)
    decreases |Newer(s, f)|
  {
    hide Ahead, LabelKeeps;
    if |LabelsOf(Newer(s, f), tag)| == AtLeastOne(m) {
      LabelsSurvive(s, t, f, tag, m);
    } else {
      assert Newer(s, f) != {};
      var g := Predecessor(s, f);
      LabelsMore(Newer(s, g), g, tag);
      LabelCountSurvives(s, t, g, tag, m);
      NewerNests(t, g, f);
      LabelsShrink(Newer(t, g), Newer(t, f), tag);
    }
  }

  lemma DailySame(s: set<File>, t: set<File>, f: File, n: int)
    requires t <= s && n >= 0
    requires forall g :: g in s && Parsed(g) && DailyKeeps(s, g, n) ==> g in t
    ensures DailyKeeps(t, f, n) <==> DailyKeeps(s, f, n)
  {
    NewerShrinks(t, s, f);
    if n <= |Newer(s, f)| { RankSurvives(s, t, f, n); }
  }

  lemma LabelSame(s: set<File>, t: set<File>, f: File, tag: Labelling, m: int)
    requires t <= s
    requires forall g :: g in s && Parsed(g) && LabelKeeps(s, g, tag, m) ==> g in t
    ensures LabelKeeps(t, f, tag, m) <==> LabelKeeps(s, f, tag, m)
  {
    NewerShrinks(t, s, f);
    LabelsShrink(Newer(t, f), Newer(s, f), tag);
    if |LabelsOf(Newer(s, f), tag)| >= AtLeastOne(m) {
      LabelCountSurvives(s, t, f, tag, m);
    } else {
      LabelsSurvive(s, t, f, tag, m);
    }
  }

  /** Any directory between the kept set and the whole prunes to the kept set. */
  lemma PruningBetween(s: set<File>, t: set<File>, p: Policy)
    requires p.daily >= 0
    requires Kept(s, p) <= t <= s
    ensures Kept(t, p) == Kept(s, p)
  {
    hide DailyKeeps, LabelKeeps;
    assert forall g :: g in s && Keeps(s, g, p) ==> g in t;
    forall f | f in t ensures Keeps(t, f, p) <==> Keeps(s, f, p) {
      DailySame(s, t, f, p.daily);
      LabelSame(s, t, f, p.week, p.weekly);
      LabelSame(s, t, f, p.month, p.monthly);
    }
  }

  lemma PruningIsIdempotent(s: set<File>, p: Policy)
    requires p.daily >= 0
    ensures Kept(Kept(s, p), p) == Kept(s, p)
  {
    PruningBetween(s, Kept(s, p), p);
  }

  // ---- pruning after every backup ----

  ghost function FilesOf(h: seq<File>): set<File> {
    set f | f in h
  }

  /** Each backup adds its bundle and prunes. */
  ghost function Online(h: seq<File>, p: Policy): set<File> {
    if h == [] then {} else Kept(Online(h[..|h| - 1], p) + {h[|h| - 1]}, p)
  }

  lemma NewestIsKept(s: set<File>, f: File, p: Policy)
    requires f in s && Parsed(f) && Newer(s, f) == {}
    ensures f in Kept(s, p)
  {
    assert LabelsOf(Newer(s, f), p.week) == {};
  }

  /** A file more never saves another one. */
  lemma OneMoreKeepsNoMore(s: set<File>, x: File, p: Policy)
    requires p.daily >= 0
    ensures Kept(s + {x}, p) <= Kept(s, p) + {x}
  {
    hide AtLeastOne, Ahead;
    forall f | f in Kept(s + {x}, p) && f != x ensures f in Kept(s, p) {
      NewerShrinks(s, s + {x}, f);
      LabelsShrink(Newer(s, f), Newer(s + {x}, f), p.week);
      LabelsShrink(Newer(s, f), Newer(s + {x}, f), p.month);
    }
  }

  lemma FilesOfOneMore(h: seq<File>)
    requires h != []
    ensures FilesOf(h) == FilesOf(h[..|h| - 1]) + {h[|h| - 1]}
  {
    assert h == h[..|h| - 1] + [h[|h| - 1]];
  }

  /** For every history of files, in whatever order and with whatever stamps they
      arrive, pruning after every backup leaves exactly what one prune of the whole
      history would leave. */
  lemma {:induction false} OnlineIsOffline(h: seq<File>, p: Policy)
    requires p.daily >= 0
    ensures Online(h, p) == Kept(FilesOf(h), p)
  {
    hide Keeps, FilesOf;
    if h == [] {
      NothingToKeep(p);
    } else {
      var past, x := h[..|h| - 1], h[|h| - 1];
      var s := FilesOf(past);
      FilesOfOneMore(h);
      OnlineIsOffline(past, p);
      OneMoreKeepsNoMore(s, x, p);
      KeptIsPart(s, p);
      PruningBetween(s + {x}, Kept(s, p) + {x}, p);
    }
  }

  lemma NothingToKeep(p: Policy)
    ensures FilesOf([]) == {} && Kept({}, p) == {}
  {
  }

  lemma KeptIsPart(s: set<File>, p: Policy)
    ensures Kept(s, p) <= s
  {
  }

  lemma {:induction false} OnlineIsHistory(h: seq<File>, p: Policy)
    ensures Online(h, p) <= FilesOf(h)
  {
    hide Kept;
    if h != [] {
      var past, x := h[..|h| - 1], h[|h| - 1];
      OnlineIsHistory(past, p);
      KeptIsPart(Online(past, p) + {x}, p);
      assert forall f :: f in past ==> f in h;
    }
  }

  // ---- how many are kept ----

  lemma DailyCount(s: set<File>, n: nat)
    ensures |set f | f in s && Parsed(f) && DailyKeeps(s, f, n)| <= n
  {
    var d := set f | f in s && Parsed(f) && DailyKeeps(s, f, n);
    if d != {} {
      var f := Oldest(d);
      assert d - {f} <= Newer(s, f);
      SubsetSize(d - {f}, Newer(s, f));
    }
  }

  lemma {:induction false} LabelsCount(r: set<File>, tag: Labelling)
    requires forall f, g :: f in r && g in r && tag(At(f)) == tag(At(g)) ==> f == g
    ensures |LabelsOf(r, tag)| == |r|
    decreases |r|
  {
    if r != {} {
      var x :| x in r;
      LabelsCount(r - {x}, tag);
      LabelsMore(r - {x}, x, tag);
      assert r == (r - {x}) + {x};
      assert tag(At(x)) !in LabelsOf(r - {x}, tag);
    }
  }

  lemma LabelCount(s: set<File>, tag: Labelling, m: int)
    ensures |set f | f in s && Parsed(f) && LabelKeeps(s, f, tag, m)| <= AtLeastOne(m)
  {
    var r := set f | f in s && Parsed(f) && LabelKeeps(s, f, tag, m);
    if r != {} {
      var f := Oldest(r);
      var rest := r - {f};
      assert rest <= Newer(s, f);
      LabelsShrink(rest, Newer(s, f), tag);
      forall g, h | g in rest && h in rest && tag(At(g)) == tag(At(h)) ensures g == h {
        assert g !in Newer(s, h) && h !in Newer(s, g);
        if g != h { AheadTotal(g, h); }
      }
      LabelsCount(rest, tag);
    }
  }

  lemma UnionSize(a: set<File>, b: set<File>)
    ensures |a + b| <= |a| + |b|
  {
    assert a + b == a + (b - a);
    SubsetSize(b - a, b);
  }

  /** At most N + M + K bundles are kept (a weekly or monthly limit below one acting
      as one), and the newest bundle is always among them. */
  lemma KeptIsBounded(s: set<File>, p: Policy)
    requires p.daily >= 0
    ensures |Kept(s, p)| <= p.daily + AtLeastOne(p.weekly) + AtLeastOne(p.monthly)
    ensures forall f :: f in s && Parsed(f) && Newer(s, f) == {} ==> f in Kept(s, p)
  {
    hide DailyKeeps, LabelKeeps, AtLeastOne, Newer;
    var d := set f | f in s && Parsed(f) && DailyKeeps(s, f, p.daily);
    var w := set f | f in s && Parsed(f) && LabelKeeps(s, f, p.week, p.weekly);
    var m := set f | f in s && Parsed(f) && LabelKeeps(s, f, p.month, p.monthly);
    DailyCount(s, p.daily);
    LabelCount(s, p.week, p.weekly);
    LabelCount(s, p.month, p.monthly);
    assert Kept(s, p) == d + w + m;
    UnionSize(d, w);
    UnionSize(d + w, m);
    forall f | f in s && Parsed(f) && Newer(s, f) == {} ensures f in Kept(s, p) {
      NewestIsKept(s, f, p);
    }
  }
}
