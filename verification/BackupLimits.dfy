/** Which daily limits make pruning after every backup the same as pruning once. */
module BackupLimits {
  import opened Wrappers
  import opened BackupRetention

  ghost predicate Chronological(h: seq<File>) {
    && (forall i :: 0 <= i < |h| ==> Parsed(h[i]))
    && (forall i, j :: 0 <= i < j < |h| ==> At(h[i]) < At(h[j]))
  }

  /** The files share one label, or have a label each and `k` is not below the limit. */
  ghost predicate Uniform(s: set<File>, tag: Labelling, m: int, k: nat) {
    || (forall f, g :: f in s && g in s ==> tag(At(f)) == tag(At(g)))
    || (AtLeastOne(m) <= k && forall f, g :: f in s && g in s && tag(At(f)) == tag(At(g)) ==> f == g)
  }

  lemma OldestIsNotLabelled(t: set<File>, f: File, tag: Labelling, m: int, k: nat)
    requires Uniform(t, tag, m, k) && f in t && k >= 1 && |t| == k + 1 && Newer(t, f) == t - {f}
    ensures !LabelKeeps(t, f, tag, m)
  {
    hide Ahead, AtLeastOne;
    var newer := Newer(t, f);
    if forall x, y :: x in t && y in t ==> tag(At(x)) == tag(At(y)) {
      assert |newer| == k;
      var g :| g in newer;
      assert tag(At(g)) in LabelsOf(newer, tag);
    } else {
      LabelsCount(newer, tag);
    }
  }

  lemma OneOfTheseGoes(t: set<File>, p: Policy, k: nat)
    requires p.daily < 0 && k >= 1 && |t| <= k + 1 && forall f :: f in t ==> Parsed(f)
    requires Uniform(t, p.week, p.weekly, k) && Uniform(t, p.month, p.monthly, k)
    ensures |Kept(t, p)| <= k
  {
    hide Ahead, Uniform, LabelKeeps;
    KeptIsPart(t, p);
    if |t| <= k {
      SubsetSize(Kept(t, p), t);
    } else {
      var f := Oldest(t);
      assert Newer(t, f) == t - {f} by { NotAheadOfItself(f); }
      OldestIsNotLabelled(t, f, p.week, p.weekly, k);
      OldestIsNotLabelled(t, f, p.month, p.monthly, k);
      assert Bundles(t) == t;
      SubsetSize(Kept(t, p), t - {f});
    }
  }

  lemma UniformPart(t: set<File>, s: set<File>, tag: Labelling, m: int, k: nat)
    requires t <= s && Uniform(s, tag, m, k)
    ensures Uniform(t, tag, m, k)
  {
    hide AtLeastOne;
  }

  /** With a negative daily limit a uniform history never leaves more than `k` files. */
  lemma {:induction false} OnlineStaysSmall(h: seq<File>, p: Policy, k: nat)
    requires p.daily < 0 && k >= 1 && forall f :: f in h ==> Parsed(f)
    requires Uniform(FilesOf(h), p.week, p.weekly, k) && Uniform(FilesOf(h), p.month, p.monthly, k)
    ensures |Online(h, p)| <= k
  {
    hide Kept, Uniform, FilesOf;
    if h != [] {
      var past, x := h[..|h| - 1], h[|h| - 1];
      FilesOfOneMore(h);
      UniformPart(FilesOf(past), FilesOf(h), p.week, p.weekly, k);
      UniformPart(FilesOf(past), FilesOf(h), p.month, p.monthly, k);
      OnlineStaysSmall(past, p, k);
      OnlineIsHistory(past, p);
      var t := Online(past, p) + {x};
      UniformPart(t, FilesOf(h), p.week, p.weekly, k);
      UniformPart(t, FilesOf(h), p.month, p.monthly, k);
      AllParsed(h);
      UnionSize(Online(past, p), {x});
      OneOfTheseGoes(t, p, k);
    }
  }

  lemma AllParsed(h: seq<File>)
    requires forall f :: f in h ==> Parsed(f)
    ensures forall f :: f in FilesOf(h) ==> Parsed(f)
  {
  }

  lemma {:induction false} FilesCount(h: seq<File>)
    requires Chronological(h)
    ensures |FilesOf(h)| == |h| && Bundles(FilesOf(h)) == FilesOf(h)
  {
    if h != [] {
      var past, x := h[..|h| - 1], h[|h| - 1];
      FilesOfOneMore(h);
      FilesCount(past);
      assert x !in FilesOf(past);
    }
  }

  lemma NewerIsTheRest(h: seq<File>, i: nat)
    requires Chronological(h) && i < |h|
    ensures Newer(FilesOf(h), h[i]) == FilesOf(h[i + 1..]) && |Newer(FilesOf(h), h[i])| == |h| - 1 - i
  {
    var rest := h[i + 1..];
    forall f ensures f in Newer(FilesOf(h), h[i]) <==> f in rest {
      if f in Newer(FilesOf(h), h[i]) {
        var j :| 0 <= j < |h| && h[j] == f;
        assert i < j;
        assert rest[j - i - 1] == f;
      }
    }
    FilesCount(rest);
  }

  /** One prune of a history keeps all but as many files as the limit is negative. */
  lemma OfflineKeepsMany(h: seq<File>, p: Policy)
    requires Chronological(h) && p.daily < 0 <= |h| + p.daily
    ensures |Kept(FilesOf(h), p)| >= |h| + p.daily
  {
    hide Newer, LabelKeeps;
    var s, rest := FilesOf(h), h[-p.daily..];
    FilesCount(h);
    forall f | f in rest ensures f in Kept(s, p) {
      var j :| 0 <= j < |rest| && rest[j] == f;
      assert h[j - p.daily] == f;
      NewerIsTheRest(h, j - p.daily);
    }
    FilesCount(rest);
    SubsetSize(FilesOf(rest), Kept(s, p));
  }

  /** The theorem needs the daily limit not to be negative: for a negative limit, every
      uniform history that is long enough is pruned differently online. One that lies
      within one week and one month is, from two files more than the limit on. */
  lemma NegativeDailyLimitDiffers(h: seq<File>, p: Policy, k: nat)
    requires p.daily < 0 && k >= 1 && |h| > k - p.daily && Chronological(h)
    requires Uniform(FilesOf(h), p.week, p.weekly, k) && Uniform(FilesOf(h), p.month, p.monthly, k)
    ensures Online(h, p) != Kept(FilesOf(h), p)
  {
    hide Online, Kept, Uniform;
    OnlineStaysSmall(h, p, k);
    OfflineKeepsMany(h, p);
  }

  // ---- uniform histories exist, whatever the labels ----

  ghost predicate Rising(s: seq<int>) {
    forall i, j :: 0 <= i < j < |s| ==> s[i] < s[j]
  }

  ghost predicate OneValue(s: seq<int>, f: Labelling) {
    forall x, y :: x in s && y in s ==> f(x) == f(y)
  }

  ghost predicate Injective(s: seq<int>, f: Labelling) {
    forall x, y :: x in s && y in s && f(x) == f(y) ==> x == y
  }

  /** The members with label `v`, or those with another. */
  ghost function Sift(s: seq<int>, f: Labelling, v: string, with: bool): (r: seq<int>)
    ensures forall x :: x in r <==> x in s && (f(x) == v <==> with)
  {
    if s == [] then []
    else
      var last := s[|s| - 1];
      Sift(s[..|s| - 1], f, v, with) + (if f(last) == v <==> with then [last] else [])
  }

  lemma {:induction false} SiftRises(s: seq<int>, f: Labelling, v: string, with: bool)
    requires Rising(s)
    ensures Rising(Sift(s, f, v, with))
  {
    if s != [] {
      var init, last := s[..|s| - 1], s[|s| - 1];
      SiftRises(init, f, v, with);
      var r := Sift(init, f, v, with);
      forall i | 0 <= i < |r| ensures r[i] < last {
        assert r[i] in r;
        var j :| 0 <= j < |init| && init[j] == r[i];
        assert s[j] == r[i];
      }
    }
  }

  lemma {:induction false} SiftSplits(s: seq<int>, f: Labelling, v: string)
    ensures |Sift(s, f, v, true)| + |Sift(s, f, v, false)| == |s|
  {
    if s != [] { SiftSplits(s[..|s| - 1], f, v); }
  }

  lemma Nothing(f: Labelling) returns (t: seq<int>)
    ensures t == [] && Rising(t) && Injective(t, f)
  {
    t := [];
  }

  lemma FirstOf(s: seq<int>, f: Labelling, v: string, n: nat) returns (t: seq<int>)
    requires Rising(s) && n <= |s| && forall x :: x in s ==> f(x) == v
    ensures t == s[..n] && Rising(t) && OneValue(t, f)
  {
    t := s[..n];
    assert forall i :: 0 <= i < n ==> t[i] == s[i];
  }

  /** Among `k * n` numbers, `n` have one label or `k` have different labels. */
  lemma {:induction false} SomeAreUniform(s: seq<int>, f: Labelling, k: nat, n: nat) returns (t: seq<int>)
    requires Rising(s) && n >= 1 && |s| >= k * n
    ensures Rising(t) && forall x :: x in t ==> x in s
    ensures (|t| == n && OneValue(t, f)) || (|t| == k && Injective(t, f))
    decreases k
  {
    hide Sift, Rising, OneValue, Injective;
    if k == 0 {
      t := Nothing(f);
    } else {
      assert k * n == (k - 1) * n + n;
      assert (k - 1) * n >= 0;
      var x := s[0];
      var same, rest := Sift(s, f, f(x), true), Sift(s, f, f(x), false);
      SiftRises(s, f, f(x), true);
      SiftRises(s, f, f(x), false);
      SiftSplits(s, f, f(x));
      if |same| >= n {
        t := FirstOf(same, f, f(x), n);
      } else {
        t := SomeAreUniform(rest, f, k - 1, n);
        if !(|t| == n && OneValue(t, f)) { t := Prepended(s, f, t); }
      }
    }
  }

  lemma Prepended(s: seq<int>, f: Labelling, t: seq<int>) returns (r: seq<int>)
    requires s != [] && Rising(s) && Rising(t) && Injective(t, f)
    requires forall y :: y in t ==> y in s && f(y) != f(s[0])
    ensures r == [s[0]] + t && Rising(r) && Injective(r, f) && forall y :: y in r ==> y in s
  {
    r := [s[0]] + t;
    forall i | 0 <= i < |t| ensures s[0] < t[i] {
      assert t[i] in t;
      var j :| 0 <= j < |s| && s[j] == t[i];
    }
  }

  /** A file for each stamp, under names of different lengths. */
  ghost function FilesAt(t: seq<int>): (h: seq<File>)
    ensures |h| == |t| && forall i :: 0 <= i < |t| ==> |h[i].name| == i && h[i].stamp == Some(t[i])
  {
    seq(|t|, (i: nat) requires i < |t| => File(seq(i, _ => 'x'), Some(t[i])))
  }

  lemma FilesAtAreDistinct(t: seq<int>)
    requires Rising(t)
    ensures Chronological(FilesAt(t)) && DistinctNames(FilesOf(FilesAt(t)))
  {
    var h := FilesAt(t);
    forall f, g | f in h && g in h && f.name == g.name ensures f == g {
      var i :| 0 <= i < |h| && h[i] == f;
      var j :| 0 <= j < |h| && h[j] == g;
      assert i == j;
    }
  }

  lemma FilesAtAreUniform(t: seq<int>, tag: Labelling, m: int, k: nat)
    requires Rising(t) && AtLeastOne(m) <= k && (OneValue(t, tag) || Injective(t, tag))
    ensures Uniform(FilesOf(FilesAt(t)), tag, m, k)
  {
    hide AtLeastOne;
    var h := FilesAt(t);
    forall f, g | f in h && g in h
      ensures OneValue(t, tag) ==> tag(At(f)) == tag(At(g))
      ensures Injective(t, tag) && tag(At(f)) == tag(At(g)) ==> f == g
    {
      var i :| 0 <= i < |h| && h[i] == f;
      var j :| 0 <= j < |h| && h[j] == g;
      assert t[i] in t && t[j] in t;
    }
  }

  /** As many stamps as asked for, uniform in their weeks and in their months. */
  lemma UniformStamps(p: Policy, n: nat) returns (t: seq<int>)
    requires n >= 1
    ensures |t| == n && Rising(t)
    ensures OneValue(t, p.week) || Injective(t, p.week)
    ensures OneValue(t, p.month) || Injective(t, p.month)
  {
    var n2 := n * n;
    assert n2 >= 1;
    var s := seq(n2 * n2, (i: nat) => i as int);
    var u := SomeAreUniform(s, p.week, n2, n2);
    t := SomeAreUniform(u, p.month, n, n);
  }

  /** Exactly which daily limits make online pruning right for every history, whatever
      the labels are. */
  lemma OnlineIsOfflineExactly(p: Policy)
    ensures (forall h :: DistinctNames(FilesOf(h)) ==> Online(h, p) == Kept(FilesOf(h), p)) <==> p.daily >= 0
  {
    hide *;
    if p.daily >= 0 {
      forall h ensures Online(h, p) == Kept(FilesOf(h), p) {
        OnlineIsOffline(h, p);
      }
    } else {
      var k := AtLeastOne(p.weekly) + AtLeastOne(p.monthly);
      LimitsArePositive(p);
      var t := UniformStamps(p, k + 1 - p.daily);
      FilesAtAreDistinct(t);
      FilesAtAreUniform(t, p.week, p.weekly, k);
      FilesAtAreUniform(t, p.month, p.monthly, k);
      NegativeDailyLimitDiffers(FilesAt(t), p, k);
    }
  }

  lemma LimitsArePositive(p: Policy)
    ensures AtLeastOne(p.weekly) >= 1 && AtLeastOne(p.monthly) >= 1
  {
  }
}
