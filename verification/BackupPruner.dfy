/** The pruning code of deploy/wealthfolio/backup.py, and a run of backups. */
module BackupPruner {
  import opened StringOrder
  import opened BackupRetention

  /** In the order of pruning. */
  ghost predicate NewestFirst(s: seq<File>) {
    && (forall i :: 0 <= i < |s| ==> Parsed(s[i]))
    && (forall i, j :: 0 <= i < j < |s| ==> Ahead(s[i], s[j]))
  }

  predicate NamedBefore(f: File, g: File) {
    f.name != g.name && Leq(f.name, g.name)
  }

  ghost predicate ListedByName(s: seq<File>) {
    forall i, j :: 0 <= i < j < |s| ==> NamedBefore(s[i], s[j])
  }

  /** The place of a file that comes after the others by name: behind equal stamps. */
  function InsertByDate(s: seq<File>, f: File): (r: seq<File>)
    requires NewestFirst(s) && Parsed(f) && forall g :: g in s ==> NamedBefore(g, f)
    ensures NewestFirst(r) && forall g :: g in r <==> g in s || g == f
  {
    if s == [] then [f]
    else if At(f) > At(s[0]) then
      FirstIsAhead(s, f);
      [f] + s
    else
      var rest := InsertByDate(s[1..], f);
      assert NamedBefore(s[0], f);
      assert Ahead(s[0], f);
      assert forall g :: g in s[1..] ==> Ahead(s[0], g);
      assert forall i :: 0 <= i < |rest| ==> rest[i] in rest;
      [s[0]] + rest
  }

  lemma FirstIsAhead(s: seq<File>, f: File)
    requires NewestFirst(s) && s != [] && At(f) > At(s[0])
    ensures forall j :: 0 <= j < |s| ==> Ahead(f, s[j])
  {
    forall j | 0 <= j < |s| ensures Ahead(f, s[j]) {
      assert j == 0 || Ahead(s[0], s[j]);
    }
  }

  /** Where the bundles newer than the one at `i` are. */
  lemma NewerIsPrefix(s: seq<File>, files: set<File>, i: nat)
    requires NewestFirst(s) && i < |s| && Bundles(files) == FilesOf(s)
    ensures Newer(files, s[i]) == FilesOf(s[..i]) && |Newer(files, s[i])| == i
  {
    forall g ensures g in Newer(files, s[i]) <==> g in s[..i] {
      if g in Newer(files, s[i]) {
        assert g in Bundles(files);
        var j :| 0 <= j < |s| && s[j] == g;
        if i < j { AheadTotal(s[i], s[j]); }
        assert s[..i][j] == g;
      }
      if g in s[..i] {
        var j :| 0 <= j < i && s[..i][j] == g;
        assert s[j] in Bundles(files);
      }
    }
    PrefixSize(s, i);
  }

  lemma {:induction false} PrefixSize(s: seq<File>, i: nat)
    requires NewestFirst(s) && i <= |s|
    ensures |FilesOf(s[..i])| == i
  {
    if i > 0 {
      PrefixSize(s, i - 1);
      assert s[..i] == s[..i - 1] + [s[i - 1]];
      assert FilesOf(s[..i]) == FilesOf(s[..i - 1]) + {s[i - 1]};
    }
  }

  /** A slice end, as Python reads it: counted from the other end if negative. */
  function SliceEnd(n: int, length: nat): (r: nat)
    ensures r <= length
  {
    if n >= length then length else if n >= 0 then n else if length + n >= 0 then length + n else 0
  }

  /** `sort(key=..., reverse=True)` over the names that parse. */
  method SortByDate(listing: seq<File>) returns (byDate: seq<File>)
    requires ListedByName(listing)
    ensures NewestFirst(byDate) && FilesOf(byDate) == Bundles(FilesOf(listing))
  {
    byDate := [];
    for i := 0 to |listing|
      invariant NewestFirst(byDate)
      invariant forall g :: g in byDate <==> g in listing[..i] && Parsed(g)
    {
      assert listing[..i + 1] == listing[..i] + [listing[i]];
      if Parsed(listing[i]) {
        forall g | g in byDate ensures NamedBefore(g, listing[i]) {
          var j :| 0 <= j < i && listing[..i][j] == g;
          assert listing[j] == g;
        }
        byDate := InsertByDate(byDate, listing[i]);
      }
    }
    assert listing[..|listing|] == listing;
  }

  /** `for _, path in by_date[:keep_daily]: keep.add(path)` */
  method KeepDaily(byDate: seq<File>, n: int, ghost files: set<File>) returns (keep: set<File>)
    requires NewestFirst(byDate) && FilesOf(byDate) == Bundles(files)
    ensures keep == set f | f in files && Parsed(f) && DailyKeeps(files, f, n)
  {
    var end := SliceEnd(n, |byDate|);
    keep := {};
    for i := 0 to end
      invariant keep == FilesOf(byDate[..i])
    {
      assert byDate[..i + 1] == byDate[..i] + [byDate[i]];
      keep := keep + {byDate[i]};
    }
    DailyIsPrefix(byDate, n, files);
  }

  lemma DailyIsPrefix(byDate: seq<File>, n: int, files: set<File>)
    requires NewestFirst(byDate) && FilesOf(byDate) == Bundles(files)
    ensures FilesOf(byDate[..SliceEnd(n, |byDate|)]) == set f | f in files && Parsed(f) && DailyKeeps(files, f, n)
  {
    var end := SliceEnd(n, |byDate|);
    PrefixSize(byDate, |byDate|);
    assert byDate[..|byDate|] == byDate;
    forall i | 0 <= i < |byDate| ensures DailyKeeps(files, byDate[i], n) <==> i < end {
      NewerIsPrefix(byDate, files, i);
    }
    forall f | f in files && Parsed(f) ensures f in byDate[..end] <==> DailyKeeps(files, f, n) {
      assert f in FilesOf(byDate);
      var i :| 0 <= i < |byDate| && byDate[i] == f;
      if i < end { assert byDate[..end][i] == f; }
    }
    forall f | f in byDate[..end] ensures f in files && Parsed(f) {
      assert f in FilesOf(byDate);
    }
  }

  /** Whether the bundle at `i` is kept for its label. */
  ghost predicate Represents(byDate: seq<File>, i: nat, tag: Labelling, m: int)
    requires i < |byDate|
  {
    && tag(At(byDate[i])) !in LabelsOf(FilesOf(byDate[..i]), tag)
    && |LabelsOf(FilesOf(byDate[..i]), tag)| < AtLeastOne(m)
  }

  lemma RepresentsIsKept(byDate: seq<File>, i: nat, tag: Labelling, m: int, files: set<File>)
    requires NewestFirst(byDate) && FilesOf(byDate) == Bundles(files) && i < |byDate|
    ensures Represents(byDate, i, tag, m) <==> LabelKeeps(files, byDate[i], tag, m)
  {
    NewerIsPrefix(byDate, files, i);
  }

  lemma LabelsOfPrefix(byDate: seq<File>, i: nat, tag: Labelling)
    requires i < |byDate|
    ensures LabelsOf(FilesOf(byDate[..i + 1]), tag) == LabelsOf(FilesOf(byDate[..i]), tag) + {tag(At(byDate[i]))}
  {
    assert byDate[..i + 1] == byDate[..i] + [byDate[i]];
    assert FilesOf(byDate[..i + 1]) == FilesOf(byDate[..i]) + {byDate[i]};
    LabelsMore(FilesOf(byDate[..i]), byDate[i], tag);
  }

  ghost function Representatives(byDate: seq<File>, i: nat, tag: Labelling, m: int): set<File>
    requires i <= |byDate|
  {
    set j | 0 <= j < i && Represents(byDate, j, tag, m) :: byDate[j]
  }

  /** Once the limit is reached, no later bundle represents a label. */
  lemma LimitReached(byDate: seq<File>, i: nat, tag: Labelling, m: int)
    requires i <= |byDate| && |LabelsOf(FilesOf(byDate[..i]), tag)| >= AtLeastOne(m)
    ensures Representatives(byDate, |byDate|, tag, m) == Representatives(byDate, i, tag, m)
  {
    forall j | i <= j < |byDate| ensures !Represents(byDate, j, tag, m) {
      assert FilesOf(byDate[..i]) <= FilesOf(byDate[..j]) by {
        assert byDate[..i] == byDate[..j][..i];
      }
      LabelsShrink(FilesOf(byDate[..i]), FilesOf(byDate[..j]), tag);
    }
  }

  /** The weekly and the monthly loop: one bundle per label, until enough labels are seen. */
  method KeepPerLabel(byDate: seq<File>, tag: Labelling, limit: int) returns (keep: set<File>)
    ensures keep == Representatives(byDate, |byDate|, tag, limit)
  {
    hide LabelsOf, FilesOf, Representatives, Represents;
    var seen: set<string> := {};
    keep := {};
    assert LabelsOf(FilesOf(byDate[..0]), tag) == {} by { NoLabels(byDate, tag); }
    NoRepresentatives(byDate, tag, limit);
    for i := 0 to |byDate|
      invariant seen == LabelsOf(FilesOf(byDate[..i]), tag)
      invariant |seen| < AtLeastOne(limit)
      invariant keep == Representatives(byDate, i, tag, limit)
    {
      LabelsOfPrefix(byDate, i, tag);
      var l := tag(At(byDate[i]));
      OneMoreRepresentative(byDate, i, tag, limit);
      if l in seen {
        assert seen + {l} == seen;
        continue;
      }
      seen := seen + {l};
      keep := keep + {byDate[i]};
      if |seen| >= limit {
        LimitReached(byDate, i + 1, tag, limit);
        return;
      }
    }
  }

  lemma OneMoreRepresentative(byDate: seq<File>, i: nat, tag: Labelling, m: int)
    requires i < |byDate| && |LabelsOf(FilesOf(byDate[..i]), tag)| < AtLeastOne(m)
    ensures Representatives(byDate, i + 1, tag, m) == Representatives(byDate, i, tag, m) +
              (if tag(At(byDate[i])) in LabelsOf(FilesOf(byDate[..i]), tag) then {} else {byDate[i]})
  {
    hide LabelsOf, FilesOf;
  }

  lemma NoRepresentatives(byDate: seq<File>, tag: Labelling, m: int)
    ensures Representatives(byDate, 0, tag, m) == {}
  {
  }

  lemma NoLabels(byDate: seq<File>, tag: Labelling)
    ensures LabelsOf(FilesOf(byDate[..0]), tag) == {}
  {
    assert byDate[..0] == [];
  }

  lemma RepresentativesAreKept(byDate: seq<File>, tag: Labelling, m: int, files: set<File>)
    requires NewestFirst(byDate) && FilesOf(byDate) == Bundles(files)
    ensures Representatives(byDate, |byDate|, tag, m) == set f | f in files && Parsed(f) && LabelKeeps(files, f, tag, m)
  {
    hide Represents, LabelKeeps, NewestFirst;
    forall i | 0 <= i < |byDate| ensures Represents(byDate, i, tag, m) <==> LabelKeeps(files, byDate[i], tag, m) {
      RepresentsIsKept(byDate, i, tag, m, files);
    }
    forall f | f in files && Parsed(f) && LabelKeeps(files, f, tag, m)
      ensures f in Representatives(byDate, |byDate|, tag, m)
    {
      assert f in FilesOf(byDate);
      var i :| 0 <= i < |byDate| && byDate[i] == f;
    }
    forall i | 0 <= i < |byDate| ensures byDate[i] in files && Parsed(byDate[i]) {
      assert byDate[i] in FilesOf(byDate);
    }
  }

  /** The files of `listing` outside `keep`, in listing order. */
  function Dropped(listing: seq<File>, keep: set<File>): (r: seq<File>)
    ensures forall f :: f in r <==> f in listing && f !in keep
  {
    if listing == [] then []
    else
      var last := listing[|listing| - 1];
      Dropped(listing[..|listing| - 1], keep) + (if last in keep then [] else [last])
  }

  lemma {:induction false} DroppedByName(listing: seq<File>, keep: set<File>)
    requires ListedByName(listing)
    ensures ListedByName(Dropped(listing, keep))
  {
    hide NamedBefore;
    if listing != [] {
      var init, last := listing[..|listing| - 1], listing[|listing| - 1];
      DroppedByName(init, keep);
      var d := Dropped(init, keep);
      forall i | 0 <= i < |d| ensures NamedBefore(d[i], last) {
        assert d[i] in d;
        var j :| 0 <= j < |init| && init[j] == d[i];
        assert listing[j] == d[i];
      }
    }
  }

  class BackupDirectory {
    var files: set<File>

    constructor ()
      ensures files == {}
    {
      files := {};
    }

    /** `prune_retention`: exactly the kept bundles remain, and whatever else there was
        is removed and reported by name, unparsable names included. */
    method Prune(p: Policy) returns (removed: seq<File>)
      requires DistinctNames(files)
      modifies this
      ensures files == Kept(old(files), p) && Retains(old(files), files, p)
      ensures FilesOf(removed) == old(files) - Kept(old(files), p) && ListedByName(removed)
    {
      hide DailyKeeps, LabelKeeps, NewestFirst, DistinctNames, Representatives, ListedByName, Retains;
      ghost var before := files;
      var listing := List(files);
      var byDate := SortByDate(listing);
      var daily := KeepDaily(byDate, p.daily, before);
      var weekly := KeepPerLabel(byDate, p.week, p.weekly);
      var monthly := KeepPerLabel(byDate, p.month, p.monthly);
      RepresentativesAreKept(byDate, p.week, p.weekly, before);
      RepresentativesAreKept(byDate, p.month, p.monthly, before);
      var keep := daily + weekly + monthly;
      assert keep == Kept(before, p);
      RetainsExactly(before, keep, p);
      removed := RemoveOutside(listing, keep);
      DroppedByName(listing, keep);
      assert keep <= before;
    }

    method RemoveOutside(listing: seq<File>, keep: set<File>) returns (removed: seq<File>)
      requires FilesOf(listing) == files && keep <= files
      modifies this
      ensures files == keep && removed == Dropped(listing, keep)
    {
      removed := [];
      for i := 0 to |listing|
        invariant files == set f | f in old(files) && (f in keep || f !in listing[..i])
        invariant removed == Dropped(listing[..i], keep)
      {
        assert listing[..i + 1][..i] == listing[..i];
        assert forall f :: f in listing[..i + 1] <==> f in listing[..i] || f == listing[i];
        if listing[i] !in keep {
          files := files - {listing[i]};
          removed := removed + [listing[i]];
        }
      }
      assert listing[..|listing|] == listing;
    }
  }

  /** A life of backups: after each new bundle the directory is listed and pruned, and
      what is left is what one prune of the whole history would leave. */
  method RunBackups(history: seq<File>, p: Policy) returns (dir: BackupDirectory)
    requires DistinctNames(FilesOf(history)) && p.daily >= 0
    ensures fresh(dir) && dir.files == Kept(FilesOf(history), p) && Retains(FilesOf(history), dir.files, p)
  {
    hide Kept, DistinctNames, Retains;
    dir := new BackupDirectory();
    assert history[..0] == [];
    for i := 0 to |history|
      invariant fresh(dir) && dir.files == Online(history[..i], p)
    {
      OnlineStep(history, i, p);
      dir.files := dir.files + {history[i]};
      var removed := dir.Prune(p);
    }
    assert history[..|history|] == history;
    OnlineIsOffline(history, p);
    RetainsExactly(FilesOf(history), dir.files, p);
  }

  lemma OnlineStep(h: seq<File>, i: nat, p: Policy)
    requires DistinctNames(FilesOf(h)) && i < |h|
    ensures DistinctNames(Online(h[..i], p) + {h[i]})
    ensures Online(h[..i + 1], p) == Kept(Online(h[..i], p) + {h[i]}, p)
  {
    hide Kept;
    assert h[..i + 1][..i] == h[..i];
    OnlineIsHistory(h[..i], p);
    assert Online(h[..i], p) + {h[i]} <= FilesOf(h);
  }

  /** `sorted(backup_dir.glob(...))`: the files by name. */
  method List(files: set<File>) returns (listing: seq<File>)
    requires DistinctNames(files)
    ensures ListedByName(listing) && FilesOf(listing) == files
  {
    hide Leq, Sorted;
    var names := Sorted(set f | f in files :: f.name);
    listing := [];
    for i := 0 to |names|
      invariant |listing| == i
      invariant forall j :: 0 <= j < i ==> listing[j] in files && listing[j].name == names[j]
    {
      assert names[i] in names;
      var f :| f in files && f.name == names[i];
      listing := listing + [f];
    }
    forall f | f in files ensures f in listing {
      assert f.name in names;
      var j :| 0 <= j < |names| && names[j] == f.name;
      assert listing[j] == f;
    }
  }
}
