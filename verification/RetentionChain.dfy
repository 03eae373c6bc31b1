/** What holds over every sequence of retention runs of one tenant, instant and
    retention period, whatever their ids, retry limits, failures and interruptions. */
module RetentionChain {
  import opened Retention
  import opened RetentionRun

  /** The record is gone: its last successful operation is a delete. */
  ghost predicate Gone(ops: seq<Operation>, id: string) {
    if ops == [] then false
    else
      var last := ops[|ops| - 1];
      if last.id == id then last.Deleted? else Gone(ops[..|ops| - 1], id)
  }

  /** No record is deleted while it is gone. */
  ghost predicate NeverTwice(ops: seq<Operation>) {
    forall j :: 0 <= j < |ops| && ops[j].Deleted? ==> !Gone(ops[..j], ops[j].id)
  }

  ghost predicate ClaimsMatch(c: Context, claimed: set<ClaimKey>, ops: seq<Operation>) {
    forall id :: Claim(c, id) in claimed <==> Gone(ops, id)
  }

  ghost predicate CompletedAreClaimed(c: Context, completed: set<string>, claimed: set<ClaimKey>) {
    forall id :: id in completed ==> Claim(c, id) in claimed
  }

  /** The invariant of the whole process. */
  ghost predicate Sound(c: Context, w: World) {
    && ClaimsMatch(c, w.claimed, w.operations)
    && NeverTwice(w.operations)
    && forall key :: key in w.runs ==> CompletedAreClaimed(c, w.runs[key], w.claimed)
  }

  // ---- one operation more ----

  lemma GoneAppend(ops: seq<Operation>, o: Operation, id: string)
    ensures Gone(ops + [o], id) <==> if o.id == id then o.Deleted? else Gone(ops, id)
  {
    assert (ops + [o])[..|ops|] == ops;
  }

  lemma NeverTwiceAppend(ops: seq<Operation>, o: Operation)
    requires NeverTwice(ops) && (o.Deleted? ==> !Gone(ops, o.id))
    ensures NeverTwice(ops + [o])
  {
    forall j | 0 <= j < |ops| + 1 && (ops + [o])[j].Deleted? ensures !Gone((ops + [o])[..j], (ops + [o])[j].id) {
      assert (ops + [o])[..j] == ops[..j];
      if j == |ops| { assert ops[..j] == ops; }
    }
  }

  /** The process while a run is under way and has not stopped. */
  ghost predicate UnderWay(c: Context, p: Progress) {
    && ClaimsMatch(c, p.claimed, p.operations)
    && NeverTwice(p.operations)
    && CompletedAreClaimed(c, p.completed, p.claimed)
  }

  lemma CompletionKeepsOn(a: Arguments, p: Progress, id: string, k: string)
    requires UnderWay(a.context, p) && Claim(a.context, id) !in p.claimed
    ensures UnderWay(a.context, Complete(p, Claim(a.context, id), k))
  {
    hide Gone, NeverTwice;
    var q := Complete(p, Claim(a.context, id), k);
    assert !Gone(p.operations, id);
    NeverTwiceAppend(p.operations, Deleted(id));
    forall x ensures Claim(a.context, x) in q.claimed <==> Gone(q.operations, x) {
      GoneAppend(p.operations, Deleted(id), x);
    }
  }

  lemma StepKeepsOn(oracle: Oracle, a: Arguments, expired: seq<Record>, i: nat, p: Progress)
    requires i < |expired| && UnderWay(a.context, p) && !Stopped(p.status)
    ensures Step(oracle, a, expired, i, p).status != RolledBack ==> UnderWay(a.context, Step(oracle, a, expired, i, p))
  {
    hide Attempt, MarkRest, ClaimsMatch, NeverTwice;
    var id, k := expired[i].id, expired[i].category;
    if !a.dryRun && id !in p.completed && Claim(a.context, id) !in p.claimed {
      var q := p.(byCategory := p.byCategory + multiset{Mark(k, AsCandidate)});
      var t := Attempt(oracle, a.maxRetries, 0, q.calls);
      var r := q.(calls := t.calls, retries := q.retries + t.retried);
      CompletionKeepsOn(a, r, id, k);
    }
  }

  lemma {:induction false} LoopKeepsOn(oracle: Oracle, w: World, a: Arguments, expired: seq<Record>, i: nat)
    requires i <= |expired| && Sound(a.context, w)
    ensures Loop(oracle, w, a, expired, i).status != RolledBack ==> UnderWay(a.context, Loop(oracle, w, a, expired, i))
  {
    hide Step, ClaimsMatch, NeverTwice;
    if i > 0 {
      LoopKeepsOn(oracle, w, a, expired, i - 1);
      var p := Loop(oracle, w, a, expired, i - 1);
      if !Stopped(p.status) { StepKeepsOn(oracle, a, expired, i - 1, p); }
    }
  }

  // ---- roll-back ----

  lemma RestoresStep(ops: seq<Operation>, d: seq<string>)
    ensures d == [] ==> ops + Restores(d) == ops
    ensures d != [] ==> ops + Restores(d) == ops + [Restored(d[|d| - 1])] + Restores(d[..|d| - 1])
  {
    if d == [] {
      assert ops + [] == ops;
    } else {
      var o, rest := [Restored(d[|d| - 1])], Restores(d[..|d| - 1]);
      assert ops + (o + rest) == ops + o + rest;
    }
  }

  lemma DeletesStep(ops: seq<Operation>, d: seq<string>)
    ensures d == [] ==> ops + Deletes(d) == ops
    ensures d != [] ==> ops + Deletes(d) == ops + Deletes(d[..|d| - 1]) + [Deleted(d[|d| - 1])]
  {
    if d == [] {
      assert ops + [] == ops;
    } else {
      var o, rest := [Deleted(d[|d| - 1])], Deletes(d[..|d| - 1]);
      assert ops + (rest + o) == ops + rest + o;
    }
  }

  lemma {:induction false} RestoresBringBack(ops: seq<Operation>, d: seq<string>, id: string)
    ensures Gone(ops + Restores(d), id) <==> Gone(ops, id) && id !in d
    decreases |d|
  {
    hide Restores, Gone;
    RestoresStep(ops, d);
    if d != [] {
      var init, last := d[..|d| - 1], d[|d| - 1];
      RestoresBringBack(ops + [Restored(last)], init, id);
      GoneAppend(ops, Restored(last), id);
      assert d == init + [last];
    }
  }

  lemma {:induction false} RestoresNeverDelete(ops: seq<Operation>, d: seq<string>)
    requires NeverTwice(ops)
    ensures NeverTwice(ops + Restores(d))
    decreases |d|
  {
    hide NeverTwice, Restores, Gone;
    RestoresStep(ops, d);
    if d != [] {
      var o := Restored(d[|d| - 1]);
      NeverTwiceAppend(ops, o);
      RestoresNeverDelete(ops + [o], d[..|d| - 1]);
    }
  }

  lemma {:induction false} DeletesTakeAway(ops: seq<Operation>, d: seq<string>, id: string)
    ensures Gone(ops + Deletes(d), id) <==> Gone(ops, id) || id in d
  {
    hide Deletes, Gone;
    DeletesStep(ops, d);
    if d != [] {
      var init, last := d[..|d| - 1], d[|d| - 1];
      DeletesTakeAway(ops, init, id);
      GoneAppend(ops + Deletes(init), Deleted(last), id);
      assert d == init + [last];
    }
  }

  /** Restores undo the last deletion first. */
  lemma {:induction false} RestoresReverse(d: seq<string>, m: nat)
    requires m < |d|
    ensures |Restores(d)| == |d| && Restores(d)[m] == Restored(d[|d| - 1 - m])
  {
    if |d| > 1 { RestoresReverse(d[..|d| - 1], if m == 0 then 0 else m - 1); }
  }

  /** A rolled-back run brings back all it deleted, in any world. So it leaves the store
      as it was exactly when nothing it deleted was gone before it. */
  lemma RollBackRestoresTheStore(oracle: Oracle, w: World, a: Arguments) returns (d: seq<string>)
    requires RunReport(oracle, w, a).status == RolledBack
    ensures var w' := RunWorld(oracle, w, a);
            && w'.operations == w.operations + Deletes(d) + Restores(d) && w'.claimed == w.claimed
            && forall id :: Gone(w'.operations, id) <==> Gone(w.operations, id) && id !in d
    ensures forall x :: x in d ==> Claim(a.context, x) !in w.claimed
    ensures (forall id :: Gone(RunWorld(oracle, w, a).operations, id) <==> Gone(w.operations, id))
       <==> forall x :: x in d ==> !Gone(w.operations, x)
  {
    hide RunWorld, RunReport, Gone, NeverTwice, Deletes, Restores;
    d := RollBackUndoes(oracle, w, a);
    forall id ensures Gone(RunWorld(oracle, w, a).operations, id) <==> Gone(w.operations, id) && id !in d {
      DeletesTakeAway(w.operations, d, id);
      RestoresBringBack(w.operations + Deletes(d), d, id);
    }
  }

  lemma RolledBackNeverTwice(oracle: Oracle, w: World, a: Arguments, expired: seq<Record>, i: nat)
    requires i <= |expired| && Sound(a.context, w) && Loop(oracle, w, a, expired, i).status == RolledBack
    ensures NeverTwice(Loop(oracle, w, a, expired, i).operations)
  {
    hide Step, NeverTwice, Gone;
    var r := StoppedAt(oracle, w, a, expired, i);
    var p := Loop(oracle, w, a, expired, r);
    LoopKeepsOn(oracle, w, a, expired, r);
    RollBackStep(oracle, a, expired, r, p);
    RestoresNeverDelete(p.operations, p.deleted);
  }

  lemma RollBackStep(oracle: Oracle, a: Arguments, expired: seq<Record>, i: nat, p: Progress)
    requires i < |expired| && !Stopped(p.status) && Step(oracle, a, expired, i, p).status == RolledBack
    ensures Step(oracle, a, expired, i, p).operations == p.operations + Restores(p.deleted)
  {
    hide Attempt, MarkRest, Restores;
  }

  // ---- one run, any number of runs ----

  /** Every run keeps the process sound: passed, failed, rolled back or interrupted. */
  lemma RunKeepsSound(oracle: Oracle, w: World, a: Arguments)
    requires Sound(a.context, w)
    ensures Sound(a.context, RunWorld(oracle, w, a))
  {
    hide Loop, Gone, NeverTwice, SelectExpired, KeyOf;
    var expired := SelectExpired(a.records, a.context);
    var n, key := |expired|, KeyOf(a, expired);
    var p, w' := Loop(oracle, w, a, expired, n), RunWorld(oracle, w, a);
    RollBackHasNoFailures(oracle, w, a, expired, n);
    if p.status == RolledBack {
      var d := RollBackRestoresTheStore(oracle, w, a);
      assert w'.runs == w.runs - {key};
      RolledBackNeverTwice(oracle, w, a, expired, n);
    } else {
      LoopKeepsOn(oracle, w, a, expired, n);
      ClaimsGrow(oracle, w, a, expired, n);
    }
  }

  lemma ClaimsGrow(oracle: Oracle, w: World, a: Arguments, expired: seq<Record>, i: nat)
    requires i <= |expired|
    ensures w.claimed <= Loop(oracle, w, a, expired, i).claimed
  {
    hide Loop;
    var d := LoopJournal(oracle, w, a, expired, i);
  }

  const FRESH := World(map[], {}, [], 0)

  function RunAll(oracle: Oracle, w: World, runs: seq<Arguments>): World {
    if runs == [] then w
    else RunWorld(oracle, RunAll(oracle, w, runs[..|runs| - 1]), runs[|runs| - 1])
  }

  lemma {:induction false} AllRunsKeepSound(oracle: Oracle, c: Context, runs: seq<Arguments>)
    requires forall a :: a in runs ==> a.context == c
    ensures Sound(c, RunAll(oracle, FRESH, runs))
  {
    hide RunWorld, Sound;
    if runs == [] {
      FreshIsSound(c);
    } else {
      AllRunsKeepSound(oracle, c, runs[..|runs| - 1]);
      RunKeepsSound(oracle, RunAll(oracle, FRESH, runs[..|runs| - 1]), runs[|runs| - 1]);
    }
  }

  lemma FreshIsSound(c: Context)
    ensures Sound(c, FRESH)
  {
  }

  /** Between two deletions of a record there is a restore of it. */
  lemma {:induction false} RestoreBetween(ops: seq<Operation>, i: nat, j: nat, id: string) returns (k: nat)
    requires i < j <= |ops| && ops[i] == Deleted(id) && !Gone(ops[..j], id)
    ensures i < k < j && ops[k] == Restored(id)
    decreases j
  {
    var last := ops[j - 1];
    assert ops[..j][..j - 1] == ops[..j - 1];
    if last.id == id {
      k := j - 1;
    } else {
      k := RestoreBetween(ops, i, j - 1, id);
    }
  }

  /** Over any sequence of runs for one context, starting afresh: a record is
      claimed exactly when its last successful operation is a delete, and it is
      never deleted twice without a restore in between. */
  lemma ClaimedIffLastDeleted(oracle: Oracle, c: Context, runs: seq<Arguments>, id: string)
    requires forall a :: a in runs ==> a.context == c
    ensures var w := RunAll(oracle, FRESH, runs);
            && (Claim(c, id) in w.claimed <==> Gone(w.operations, id))
            && forall i, j :: 0 <= i < j < |w.operations| && w.operations[i] == Deleted(id) == w.operations[j] ==>
                 exists k :: i < k < j && w.operations[k] == Restored(id)
  {
    hide RunAll, Gone;
    AllRunsKeepSound(oracle, c, runs);
    var w := RunAll(oracle, FRESH, runs);
    forall i, j | 0 <= i < j < |w.operations| && w.operations[i] == Deleted(id) == w.operations[j]
      ensures exists k :: i < k < j && w.operations[k] == Restored(id)
    {
      var k := RestoreBetween(w.operations, i, j, id);
    }
  }
}
