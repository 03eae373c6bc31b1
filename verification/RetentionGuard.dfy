/** Runs of any tenants, instants and periods, mixed: exactly when nothing is deleted
    twice, and when a record that is reported deleted is gone. */
module RetentionGuard {
  import opened Retention
  import opened RetentionRun
  import opened RetentionChain
  import opened RetentionReplay

  /** The ids that the run's own entry lists as completed before it starts. */
  ghost function Entry(w: World, a: Arguments): set<string> {
    var key := KeyOf(a, SelectExpired(a.records, a.context));
    if key in w.runs then w.runs[key] else {}
  }

  /** Every expired record that is gone is one the run will skip: a condition on the
      state before the run. */
  ghost predicate Guarded(w: World, a: Arguments) {
    a.dryRun || forall r :: r in SelectExpired(a.records, a.context) && Gone(w.operations, r.id) ==>
      Claim(a.context, r.id) in w.claimed || r.id in Entry(w, a)
  }

  // ---- where completed ids come from ----

  /** Completed ids were completed before, claimed before, or deleted in this run; and
      no id is deleted that was completed before. */
  ghost predicate Provenance(w: World, a: Arguments, start: set<string>, p: Progress) {
    && start <= p.completed
    && (forall x :: x in p.completed ==> x in start || Claim(a.context, x) in w.claimed || x in p.deleted)
    && (forall x :: x in p.deleted ==> x !in start)
  }

  lemma ProvenanceStep(oracle: Oracle, w: World, a: Arguments, expired: seq<Record>, i: nat, start: set<string>, p: Progress, d: seq<string>)
    requires i < |expired| && !Stopped(p.status) && Provenance(w, a, start, p) && Journal(w, a, p, d)
    requires Step(oracle, a, expired, i, p).status != RolledBack
    ensures Provenance(w, a, start, Step(oracle, a, expired, i, p))
  {
    hide Attempt, MarkRest, Restores, Deletes;
    var id := expired[i].id;
    if Claim(a.context, id) in p.claimed && Claim(a.context, id) !in w.claimed {
      assert Claim(a.context, id) in ClaimsOf(a.context, d);
    }
  }

  lemma {:induction false} ProvenanceLoop(oracle: Oracle, w: World, a: Arguments, expired: seq<Record>, i: nat)
    requires i <= |expired| && Loop(oracle, w, a, expired, i).status != RolledBack
    ensures Provenance(w, a, Start(w, a, KeyOf(a, expired)).completed, Loop(oracle, w, a, expired, i))
  {
    hide Step, KeyOf;
    if i > 0 {
      var p := Loop(oracle, w, a, expired, i - 1);
      ProvenanceLoop(oracle, w, a, expired, i - 1);
      if !Stopped(p.status) {
        var d := LoopJournal(oracle, w, a, expired, i - 1);
        ProvenanceStep(oracle, w, a, expired, i - 1, Start(w, a, KeyOf(a, expired)).completed, p, d);
      }
    }
  }

  // ---- a guarded run never deletes twice ----

  ghost predicate Careful(a: Arguments, expired: seq<Record>, p: Progress) {
    && NeverTwice(p.operations)
    && forall r :: r in expired && Gone(p.operations, r.id) ==> Claim(a.context, r.id) in p.claimed || r.id in p.completed
  }

  lemma CarefulCompletion(a: Arguments, expired: seq<Record>, p: Progress, id: string, k: string)
    requires Careful(a, expired, p) && !Gone(p.operations, id)
    ensures Careful(a, expired, Complete(p, Claim(a.context, id), k))
  {
    hide Gone, NeverTwice;
    NeverTwiceAppend(p.operations, Deleted(id));
    forall r | r in expired && r.id != id ensures Gone(p.operations + [Deleted(id)], r.id) <==> Gone(p.operations, r.id) {
      GoneAppend(p.operations, Deleted(id), r.id);
    }
  }

  lemma CarefulStep(oracle: Oracle, a: Arguments, expired: seq<Record>, i: nat, p: Progress)
    requires i < |expired| && !a.dryRun && !Stopped(p.status) && Careful(a, expired, p)
    ensures Step(oracle, a, expired, i, p).status != RolledBack ==> Careful(a, expired, Step(oracle, a, expired, i, p))
  {
    hide Attempt, MarkRest, NeverTwice, Gone, Restores;
    var id, k := expired[i].id, expired[i].category;
    if id !in p.completed && Claim(a.context, id) !in p.claimed {
      assert expired[i] in expired;
      var t := Attempt(oracle, a.maxRetries, 0, p.calls);
      var q := p.(byCategory := p.byCategory + multiset{Mark(k, AsCandidate)}, calls := t.calls, retries := p.retries + t.retried);
      CarefulCompletion(a, expired, q, id, k);
    }
  }

  lemma {:induction false} CarefulLoop(oracle: Oracle, w: World, a: Arguments, expired: seq<Record>, i: nat)
    requires i <= |expired| && !a.dryRun && Careful(a, expired, Start(w, a, KeyOf(a, expired)))
    ensures Loop(oracle, w, a, expired, i).status != RolledBack ==> Careful(a, expired, Loop(oracle, w, a, expired, i))
    ensures NeverTwice(Loop(oracle, w, a, expired, i).operations)
  {
    hide Step, KeyOf, Gone;
    if i > 0 {
      var p := Loop(oracle, w, a, expired, i - 1);
      CarefulLoop(oracle, w, a, expired, i - 1);
      if !Stopped(p.status) {
        CarefulStep(oracle, a, expired, i - 1, p);
        if Step(oracle, a, expired, i - 1, p).status == RolledBack {
          RollBackStep(oracle, a, expired, i - 1, p);
          RestoresNeverDelete(p.operations, p.deleted);
        }
      }
    }
  }

  lemma GuardedRunNeverTwice(oracle: Oracle, w: World, a: Arguments)
    requires NeverTwice(w.operations) && Guarded(w, a)
    ensures NeverTwice(RunWorld(oracle, w, a).operations)
  {
    hide Loop, NeverTwice, Gone, SelectExpired, KeyOf;
    var expired := SelectExpired(a.records, a.context);
    if a.dryRun {
      DryRunTouchesNothing(oracle, w, a);
    } else {
      CarefulLoop(oracle, w, a, expired, |expired|);
    }
  }

  // ---- an unguarded run does, if the store lets it ----

  lemma {:induction false} DeletesAt(d: seq<string>, m: nat)
    requires m < |d|
    ensures |Deletes(d)| == |d| && Deletes(d)[m] == Deleted(d[m]) && Deletes(d)[..m] == Deletes(d[..m])
  {
    var init := d[..|d| - 1];
    if m < |d| - 1 {
      DeletesAt(init, m);
      assert init[..m] == d[..m];
    } else {
      if init != [] { DeletesAt(init, 0); }
      assert d[..m] == init;
    }
  }

  lemma DeletedWhileGone(ops: seq<Operation>, d: seq<string>, x: string)
    requires Gone(ops, x) && x in d
    ensures !NeverTwice(ops + Deletes(d))
  {
    hide Gone, Deletes;
    var m :| 0 <= m < |d| && d[m] == x;
    DeletesAt(d, m);
    var all := ops + Deletes(d);
    assert all[|ops| + m] == Deleted(x);
    assert all[..|ops| + m] == ops + Deletes(d[..m]);
    DeletesTakeAway(ops, d[..m], x);
  }

  lemma DoneTurn(oracle: Oracle, a: Arguments, expired: seq<Record>, i: nat, p: Progress)
    requires i < |expired| && !a.dryRun && !Stopped(p.status) && oracle(p.calls) == Done
    ensures var q := Step(oracle, a, expired, i, p);
            && q.status == p.status && q.failures == p.failures && q.calls >= p.calls
            && p.completed <= q.completed && expired[i].id in q.completed
  {
  }

  lemma {:induction false} DoneLoop(oracle: Oracle, w: World, a: Arguments, expired: seq<Record>, i: nat)
    requires i <= |expired| && !a.dryRun && forall n: nat :: n >= w.calls ==> oracle(n) == Done
    ensures var p := Loop(oracle, w, a, expired, i); p.status == Passed && p.failures == [] && p.calls >= w.calls
  {
    hide Step, KeyOf;
    if i > 0 {
      DoneLoop(oracle, w, a, expired, i - 1);
      DoneTurn(oracle, a, expired, i - 1, Loop(oracle, w, a, expired, i - 1));
    }
  }

  lemma UnguardedRunDeletesTwice(oracle: Oracle, w: World, a: Arguments)
    requires !Guarded(w, a) && forall n: nat :: n >= w.calls ==> oracle(n) == Done
    ensures !NeverTwice(RunWorld(oracle, w, a).operations)
  {
    hide Loop, NeverTwice, Gone, SelectExpired, KeyOf, AllDeleted, Deletes, Restores;
    var expired := SelectExpired(a.records, a.context);
    var n, p := |expired|, Loop(oracle, w, a, expired, |expired|);
    var r :| r in expired && Gone(w.operations, r.id) && Claim(a.context, r.id) !in w.claimed && r.id !in Entry(w, a);
    DoneLoop(oracle, w, a, expired, n);
    PassedRunIsSmooth(oracle, w, a, expired, n);
    ProvenanceLoop(oracle, w, a, expired, n);
    var d := LoopJournal(oracle, w, a, expired, n);
    assert r.id in d;
    DeletedWhileGone(w.operations, d, r.id);
    assert w.operations + Deletes(d) + [] == w.operations + Deletes(d);
  }

  /** Whatever the callback does, a run deletes nothing that is gone: exactly when it is
      guarded. The condition can be read off the state before the run. */
  lemma SafeIffGuarded(w: World, a: Arguments)
    requires NeverTwice(w.operations)
    ensures (forall oracle: Oracle :: NeverTwice(RunWorld(oracle, w, a).operations)) <==> Guarded(w, a)
  {
    hide RunWorld, NeverTwice, Guarded;
    if Guarded(w, a) {
      forall oracle: Oracle ensures NeverTwice(RunWorld(oracle, w, a).operations) {
        GuardedRunNeverTwice(oracle, w, a);
      }
    } else {
      var done: Oracle := _ => Done;
      UnguardedRunDeletesTwice(done, w, a);
    }
  }

  // ---- what a run does depends only on the calls it makes ----

  ghost predicate Agree(o: Oracle, o': Oracle, n: nat) {
    forall k: nat :: k < n ==> o(k) == o'(k)
  }

  lemma {:induction false} AttemptLocal(o: Oracle, o': Oracle, maxRetries: int, attempts: nat, calls: nat, n: nat)
    requires Agree(o, o', n) && Attempt(o, maxRetries, attempts, calls).calls <= n
    ensures Attempt(o', maxRetries, attempts, calls) == Attempt(o, maxRetries, attempts, calls)
    decreases maxRetries - attempts
  {
    AttemptCalls(o, maxRetries, attempts, calls);
    assert o(calls) == o'(calls);
    if o(calls).Failed? && attempts < maxRetries {
      AttemptLocal(o, o', maxRetries, attempts + 1, calls + 1, n);
    }
  }

  lemma SettleCallsNothing(a: Arguments, expired: seq<Record>, i: nat, p: Progress, outcome: Outcome)
    requires i < |expired|
    ensures Settle(a, expired, i, p, outcome).calls == p.calls
  {
    hide MarkRest, Restores;
  }

  lemma StepLocal(o: Oracle, o': Oracle, a: Arguments, expired: seq<Record>, i: nat, p: Progress, n: nat)
    requires i < |expired| && Agree(o, o', n) && Step(o, a, expired, i, p).calls <= n
    ensures Step(o', a, expired, i, p) == Step(o, a, expired, i, p)
  {
    hide Attempt, Settle, Agree, Count;
    var id, c := expired[i].id, expired[i].category;
    if !a.dryRun && id !in p.completed && Claim(a.context, id) !in p.claimed {
      var q, t := p.(byCategory := p.byCategory + multiset{Mark(c, AsCandidate)}), Attempt(o, a.maxRetries, 0, p.calls);
      SettleCallsNothing(a, expired, i, q.(calls := t.calls, retries := q.retries + t.retried), t.outcome);
      AttemptLocal(o, o', a.maxRetries, 0, p.calls, n);
    }
  }

  lemma {:induction false} LoopLocal(o: Oracle, o': Oracle, w: World, a: Arguments, expired: seq<Record>, i: nat, n: nat)
    requires i <= |expired| && Agree(o, o', n) && Loop(o, w, a, expired, i).calls <= n
    ensures Loop(o', w, a, expired, i) == Loop(o, w, a, expired, i)
  {
    hide Step, KeyOf, Agree, MostCalls;
    if i > 0 {
      var p := Loop(o, w, a, expired, i - 1);
      if !Stopped(p.status) { StepCalls(o, a, expired, i - 1, p); }
      LoopLocal(o, o', w, a, expired, i - 1, n);
      if !Stopped(p.status) { StepLocal(o, o', a, expired, i - 1, p, n); }
    }
  }

  lemma {:induction false} RunAllLocal(o: Oracle, o': Oracle, runs: seq<Arguments>, n: nat)
    requires Agree(o, o', n) && RunAll(o, FRESH, runs).calls <= n
    ensures RunAll(o', FRESH, runs) == RunAll(o, FRESH, runs)
  {
    hide Loop, KeyOf, SelectExpired, Agree, MostCalls;
    if runs != [] {
      var init, a := runs[..|runs| - 1], runs[|runs| - 1];
      var w, expired := RunAll(o, FRESH, init), SelectExpired(a.records, a.context);
      CallsAreBounded(o, w, a, expired, |expired|);
      RunAllLocal(o, o', init, n);
      LoopLocal(o, o', w, a, expired, |expired|, n);
    }
  }

  // ---- any sequence of runs ----

  lemma OperationsGrow(oracle: Oracle, w: World, a: Arguments)
    ensures w.operations <= RunWorld(oracle, w, a).operations
  {
    hide Loop, Deletes, Restores;
    var expired := SelectExpired(a.records, a.context);
    var d := LoopJournal(oracle, w, a, expired, |expired|);
  }

  lemma NeverTwiceBefore(ops: seq<Operation>, more: seq<Operation>)
    requires NeverTwice(more) && ops <= more
    ensures NeverTwice(ops)
  {
    forall j | 0 <= j < |ops| && ops[j].Deleted? ensures !Gone(ops[..j], ops[j].id) {
      assert more[..j] == ops[..j] && more[j] == ops[j];
    }
  }

  ghost predicate AllGuarded(oracle: Oracle, runs: seq<Arguments>) {
    forall i :: 0 <= i < |runs| ==> Guarded(RunAll(oracle, FRESH, runs[..i]), runs[i])
  }

  lemma AllGuardedInit(oracle: Oracle, runs: seq<Arguments>)
    requires runs != []
    ensures AllGuarded(oracle, runs) <==>
              AllGuarded(oracle, runs[..|runs| - 1]) && Guarded(RunAll(oracle, FRESH, runs[..|runs| - 1]), runs[|runs| - 1])
  {
    hide Guarded, RunAll;
    var init := runs[..|runs| - 1];
    assert forall i :: 0 <= i < |init| ==> init[..i] == runs[..i] && init[i] == runs[i];
  }

  lemma {:induction false} GuardedRunsNeverTwice(oracle: Oracle, runs: seq<Arguments>)
    requires AllGuarded(oracle, runs)
    ensures NeverTwice(RunAll(oracle, FRESH, runs).operations)
  {
    hide Guarded, RunWorld, AllGuarded;
    if runs != [] {
      AllGuardedInit(oracle, runs);
      GuardedRunsNeverTwice(oracle, runs[..|runs| - 1]);
      GuardedRunNeverTwice(oracle, RunAll(oracle, FRESH, runs[..|runs| - 1]), runs[|runs| - 1]);
    }
  }

  lemma {:induction false} LaterRunsKeepEarlier(oracle: Oracle, runs: seq<Arguments>, i: nat)
    requires i <= |runs|
    ensures RunAll(oracle, FRESH, runs[..i]).operations <= RunAll(oracle, FRESH, runs).operations
    decreases |runs|
  {
    hide RunWorld;
    if i == |runs| {
      assert runs[..i] == runs;
    } else {
      var init := runs[..|runs| - 1];
      assert init[..i] == runs[..i];
      LaterRunsKeepEarlier(oracle, init, i);
      OperationsGrow(oracle, RunAll(oracle, FRESH, init), runs[|runs| - 1]);
    }
  }

  /** If some run of a sequence is unguarded, a callback that behaves the same until then
      and deletes from then on makes the sequence delete a record twice. */
  lemma UnguardedRunsDeleteTwice(oracle: Oracle, runs: seq<Arguments>, i: nat) returns (o: Oracle)
    requires i < |runs| && !Guarded(RunAll(oracle, FRESH, runs[..i]), runs[i])
    ensures !NeverTwice(RunAll(o, FRESH, runs).operations)
  {
    hide RunWorld, Guarded, NeverTwice;
    var w := RunAll(oracle, FRESH, runs[..i]);
    o := (n: nat) => if n < w.calls then oracle(n) else Done;
    RunAllLocal(oracle, o, runs[..i], w.calls);
    UnguardedRunDeletesTwice(o, w, runs[i]);
    assert runs[..i + 1][..i] == runs[..i];
    assert RunAll(o, FRESH, runs[..i + 1]) == RunWorld(o, w, runs[i]);
    LaterRunsKeepEarlier(o, runs, i + 1);
    if NeverTwice(RunAll(o, FRESH, runs).operations) {
      NeverTwiceBefore(RunAll(o, FRESH, runs[..i + 1]).operations, RunAll(o, FRESH, runs).operations);
    }
  }

  /** Over any sequence of runs, of any tenants, instants and periods: no callback makes
      it delete a gone record exactly when every run is guarded when it starts. */
  lemma SafeRunsIffGuarded(runs: seq<Arguments>)
    ensures (forall oracle: Oracle :: NeverTwice(RunAll(oracle, FRESH, runs).operations))
       <==> (forall oracle: Oracle :: AllGuarded(oracle, runs))
  {
    hide RunAll, NeverTwice, Guarded;
    if forall oracle: Oracle :: AllGuarded(oracle, runs) {
      forall oracle: Oracle ensures NeverTwice(RunAll(oracle, FRESH, runs).operations) {
        GuardedRunsNeverTwice(oracle, runs);
      }
    } else {
      var oracle: Oracle :| !AllGuarded(oracle, runs);
      var i :| 0 <= i < |runs| && !Guarded(RunAll(oracle, FRESH, runs[..i]), runs[i]);
      var o := UnguardedRunsDeleteTwice(oracle, runs, i);
    }
  }

  // ---- claims and the store, whatever the contexts ----

  ghost predicate HasClaim(claimed: set<ClaimKey>, id: string) {
    exists c :: Claim(c, id) in claimed
  }

  ghost predicate ClaimedIffGone(claimed: set<ClaimKey>, ops: seq<Operation>) {
    forall id :: HasClaim(claimed, id) <==> Gone(ops, id)
  }

  ghost predicate AllGone(ids: set<string>, ops: seq<Operation>) {
    forall id :: id in ids ==> Gone(ops, id)
  }

  /** The invariant of the process over all contexts at once. */
  ghost predicate Orderly(w: World) {
    && ClaimedIffGone(w.claimed, w.operations)
    && NeverTwice(w.operations)
    && forall key :: key in w.runs ==> AllGone(w.runs[key], w.operations)
  }

  ghost predicate OrderlyProgress(p: Progress) {
    ClaimedIffGone(p.claimed, p.operations) && AllGone(p.completed, p.operations)
  }

  lemma OrderlyCompletion(p: Progress, key: ClaimKey, k: string)
    requires OrderlyProgress(p)
    ensures OrderlyProgress(Complete(p, key, k))
  {
    hide Gone;
    var q := Complete(p, key, k);
    forall x
      ensures Gone(q.operations, x) <==> x == key.id || Gone(p.operations, x)
      ensures HasClaim(q.claimed, x) <==> x == key.id || HasClaim(p.claimed, x)
    {
      GoneAppend(p.operations, Deleted(key.id), x);
      if HasClaim(q.claimed, x) {
        var c :| Claim(c, x) in q.claimed;
        assert Claim(c, x) == key || Claim(c, x) in p.claimed;
      }
      if HasClaim(p.claimed, x) {
        var c :| Claim(c, x) in p.claimed;
        assert Claim(c, x) in q.claimed;
      }
      if x == key.id { assert Claim(key.context, x) in q.claimed; }
    }
  }

  lemma OrderlyStep(oracle: Oracle, a: Arguments, expired: seq<Record>, i: nat, p: Progress)
    requires i < |expired| && !Stopped(p.status) && OrderlyProgress(p)
    ensures Step(oracle, a, expired, i, p).status != RolledBack ==> OrderlyProgress(Step(oracle, a, expired, i, p))
  {
    hide Attempt, MarkRest, Gone, Restores;
    var id, k := expired[i].id, expired[i].category;
    if Claim(a.context, id) in p.claimed { assert HasClaim(p.claimed, id); }
    if !a.dryRun && id !in p.completed && Claim(a.context, id) !in p.claimed {
      var t := Attempt(oracle, a.maxRetries, 0, p.calls);
      var q := p.(byCategory := p.byCategory + multiset{Mark(k, AsCandidate)}, calls := t.calls, retries := p.retries + t.retried);
      OrderlyCompletion(q, Claim(a.context, id), k);
    }
  }

  lemma {:induction false} OrderlyLoop(oracle: Oracle, w: World, a: Arguments, expired: seq<Record>, i: nat)
    requires i <= |expired| && Orderly(w)
    ensures Loop(oracle, w, a, expired, i).status != RolledBack ==> OrderlyProgress(Loop(oracle, w, a, expired, i))
  {
    hide Step, KeyOf, ClaimedIffGone;
    if i > 0 {
      var p := Loop(oracle, w, a, expired, i - 1);
      OrderlyLoop(oracle, w, a, expired, i - 1);
      if !Stopped(p.status) { OrderlyStep(oracle, a, expired, i - 1, p); }
    } else {
      NothingCompleted(w.operations);
    }
  }

  lemma NothingCompleted(ops: seq<Operation>)
    ensures AllGone({}, ops)
  {
  }

  lemma {:induction false} DeletesOnlyTakeAway(ops: seq<Operation>, d: seq<string>, ids: set<string>)
    requires AllGone(ids, ops)
    ensures AllGone(ids, ops + Deletes(d))
  {
    hide Deletes, Gone;
    forall id | id in ids ensures Gone(ops + Deletes(d), id) { DeletesTakeAway(ops, d, id); }
  }

  /** A guarded roll-back deletes nothing that was gone, so it leaves the store as it was. */
  lemma GuardedRollBackRestoresTheStore(oracle: Oracle, w: World, a: Arguments)
    requires NeverTwice(w.operations) && Guarded(w, a) && RunReport(oracle, w, a).status == RolledBack
    ensures forall id :: Gone(RunWorld(oracle, w, a).operations, id) <==> Gone(w.operations, id)
  {
    hide RunWorld, RunReport, Gone, NeverTwice, Deletes, Restores, Guarded;
    var d := RollBackRestoresTheStore(oracle, w, a);
    GuardedRunNeverTwice(oracle, w, a);
    NeverTwiceBefore(w.operations + Deletes(d), RunWorld(oracle, w, a).operations);
    forall x | x in d ensures !Gone(w.operations, x) {
      if Gone(w.operations, x) { DeletedWhileGone(w.operations, d, x); }
    }
  }

  /** Every guarded run, of whatever context and however it ends, keeps the order. */
  lemma GuardedRunKeepsOrder(oracle: Oracle, w: World, a: Arguments)
    requires Orderly(w) && Guarded(w, a)
    ensures Orderly(RunWorld(oracle, w, a))
  {
    hide Loop, Gone, NeverTwice, SelectExpired, KeyOf, Guarded, HasClaim, Deletes, Restores;
    var expired := SelectExpired(a.records, a.context);
    var n, key := |expired|, KeyOf(a, expired);
    var p, w' := Loop(oracle, w, a, expired, n), RunWorld(oracle, w, a);
    GuardedRunNeverTwice(oracle, w, a);
    RollBackHasNoFailures(oracle, w, a, expired, n);
    if p.status == RolledBack {
      GuardedRollBackRestoresTheStore(oracle, w, a);
      var d := RollBackUndoes(oracle, w, a);
    } else {
      OrderlyLoop(oracle, w, a, expired, n);
      var d := LoopJournal(oracle, w, a, expired, n);
      assert w.operations + Deletes(d) + [] == w.operations + Deletes(d);
      forall k | k in w.runs ensures AllGone(w.runs[k], w'.operations) {
        DeletesOnlyTakeAway(w.operations, d, w.runs[k]);
      }
    }
  }

  /** So over any guarded sequence of runs, of any contexts, a record is claimed by some
      run exactly when its last successful operation is a delete. */
  lemma {:induction false} GuardedRunsKeepOrder(oracle: Oracle, runs: seq<Arguments>)
    requires AllGuarded(oracle, runs)
    ensures Orderly(RunAll(oracle, FRESH, runs))
  {
    hide Guarded, RunWorld, AllGuarded, Orderly;
    if runs == [] {
      FreshIsOrderly();
    } else {
      AllGuardedInit(oracle, runs);
      GuardedRunsKeepOrder(oracle, runs[..|runs| - 1]);
      GuardedRunKeepsOrder(oracle, RunAll(oracle, FRESH, runs[..|runs| - 1]), runs[|runs| - 1]);
    }
  }

  lemma FreshIsOrderly()
    ensures Orderly(FRESH)
  {
  }

  // ---- reported deleted, and gone ----

  /** What the run will skip is gone already: a condition on the state before the run. */
  ghost predicate SkipsOnlyGone(w: World, a: Arguments) {
    forall r | r in SelectExpired(a.records, a.context) ::
      r.id in Entry(w, a) || Claim(a.context, r.id) in w.claimed ==> Gone(w.operations, r.id)
  }

  /** Every record that a run without a stop counts as deleted, passed or partly failed,
      is gone afterwards: exactly when those that it skipped were gone before. A stopped
      run that was not rolled back keeps one half of this. */
  lemma CountedMeansGoneExactly(oracle: Oracle, w: World, a: Arguments)
    requires !a.dryRun && RunReport(oracle, w, a).status != RolledBack
    ensures var claim := forall r :: r in SelectExpired(a.records, a.context) && r.id in Final(oracle, w, a).completed ==>
                           Gone(RunWorld(oracle, w, a).operations, r.id);
            (SkipsOnlyGone(w, a) ==> claim) && (!Stopped(Final(oracle, w, a).status) ==> (claim <==> SkipsOnlyGone(w, a)))
  {
    hide Loop, NeverTwice, Gone, SelectExpired, KeyOf, AllDeleted, Deletes, Restores;
    var expired := SelectExpired(a.records, a.context);
    var n, p := |expired|, Loop(oracle, w, a, expired, |expired|);
    RollBackHasNoFailures(oracle, w, a, expired, n);
    ProvenanceLoop(oracle, w, a, expired, n);
    var d := LoopJournal(oracle, w, a, expired, n);
    assert w.operations + Deletes(d) + [] == w.operations + Deletes(d);
    forall r | r in expired
      ensures Gone(RunWorld(oracle, w, a).operations, r.id) <==> Gone(w.operations, r.id) || r.id in d
      ensures r.id in d ==> r.id !in Entry(w, a) && Claim(a.context, r.id) !in w.claimed
      ensures !Stopped(p.status) && (r.id in Entry(w, a) || Claim(a.context, r.id) in w.claimed) ==> r.id in p.completed
    {
      DeletesTakeAway(w.operations, d, r.id);
      var j :| 0 <= j < n && expired[j] == r;
      if r.id in d { assert Claim(a.context, r.id) in ClaimsOf(a.context, d); }
      if !Stopped(p.status) { SkippedAreCompleted(oracle, w, a, expired, n, j); }
    }
  }

  lemma ClaimedIsCompleted(oracle: Oracle, a: Arguments, expired: seq<Record>, i: nat, p: Progress)
    requires i < |expired| && !a.dryRun && Claim(a.context, expired[i].id) in p.claimed
    ensures expired[i].id in Step(oracle, a, expired, i, p).completed
  {
    hide Attempt, Settle;
  }

  lemma {:induction false} SkippedAreCompleted(oracle: Oracle, w: World, a: Arguments, expired: seq<Record>, i: nat, j: nat)
    requires j < i <= |expired| && !a.dryRun && !Stopped(Loop(oracle, w, a, expired, i).status)
    ensures Claim(a.context, expired[j].id) in w.claimed ==> expired[j].id in Loop(oracle, w, a, expired, i).completed
    decreases i
  {
    hide Step, KeyOf;
    var p := Loop(oracle, w, a, expired, i - 1);
    if j < i - 1 {
      SkippedAreCompleted(oracle, w, a, expired, i - 1, j);
      CompletedGrows(oracle, a, expired, i - 1, p);
    } else if Claim(a.context, expired[j].id) in w.claimed {
      ClaimsGrow(oracle, w, a, expired, i - 1);
      ClaimedIsCompleted(oracle, a, expired, i - 1, p);
    }
  }

  /** A passed run reports every expired record deleted. They all are gone afterwards
      exactly when those it skipped were gone before. */
  lemma PassedMeansGoneExactly(oracle: Oracle, w: World, a: Arguments)
    requires !a.dryRun && RunReport(oracle, w, a).status == Passed
    ensures (forall r :: r in SelectExpired(a.records, a.context) ==> Gone(RunWorld(oracle, w, a).operations, r.id))
       <==> SkipsOnlyGone(w, a)
  {
    hide Loop, Gone, SelectExpired, KeyOf, AllDeleted, SkipsOnlyGone;
    var expired := SelectExpired(a.records, a.context);
    PassedRunIsSmooth(oracle, w, a, expired, |expired|);
    CountedMeansGoneExactly(oracle, w, a);
  }

  /** In particular, in a process that has been sound for the run's context. */
  lemma PassedMeansGone(oracle: Oracle, w: World, a: Arguments)
    requires Sound(a.context, w) && !a.dryRun && RunReport(oracle, w, a).status == Passed
    ensures forall r :: r in SelectExpired(a.records, a.context) ==> Gone(RunWorld(oracle, w, a).operations, r.id)
  {
    hide RunReport, RunWorld, Gone, NeverTwice, KeyOf;
    PassedMeansGoneExactly(oracle, w, a);
  }
}
