/** Runs that stop early, over all that the callback may do: exactly when a roll-back
    leaves the store alone, and exactly when an interruption is reported as one. */
module RetentionStops {
  import opened Retention
  import opened RetentionRun
  import opened RetentionChain
  import opened RetentionReplay
  import opened RetentionGuard
  import opened RetentionCounts

  // ---- roll-back ----

  ghost predicate SameStore(w: World, w': World) {
    forall id :: Gone(w'.operations, id) <==> Gone(w.operations, id)
  }

  ghost predicate RollBackIsClean(oracle: Oracle, w: World, a: Arguments) {
    RunReport(oracle, w, a).status == RolledBack ==> SameStore(w, RunWorld(oracle, w, a))
  }

  /** The record at `j` is one that the run tries to delete, its id not having come up before. */
  ghost predicate FirstTried(w: World, a: Arguments, expired: seq<Record>, j: nat)
    requires j < |expired|
  {
    FreshId(w, a, expired[j].id) && forall k :: 0 <= k < j ==> expired[k].id != expired[j].id
  }

  /** The run can delete a record that is gone already and fail at a later one. All of
      it can be read off the state before the run. */
  ghost predicate CanRevive(w: World, a: Arguments) {
    var expired := SelectExpired(a.records, a.context);
    && !a.dryRun && a.maxRetries == 0
    && exists i, j :: 0 <= i < j < |expired| && FreshId(w, a, expired[i].id) && Gone(w.operations, expired[i].id)
                      && FirstTried(w, a, expired, j)
  }

  /** The record at which a run rolls back is tried there for the first time, and the
      ids deleted until then were fresh ids of earlier records. */
  lemma RolledBackAt(oracle: Oracle, w: World, a: Arguments, expired: seq<Record>) returns (r: nat)
    requires expired == SelectExpired(a.records, a.context) && Final(oracle, w, a).status == RolledBack
    ensures r < |expired| && FirstTried(w, a, expired, r)
    ensures var d := Loop(oracle, w, a, expired, r).deleted;
            && RunWorld(oracle, w, a).operations == w.operations + Deletes(d) + Restores(d)
            && forall x :: x in d ==> exists i :: 0 <= i < r && expired[i].id == x && FreshId(w, a, x)
  {
    hide Loop, SelectExpired, KeyOf, Deletes, Restores, Step, AllDeleted;
    r := StoppedAt(oracle, w, a, expired, |expired|);
    var p := Loop(oracle, w, a, expired, r);
    RollBackHasNoFailures(oracle, w, a, expired, |expired|);
    RollBackHasNoFailures(oracle, w, a, expired, r);
    RollBackStep(oracle, a, expired, r, p);
    StopIsTried(oracle, a, expired, r, p);
    PassedRunIsSmooth(oracle, w, a, expired, r);
    ProvenanceLoop(oracle, w, a, expired, r);
    var d := LoopJournal(oracle, w, a, expired, r);
    DeletedAreReached(oracle, w, a, expired, r);
    assert w.operations + Deletes(d) + [] == w.operations + Deletes(d);
    forall x | x in d ensures exists i :: 0 <= i < r && expired[i].id == x && FreshId(w, a, x) {
      assert Claim(a.context, x) in ClaimsOf(a.context, d);
      var i :| 0 <= i < r && expired[i].id == x;
      assert FreshId(w, a, x);
    }
  }

  lemma StopIsTried(oracle: Oracle, a: Arguments, expired: seq<Record>, i: nat, p: Progress)
    requires i < |expired| && !Stopped(p.status) && Stopped(Step(oracle, a, expired, i, p).status)
    ensures !a.dryRun && expired[i].id !in p.completed && Claim(a.context, expired[i].id) !in p.claimed
  {
    hide Attempt, Settle;
  }

  lemma RollBackIsCleanUnless(oracle: Oracle, w: World, a: Arguments)
    requires !CanRevive(w, a)
    ensures RollBackIsClean(oracle, w, a)
  {
    hide RunWorld, Gone, Deletes, Restores, FreshId, FirstTried, SelectExpired, Loop;
    var expired := SelectExpired(a.records, a.context);
    if RunReport(oracle, w, a).status == RolledBack {
      RollBackHasNoFailures(oracle, w, a, expired, |expired|);
      var r := RolledBackAt(oracle, w, a, expired);
      var d := Loop(oracle, w, a, expired, r).deleted;
      forall id ensures Gone(RunWorld(oracle, w, a).operations, id) <==> Gone(w.operations, id) {
        DeletesTakeAway(w.operations, d, id);
        RestoresBringBack(w.operations + Deletes(d), d, id);
      }
    }
  }

  /** All goes well up to record `j`, which then fails. */
  lemma FailsAt(w: World, a: Arguments, expired: seq<Record>, j: nat) returns (oracle: Oracle)
    requires expired == SelectExpired(a.records, a.context) && j < |expired| && FirstTried(w, a, expired, j)
    requires !a.dryRun && a.maxRetries == 0
    ensures Final(oracle, w, a).status == RolledBack && RunReport(oracle, w, a).status == RolledBack
    ensures var p := Loop(oracle, w, a, expired, j);
            && RunWorld(oracle, w, a).operations == p.operations + Restores(p.deleted)
            && p.status == Passed && p.failures == []
  {
    hide Loop, SelectExpired, KeyOf, Step, Restores, Attempt;
    var n, done: Oracle := |expired|, _ => Done;
    var p := Loop(done, w, a, expired, j);
    DoneLoop(done, w, a, expired, j);
    FreshUntilReached(done, w, a, expired, j);
    oracle := FailingAt(p.calls, 1);
    LoopLocal(done, oracle, w, a, expired, j, p.calls);
    AttemptFails(oracle, a, 0, p.calls);
    RollingBackTurn(oracle, a, expired, j, p);
    OneTurn(oracle, w, a, expired, j);
    StoppedLoopStays(oracle, w, a, expired, j + 1, n);
    RollBackHasNoFailures(oracle, w, a, expired, n);
  }

  lemma OneTurn(oracle: Oracle, w: World, a: Arguments, expired: seq<Record>, i: nat)
    requires i < |expired| && !Stopped(Loop(oracle, w, a, expired, i).status)
    ensures Loop(oracle, w, a, expired, i + 1) == Step(oracle, a, expired, i, Loop(oracle, w, a, expired, i))
  {
    hide Step;
  }

  lemma RollingBackTurn(oracle: Oracle, a: Arguments, expired: seq<Record>, i: nat, p: Progress)
    requires i < |expired| && !a.dryRun && a.maxRetries == 0 && p.failures == []
    requires expired[i].id !in p.completed && Claim(a.context, expired[i].id) !in p.claimed
    requires Attempt(oracle, a.maxRetries, 0, p.calls).outcome.Failed?
    ensures var q := Step(oracle, a, expired, i, p);
            && q.status == RolledBack && q.failures == []
            && q.operations == p.operations + Restores(p.deleted) && q.claimed == p.claimed - p.claimedHere
  {
    hide Attempt, Restores;
  }

  lemma RollBackRevives(w: World, a: Arguments) returns (oracle: Oracle)
    requires CanRevive(w, a)
    ensures !RollBackIsClean(oracle, w, a)
  {
    hide Loop, SelectExpired, KeyOf, Restores, Deletes, Gone, AllDeleted, RunReport, RunWorld;
    var expired := SelectExpired(a.records, a.context);
    var i, j :| 0 <= i < j < |expired| && FreshId(w, a, expired[i].id) && Gone(w.operations, expired[i].id)
                && FirstTried(w, a, expired, j);
    oracle := FailsAt(w, a, expired, j);
    var p := Loop(oracle, w, a, expired, j);
    PassedRunIsSmooth(oracle, w, a, expired, j);
    ProvenanceLoop(oracle, w, a, expired, j);
    RestoresBringBack(p.operations, p.deleted, expired[i].id);
  }

  /** Whatever the callback does, a roll-back leaves every record gone or present as it
      was: exactly when the run cannot delete a gone record and then fail at a new one. */
  lemma RollBackIsCleanExactly(w: World, a: Arguments)
    ensures (forall oracle: Oracle :: RollBackIsClean(oracle, w, a)) <==> !CanRevive(w, a)
  {
    hide RollBackIsClean, CanRevive;
    if CanRevive(w, a) {
      var oracle := RollBackRevives(w, a);
    } else {
      forall oracle: Oracle ensures RollBackIsClean(oracle, w, a) { RollBackIsCleanUnless(oracle, w, a); }
    }
  }

  // ---- interruption ----

  ghost predicate InterruptionIsReported(oracle: Oracle, w: World, a: Arguments) {
    Final(oracle, w, a).status == Incomplete ==> RunReport(oracle, w, a).status == Incomplete
  }

  /** An interrupted run is to be repeated from scratch, so it leaves no entry. */
  ghost predicate InterruptionDropsTheEntry(oracle: Oracle, w: World, a: Arguments) {
    Final(oracle, w, a).status == Incomplete ==> KeyOf(a, SelectExpired(a.records, a.context)) !in RunWorld(oracle, w, a).runs
  }

  /** A record may fail for good and a later one still be tried. All of it can be read
      off the state before the run. */
  ghost predicate CanMask(w: World, a: Arguments) {
    var expired := SelectExpired(a.records, a.context);
    && !a.dryRun && a.maxRetries != 0
    && exists i, j :: 0 <= i < j < |expired| && FreshId(w, a, expired[i].id) && FreshId(w, a, expired[j].id)
  }

  lemma FailureIsTried(oracle: Oracle, a: Arguments, expired: seq<Record>, i: nat, p: Progress)
    requires i < |expired| && !Stopped(p.status) && Step(oracle, a, expired, i, p).failures != p.failures
    ensures !a.dryRun && expired[i].id !in p.completed && Claim(a.context, expired[i].id) !in p.claimed
  {
    hide Attempt, MarkRest, Restores;
  }

  lemma TriedIsFresh(oracle: Oracle, w: World, a: Arguments, expired: seq<Record>, i: nat)
    requires expired == SelectExpired(a.records, a.context) && i < |expired|
    requires var p := Loop(oracle, w, a, expired, i);
             !Stopped(p.status) && expired[i].id !in p.completed && Claim(a.context, expired[i].id) !in p.claimed
    ensures FreshId(w, a, expired[i].id)
  {
    hide Loop, SelectExpired, KeyOf, Deletes, Restores;
    ProvenanceLoop(oracle, w, a, expired, i);
    var d := LoopJournal(oracle, w, a, expired, i);
  }

  /** A recorded failure is that of a fresh id. */
  lemma {:induction false} FailedWasFresh(oracle: Oracle, w: World, a: Arguments, expired: seq<Record>, i: nat) returns (k: nat)
    requires expired == SelectExpired(a.records, a.context) && i <= |expired|
    requires Loop(oracle, w, a, expired, i).failures != []
    ensures k < i && FreshId(w, a, expired[k].id)
  {
    hide Step, SelectExpired, KeyOf, FreshId;
    var p := Loop(oracle, w, a, expired, i - 1);
    if p.failures != [] {
      k := FailedWasFresh(oracle, w, a, expired, i - 1);
    } else {
      FailureIsTried(oracle, a, expired, i - 1, p);
      TriedIsFresh(oracle, w, a, expired, i - 1);
      k := i - 1;
    }
  }

  lemma InterruptionAddsNoFailure(oracle: Oracle, a: Arguments, expired: seq<Record>, i: nat, p: Progress)
    requires i < |expired| && !Stopped(p.status) && Step(oracle, a, expired, i, p).status == Incomplete
    ensures Step(oracle, a, expired, i, p).failures == p.failures
  {
    hide Attempt, MarkRest, Restores;
  }

  lemma ReportedUnlessMasked(oracle: Oracle, w: World, a: Arguments)
    requires !CanMask(w, a)
    ensures InterruptionIsReported(oracle, w, a) && InterruptionDropsTheEntry(oracle, w, a)
  {
    hide Loop, SelectExpired, KeyOf, Step, FreshId;
    var expired := SelectExpired(a.records, a.context);
    var p := Final(oracle, w, a);
    RollBackHasNoFailures(oracle, w, a, expired, |expired|);
    if p.status == Incomplete && p.failures != [] {
      var j := StoppedAt(oracle, w, a, expired, |expired|);
      var q := Loop(oracle, w, a, expired, j);
      StopIsTried(oracle, a, expired, j, q);
      TriedIsFresh(oracle, w, a, expired, j);
      InterruptionAddsNoFailure(oracle, a, expired, j, q);
      var i := FailedWasFresh(oracle, w, a, expired, j);
    }
  }

  /** Nothing new is deleted or claimed yet, so exactly the fresh ids are still tried. */
  ghost predicate Idle(w: World, a: Arguments, p: Progress) {
    && p.status == Passed && p.claimed == w.claimed && Entry(w, a) <= p.completed
    && forall x :: x in p.completed ==> !FreshId(w, a, x)
  }

  lemma SkippingTurn(oracle: Oracle, w: World, a: Arguments, expired: seq<Record>, i: nat, p: Progress)
    requires i < |expired| && !a.dryRun && Idle(w, a, p) && !FreshId(w, a, expired[i].id)
    ensures var q := Step(oracle, a, expired, i, p); Idle(w, a, q) && q.calls == p.calls && q.failures == p.failures
  {
    hide Attempt, Settle, Entry;
  }

  lemma {:induction false} SkippingLoop(oracle: Oracle, w: World, a: Arguments, expired: seq<Record>, i: nat, j: nat)
    requires i <= j <= |expired| && !a.dryRun && Idle(w, a, Loop(oracle, w, a, expired, i))
    requires forall k :: i <= k < j ==> !FreshId(w, a, expired[k].id)
    ensures var p, q := Loop(oracle, w, a, expired, i), Loop(oracle, w, a, expired, j);
            Idle(w, a, q) && q.calls == p.calls && q.failures == p.failures
    decreases j
  {
    hide Step, FreshId, Idle;
    if i < j {
      SkippingLoop(oracle, w, a, expired, i, j - 1);
      IdleIsPassed(w, a, Loop(oracle, w, a, expired, j - 1));
      SkippingTurn(oracle, w, a, expired, j - 1, Loop(oracle, w, a, expired, j - 1));
    }
  }

  lemma IdleIsPassed(w: World, a: Arguments, p: Progress)
    requires Idle(w, a, p)
    ensures p.status == Passed
  {
  }

  /** The first fresh id from `i` on, where there is one at `j`. */
  lemma FirstFresh(w: World, a: Arguments, expired: seq<Record>, i: nat, j: nat) returns (k: nat)
    requires i <= j < |expired| && FreshId(w, a, expired[j].id)
    ensures i <= k <= j && FreshId(w, a, expired[k].id) && forall m :: i <= m < k ==> !FreshId(w, a, expired[m].id)
  {
    hide FreshId;
    k := i;
    while !FreshId(w, a, expired[k].id)
      invariant i <= k <= j && forall m :: i <= m < k ==> !FreshId(w, a, expired[m].id)
      decreases j - k
    {
      k := k + 1;
    }
  }

  ghost function FailingThenInterrupted(k: nat, m: nat): Oracle {
    (n: nat) => if k <= n < k + m then Failed("") else Interrupted("")
  }

  lemma InterruptedTurn(oracle: Oracle, a: Arguments, expired: seq<Record>, i: nat, p: Progress)
    requires i < |expired| && !a.dryRun && oracle(p.calls).Interrupted?
    requires expired[i].id !in p.completed && Claim(a.context, expired[i].id) !in p.claimed
    ensures var q := Step(oracle, a, expired, i, p); q.status == Incomplete && q.failures == p.failures
  {
    hide MarkRest;
  }

  lemma IdleAfterFailure(oracle: Oracle, w: World, a: Arguments, expired: seq<Record>, i: nat, p: Progress)
    requires i < |expired| && !a.dryRun && a.maxRetries != 0 && Idle(w, a, p) && FreshId(w, a, expired[i].id)
    requires Attempt(oracle, a.maxRetries, 0, p.calls).outcome.Failed?
    ensures var q := Step(oracle, a, expired, i, p);
            Idle(w, a, q) && q.failures != [] && q.calls == Attempt(oracle, a.maxRetries, 0, p.calls).calls
  {
    hide Attempt, Entry;
  }

  /** The first record that is tried fails at every attempt, and the next one is
      interrupted: the run reads as a partial failure and keeps its entry. */
  lemma InterruptionIsMasked(w: World, a: Arguments) returns (oracle: Oracle)
    requires CanMask(w, a)
    ensures Final(oracle, w, a).status == Incomplete && RunReport(oracle, w, a).status == PartialFailure
    ensures KeyOf(a, SelectExpired(a.records, a.context)) in RunWorld(oracle, w, a).runs
  {
    hide Loop, SelectExpired, KeyOf, Step, FreshId, Idle, Attempt, MostCalls;
    var expired := SelectExpired(a.records, a.context);
    var n := |expired|;
    var i', j' :| 0 <= i' < j' < n && FreshId(w, a, expired[i'].id) && FreshId(w, a, expired[j'].id);
    var i := FirstFresh(w, a, expired, 0, i');
    var j := FirstFresh(w, a, expired, i + 1, j');
    oracle := FailingThenInterrupted(w.calls, MostCalls(a));
    IdleAtTheStart(oracle, w, a, expired);
    SkippingLoop(oracle, w, a, expired, 0, i);
    var p := Loop(oracle, w, a, expired, i);
    AttemptFails(oracle, a, 0, p.calls);
    IdleAfterFailure(oracle, w, a, expired, i, p);
    IdleIsPassed(w, a, p);
    OneTurn(oracle, w, a, expired, i);
    SkippingLoop(oracle, w, a, expired, i + 1, j);
    var q := Loop(oracle, w, a, expired, j);
    IdleIsTried(w, a, q, expired[j].id);
    InterruptedTurn(oracle, a, expired, j, q);
    OneTurn(oracle, w, a, expired, j);
    StoppedLoopStays(oracle, w, a, expired, j + 1, n);
  }

  lemma IdleIsTried(w: World, a: Arguments, p: Progress, id: string)
    requires Idle(w, a, p) && FreshId(w, a, id)
    ensures p.status == Passed && id !in p.completed && Claim(a.context, id) !in p.claimed
  {
  }

  lemma IdleAtTheStart(oracle: Oracle, w: World, a: Arguments, expired: seq<Record>)
    requires expired == SelectExpired(a.records, a.context) && !a.dryRun
    ensures var p := Loop(oracle, w, a, expired, 0); Idle(w, a, p) && p.calls == w.calls && p.failures == []
  {
    hide SelectExpired, KeyOf;
  }

  /** Whatever the callback does, an interrupted run is reported as incomplete and leaves
      no entry: exactly when a failure before the interruption cannot be recorded. */
  lemma InterruptionIsReportedExactly(w: World, a: Arguments)
    ensures (forall oracle: Oracle :: InterruptionIsReported(oracle, w, a)) <==> !CanMask(w, a)
    ensures (forall oracle: Oracle :: InterruptionDropsTheEntry(oracle, w, a)) <==> !CanMask(w, a)
  {
    hide CanMask, Final, RunReport, RunWorld;
    if CanMask(w, a) {
      var oracle := InterruptionIsMasked(w, a);
      assert !InterruptionIsReported(oracle, w, a) && !InterruptionDropsTheEntry(oracle, w, a);
    } else {
      forall oracle: Oracle ensures InterruptionIsReported(oracle, w, a) && InterruptionDropsTheEntry(oracle, w, a) {
        ReportedUnlessMasked(oracle, w, a);
      }
    }
  }
}
