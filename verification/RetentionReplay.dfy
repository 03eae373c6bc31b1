/** Replaying a run, and the totals of its results. */
module RetentionReplay {
  import opened Wrappers
  import opened Retention
  import opened RetentionRun

  // ---- replay ----

  /** In a run that never failed or stopped, every record so far is completed and
      counted once as a candidate and once as deleted. */
  ghost function AllDeleted(expired: seq<Record>, i: nat): Tally
    requires i <= |expired|
  {
    if i == 0 then multiset{}
    else
      var c := expired[i - 1].category;
      AllDeleted(expired, i - 1) + multiset{Mark(c, AsCandidate)} + multiset{Mark(c, AsDeleted)}
  }

  ghost predicate Smooth(p: Progress, expired: seq<Record>, i: nat)
    requires i <= |expired|
  {
    && p.status == Passed && p.failures == [] && p.reason == None
    && p.byCategory == AllDeleted(expired, i)
    && p.totals == multiset{}[AsDeleted := i]
    && forall j :: 0 <= j < i ==> expired[j].id in p.completed
  }

  lemma MoreDeleted(t: multiset<Label>, i: nat)
    requires t == multiset{}[AsDeleted := i]
    ensures t + multiset{AsDeleted} == multiset{}[AsDeleted := i + 1]
  {
  }

  lemma CompletedGrows(oracle: Oracle, a: Arguments, expired: seq<Record>, i: nat, p: Progress)
    requires i < |expired| && Step(oracle, a, expired, i, p).status != RolledBack
    ensures p.completed <= Step(oracle, a, expired, i, p).completed
  {
    hide Attempt, MarkRest;
  }

  /** What one record adds in a run that neither fails nor stops. */
  lemma PassedStep(oracle: Oracle, a: Arguments, expired: seq<Record>, i: nat, p: Progress)
    requires i < |expired| && !a.dryRun && p.failures == []
    requires var q := Step(oracle, a, expired, i, p); q.status == Passed && q.failures == []
    ensures var q, c := Step(oracle, a, expired, i, p), expired[i].category;
            && q.byCategory == p.byCategory + multiset{Mark(c, AsCandidate)} + multiset{Mark(c, AsDeleted)}
            && q.totals == p.totals + multiset{AsDeleted}
            && expired[i].id in q.completed && q.reason == p.reason
  {
    hide Attempt, MarkRest, Restores;
  }

  lemma SmoothStep(oracle: Oracle, a: Arguments, expired: seq<Record>, i: nat, p: Progress)
    requires i < |expired| && !a.dryRun && Smooth(p, expired, i)
    requires var q := Step(oracle, a, expired, i, p); q.status == Passed && q.failures == []
    ensures Smooth(Step(oracle, a, expired, i, p), expired, i + 1)
  {
    hide Step;
    PassedStep(oracle, a, expired, i, p);
    MoreDeleted(p.totals, i);
    CompletedGrows(oracle, a, expired, i, p);
  }

  /** A run that ends without failure or stop went smoothly from the start. */
  lemma {:induction false} PassedRunIsSmooth(oracle: Oracle, w: World, a: Arguments, expired: seq<Record>, i: nat)
    requires i <= |expired| && !a.dryRun
    requires var p := Loop(oracle, w, a, expired, i); !Stopped(p.status) && p.failures == []
    ensures Smooth(Loop(oracle, w, a, expired, i), expired, i)
  {
    hide Step, Smooth;
    if i == 0 {
      SmoothStart(w, a, expired);
    } else {
      var p := Loop(oracle, w, a, expired, i - 1);
      FailuresGrow(oracle, a, expired, i - 1, p);
      PassedRunIsSmooth(oracle, w, a, expired, i - 1);
      RollBackHasNoFailures(oracle, w, a, expired, i);
      SmoothStep(oracle, a, expired, i - 1, p);
    }
  }

  lemma SmoothStart(w: World, a: Arguments, expired: seq<Record>)
    requires !a.dryRun
    ensures Smooth(Start(w, a, KeyOf(a, expired)), expired, 0)
  {
  }

  lemma FailuresGrow(oracle: Oracle, a: Arguments, expired: seq<Record>, i: nat, p: Progress)
    requires i < |expired|
    ensures |p.failures| <= |Step(oracle, a, expired, i, p).failures|
  {
    hide Attempt, MarkRest;
  }

  ghost predicate Untouched(w: World, completed: set<string>, p: Progress) {
    && p.completed == completed && p.claimed == w.claimed && p.retries == 0
    && p.operations == w.operations && p.calls == w.calls
  }

  lemma CompletedStep(oracle: Oracle, w: World, a: Arguments, expired: seq<Record>, i: nat, p: Progress)
    requires i < |expired| && !a.dryRun && p.status == Passed && p.failures == []
    requires expired[i].id in p.completed && Untouched(w, p.completed, p)
    ensures var q := Step(oracle, a, expired, i, p);
            q.status == Passed && q.failures == [] && Untouched(w, p.completed, q)
  {
    hide Attempt, Settle;
  }

  /** If everything is already completed, the loop only counts. */
  lemma {:induction false} ReplayOnlyCounts(oracle: Oracle, w: World, a: Arguments, expired: seq<Record>, i: nat)
    requires i <= |expired| && !a.dryRun
    requires var key := KeyOf(a, expired); key in w.runs && forall j :: 0 <= j < |expired| ==> expired[j].id in w.runs[key]
    ensures var p := Loop(oracle, w, a, expired, i);
            Smooth(p, expired, i) && Untouched(w, w.runs[KeyOf(a, expired)], p)
  {
    hide KeyOf, Step, AllDeleted;
    if i == 0 {
      SmoothStart(w, a, expired);
    } else {
      ReplayOnlyCounts(oracle, w, a, expired, i - 1);
      var p := Loop(oracle, w, a, expired, i - 1);
      CompletedStep(oracle, w, a, expired, i - 1, p);
      SmoothStep(oracle, a, expired, i - 1, p);
    }
  }

  lemma {:induction false} AllCompleted(expired: seq<Record>, i: nat, completed: set<string>)
    requires i <= |expired|
    requires forall j :: 0 <= j < i ==> expired[j].id in completed
    ensures CountCompleted(expired, i, completed) == i
  {
    if i > 0 { AllCompleted(expired, i - 1, completed); }
  }

  /** After a passed run, the same run under the same id does nothing and reports
      the same counts, whatever runs with other ids came between, and whatever the
      callback would do: it is never called. */
  lemma ReplayChangesNothing(oracle: Oracle, w: World, a: Arguments, oracle': Oracle, later: World)
    requires !a.dryRun && RunReport(oracle, w, a).status == Passed
    requires var key := KeyOf(a, SelectExpired(a.records, a.context));
             key in later.runs && later.runs[key] == RunWorld(oracle, w, a).runs[key]
    ensures RunWorld(oracle', later, a) == later
    ensures var r, r' := RunReport(oracle, w, a), RunReport(oracle', later, a);
            && r'.status == Passed && r'.byCategory == r.byCategory && r'.totals == r.totals
            && r'.candidateCount == r.candidateCount && r'.deletedCount == r.deletedCount == r.candidateCount
            && r'.failedCount == r.failedCount == 0 && r'.retryCount == 0
  {
    hide Loop, KeyOf, SelectExpired, AllDeleted, CountCompleted;
    var expired := SelectExpired(a.records, a.context);
    var key, n := KeyOf(a, expired), |expired|;
    PassedRunIsSmooth(oracle, w, a, expired, n);
    ReplayOnlyCounts(oracle', later, a, expired, n);
    AllCompleted(expired, n, Loop(oracle, w, a, expired, n).completed);
    AllCompleted(expired, n, later.runs[key]);
    assert later.runs[key := later.runs[key]] == later.runs;
  }

  /** A run under another key leaves this key's entry alone. */
  lemma OtherRunsKeepTheEntry(oracle: Oracle, w: World, a: Arguments, key: RunKey)
    requires key != KeyOf(a, SelectExpired(a.records, a.context))
    ensures var w' := RunWorld(oracle, w, a);
            (key in w'.runs <==> key in w.runs) && (key in w.runs ==> w'.runs[key] == w.runs[key])
  {
    hide Loop, KeyOf, SelectExpired;
  }

  // ---- totals and dry runs ----

  /** Every record handled so far is in the totals once, failures as failures. */
  ghost predicate TotalsCount(a: Arguments, p: Progress, n: nat) {
    && p.totals[AsDryRun] + p.totals[AsDeleted] + p.totals[AsFailed] == n
    && p.totals[AsDryRun] == (if a.dryRun then n else 0) && p.totals[AsFailed] == |p.failures|
    && p.totals[AsCandidate] == 0 && p.totals[AsNotProcessed] == 0
  }

  lemma TotalsStep(oracle: Oracle, a: Arguments, expired: seq<Record>, i: nat, p: Progress)
    requires i < |expired| && !Stopped(p.status) && TotalsCount(a, p, i)
    ensures var q := Step(oracle, a, expired, i, p); TotalsCount(a, q, if Stopped(q.status) then i else i + 1)
  {
    hide Attempt, MarkRest, Restores;
  }

  lemma {:induction false} TotalsLoop(oracle: Oracle, w: World, a: Arguments, expired: seq<Record>, i: nat)
    requires i <= |expired| && !Stopped(Loop(oracle, w, a, expired, i).status)
    ensures TotalsCount(a, Loop(oracle, w, a, expired, i), i)
  {
    hide Step;
    if i > 0 {
      TotalsLoop(oracle, w, a, expired, i - 1);
      TotalsStep(oracle, a, expired, i - 1, Loop(oracle, w, a, expired, i - 1));
    }
  }

  /** The totals of a run count every record handled before it stopped, and all of
      them if it did not: one each, as dry-run in a dry run and only there, and as failed exactly as often as
      failures are listed. */
  lemma TotalsAreConserved(oracle: Oracle, w: World, a: Arguments) returns (n: nat)
    ensures TotalsCount(a, Final(oracle, w, a), n)
    ensures var expired := SelectExpired(a.records, a.context);
            if Stopped(Final(oracle, w, a).status) then n < |expired| else n == |expired|
  {
    hide Step, TotalsCount;
    var expired := SelectExpired(a.records, a.context);
    n := |expired|;
    if Stopped(Final(oracle, w, a).status) {
      n := StoppedAt(oracle, w, a, expired, |expired|);
      TotalsLoop(oracle, w, a, expired, n);
      TotalsStep(oracle, a, expired, n, Loop(oracle, w, a, expired, n));
    } else {
      TotalsLoop(oracle, w, a, expired, n);
    }
  }

  lemma {:induction false} DryRunLoop(oracle: Oracle, w: World, a: Arguments, expired: seq<Record>, i: nat)
    requires i <= |expired| && a.dryRun
    ensures var p, start := Loop(oracle, w, a, expired, i), Start(w, a, KeyOf(a, expired));
            && p.status == DryRun && p.failures == [] && p.totals == multiset{}[AsDryRun := i]
            && Untouched(w, start.completed, p)
  {
    hide KeyOf, Step;
    if i > 0 {
      DryRunLoop(oracle, w, a, expired, i - 1);
      DryRunStep(oracle, a, expired, i - 1, Loop(oracle, w, a, expired, i - 1));
    }
  }

  lemma DryRunStep(oracle: Oracle, a: Arguments, expired: seq<Record>, i: nat, p: Progress)
    requires i < |expired| && a.dryRun && p.totals == multiset{}[AsDryRun := i]
    ensures var q := Step(oracle, a, expired, i, p);
            && q.totals == multiset{}[AsDryRun := i + 1]
            && q == p.(byCategory := q.byCategory, totals := q.totals)
  {
    hide Attempt, Settle;
  }

  /** A dry run calls nothing, deletes nothing, claims nothing and completes nothing;
      it counts every expired record. */
  lemma DryRunTouchesNothing(oracle: Oracle, w: World, a: Arguments)
    requires a.dryRun
    ensures var w', r, key := RunWorld(oracle, w, a), RunReport(oracle, w, a), KeyOf(a, SelectExpired(a.records, a.context));
            && w' == w.(runs := w.runs[key := if key in w.runs then w.runs[key] else {}])
            && r.status == DryRun && r.deletedCount == 0 && r.retryCount == 0
            && r.totals == multiset{}[AsDryRun := r.candidateCount]
  {
    hide Loop, KeyOf, SelectExpired;
    var expired := SelectExpired(a.records, a.context);
    DryRunLoop(oracle, w, a, expired, |expired|);
  }
}
