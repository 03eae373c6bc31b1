/** What holds of every single retention run: counting, statuses, calls, roll-back. */
module RetentionRun {
  import opened Retention

  // ---- counts are conserved ----

  /** How many of the first `n` records are in category `c`. */
  function InCategory(records: seq<Record>, n: nat, c: string): nat
    requires n <= |records|
  {
    if n == 0 then 0
    else InCategory(records, n - 1, c) + (if records[n - 1].category == c then 1 else 0)
  }

  /** Every candidate of category `c` has one disposition, except `missing` of them. */
  ghost predicate Balanced(m: Tally, c: string, candidates: nat, missing: nat) {
    && m[Mark(c, AsCandidate)] == candidates
    && candidates == m[Mark(c, AsDryRun)] + m[Mark(c, AsDeleted)] + m[Mark(c, AsFailed)]
                     + m[Mark(c, AsNotProcessed)] + missing
  }

  /** Marking the rest makes a candidate of every record and leaves none without a disposition. */
  lemma {:induction false} MarkRestBalances(m: Tally, expired: seq<Record>, i: nat, j: nat, c: string)
    requires i < j <= |expired|
    requires Balanced(m, c, InCategory(expired, i + 1, c), if expired[i].category == c then 1 else 0)
    ensures Balanced(MarkRest(m, expired, i, j), c, InCategory(expired, j, c), 0)
    decreases j
  {
    hide Balanced, MarkLeft;
    var k := expired[j - 1].category;
    if j == i + 1 {
      assert MarkRest(m, expired, i, j) == MarkLeft(MarkRest(m, expired, i, i), k, true);
      InterruptedBalances(m, k, c, InCategory(expired, j, c));
    } else {
      MarkRestBalances(m, expired, i, j - 1, c);
      LeftBalances(MarkRest(m, expired, i, j - 1), k, c, InCategory(expired, j - 1, c));
    }
  }

  lemma InterruptedBalances(m: Tally, k: string, c: string, n: nat)
    requires Balanced(m, c, n, if k == c then 1 else 0)
    ensures Balanced(MarkLeft(m, k, true), c, n, 0)
  {
  }

  lemma LeftBalances(m: Tally, k: string, c: string, n: nat)
    requires Balanced(m, c, n, 0)
    ensures Balanced(MarkLeft(m, k, false), c, n + (if k == c then 1 else 0), 0)
  {
  }

  /** The turn at which a stopped loop stopped. */
  lemma {:induction false} StoppedAt(oracle: Oracle, w: World, a: Arguments, expired: seq<Record>, i: nat) returns (r: nat)
    requires i <= |expired|
    requires Stopped(Loop(oracle, w, a, expired, i).status)
    ensures r < i && !Stopped(Loop(oracle, w, a, expired, r).status)
    ensures Loop(oracle, w, a, expired, i) == Step(oracle, a, expired, r, Loop(oracle, w, a, expired, r))
  {
    hide Step;
    if Stopped(Loop(oracle, w, a, expired, i - 1).status) {
      r := StoppedAt(oracle, w, a, expired, i - 1);
    } else {
      r := i - 1;
    }
  }

  lemma {:induction false} StoppedLoopStays(oracle: Oracle, w: World, a: Arguments, expired: seq<Record>, i: nat, j: nat)
    requires i <= j <= |expired|
    requires Stopped(Loop(oracle, w, a, expired, i).status) || i == j
    ensures Loop(oracle, w, a, expired, j) == Loop(oracle, w, a, expired, i)
    decreases j
  {
    hide Step;
    if i < j { StoppedLoopStays(oracle, w, a, expired, i, j - 1); }
  }

  lemma CountBalances(p: Progress, k: string, tag: Label, c: string, n: nat)
    requires tag != AsCandidate
    requires Balanced(p.byCategory, c, n, if k == c then 1 else 0)
    ensures Balanced(Count(p, k, tag).byCategory, c, n, 0)
  {
  }

  lemma CandidateBalances(expired: seq<Record>, i: nat, m: Tally, c: string)
    requires i < |expired|
    requires Balanced(m, c, InCategory(expired, i, c), 0)
    ensures Balanced(m + multiset{Mark(expired[i].category, AsCandidate)}, c, InCategory(expired, i + 1, c),
                     if expired[i].category == c then 1 else 0)
  {
  }

  ghost predicate BalancedAfter(q: Progress, expired: seq<Record>, i: nat, c: string)
    requires i < |expired|
  {
    match q.status
    case RolledBack => Balanced(q.byCategory, c, InCategory(expired, i + 1, c), if expired[i].category == c then 1 else 0)
    case Incomplete => Balanced(q.byCategory, c, InCategory(expired, |expired|, c), 0)
    case _ => Balanced(q.byCategory, c, InCategory(expired, i + 1, c), 0)
  }

  lemma SettleBalances(a: Arguments, expired: seq<Record>, i: nat, p: Progress, outcome: Outcome, c: string)
    requires i < |expired| && !Stopped(p.status)
    requires Balanced(p.byCategory, c, InCategory(expired, i + 1, c), if expired[i].category == c then 1 else 0)
    ensures BalancedAfter(Settle(a, expired, i, p, outcome), expired, i, c)
  {
    hide Balanced, MarkRest, InCategory;
    var k, n := expired[i].category, InCategory(expired, i + 1, c);
    match outcome
    case Done =>
      var key := Claim(a.context, expired[i].id);
      var q := p.(completed := p.completed + {key.id}, claimed := p.claimed + {key},
                  claimedHere := p.claimedHere + {key}, deleted := p.deleted + [key.id],
                  operations := p.operations + [Deleted(key.id)]);
      CountBalances(q, k, AsDeleted, c, n);
    case Failed(reason) =>
      CountBalances(p.(failures := p.failures + [Failure(k, reason)]), k, AsFailed, c, n);
    case Interrupted(reason) =>
      MarkRestBalances(p.byCategory, expired, i, |expired|, c);
  }

  lemma StepBalances(oracle: Oracle, a: Arguments, expired: seq<Record>, i: nat, p: Progress, c: string)
    requires i < |expired| && !Stopped(p.status)
    requires Balanced(p.byCategory, c, InCategory(expired, i, c), 0)
    ensures BalancedAfter(Step(oracle, a, expired, i, p), expired, i, c)
  {
    hide Attempt, Settle, Balanced, InCategory;
    var id, k, n := expired[i].id, expired[i].category, InCategory(expired, i + 1, c);
    var q := p.(byCategory := p.byCategory + multiset{Mark(k, AsCandidate)});
    CandidateBalances(expired, i, p.byCategory, c);
    CountBalances(q, k, AsDryRun, c, n);
    CountBalances(q, k, AsDeleted, c, n);
    CountBalances(q.(completed := q.completed + {id}), k, AsDeleted, c, n);
    var t := Attempt(oracle, a.maxRetries, 0, q.calls);
    SettleBalances(a, expired, i, q.(calls := t.calls, retries := q.retries + t.retried), t.outcome, c);
  }

  lemma {:induction false} LoopBalances(oracle: Oracle, w: World, a: Arguments, expired: seq<Record>, i: nat, c: string)
    requires i <= |expired|
    requires !Stopped(Loop(oracle, w, a, expired, i).status)
    ensures Balanced(Loop(oracle, w, a, expired, i).byCategory, c, InCategory(expired, i, c), 0)
  {
    hide Step;
    if i > 0 {
      LoopBalances(oracle, w, a, expired, i - 1, c);
      StepBalances(oracle, a, expired, i - 1, Loop(oracle, w, a, expired, i - 1), c);
    }
  }

  /** In every run that is not rolled back, interrupted or not, each category has
      as many candidates as expired records, and each candidate has exactly one
      of the dispositions dry-run, deleted, failed and not-processed. */
  lemma CountsAreConserved(oracle: Oracle, w: World, a: Arguments, c: string)
    requires RunReport(oracle, w, a).status != RolledBack
    ensures var expired := SelectExpired(a.records, a.context);
            Balanced(RunReport(oracle, w, a).byCategory, c, InCategory(expired, |expired|, c), 0)
  {
    hide Step;
    var expired := SelectExpired(a.records, a.context);
    var p := Loop(oracle, w, a, expired, |expired|);
    if Stopped(p.status) {
      var r := StoppedAt(oracle, w, a, expired, |expired|);
      LoopBalances(oracle, w, a, expired, r, c);
      StepBalances(oracle, a, expired, r, Loop(oracle, w, a, expired, r), c);
      if p.status == RolledBack {
        RollBackHasNoFailures(oracle, w, a, expired, |expired|);
      }
    } else {
      LoopBalances(oracle, w, a, expired, |expired|, c);
    }
  }

  ghost predicate OneMore(m: Tally, expired: seq<Record>, r: nat, c: string)
    requires r < |expired|
  {
    && m[Mark(c, AsCandidate)] == InCategory(expired, r + 1, c)
    && m[Mark(c, AsCandidate)] == m[Mark(c, AsDeleted)] + (if expired[r].category == c then 1 else 0)
  }

  /** A rolled-back run stops at one record: the records before it are all counted
      as deleted, and that record is the one candidate without a disposition. */
  lemma RolledBackCountsOneMore(oracle: Oracle, w: World, a: Arguments) returns (r: nat)
    requires RunReport(oracle, w, a).status == RolledBack
    ensures var expired := SelectExpired(a.records, a.context);
            && r < |expired|
            && forall c :: OneMore(RunReport(oracle, w, a).byCategory, expired, r, c)
  {
    hide Step;
    var expired := SelectExpired(a.records, a.context);
    r := StoppedAt(oracle, w, a, expired, |expired|);
    var before := Loop(oracle, w, a, expired, r);
    RollBackHasNoFailures(oracle, w, a, expired, |expired|);
    forall c
      ensures OneMore(RunReport(oracle, w, a).byCategory, expired, r, c)
    {
      LoopBalances(oracle, w, a, expired, r, c);
      StepBalances(oracle, a, expired, r, before, c);
      OnlyDeletedBeforeRollBack(oracle, w, a, expired, r, c);
      RollBackKeepsCounts(oracle, a, expired, r, before);
    }
  }

  lemma RollBackKeepsCounts(oracle: Oracle, a: Arguments, expired: seq<Record>, i: nat, p: Progress)
    requires i < |expired| && !Stopped(p.status)
    requires Step(oracle, a, expired, i, p).status == RolledBack
    ensures Step(oracle, a, expired, i, p).byCategory == p.byCategory + multiset{Mark(expired[i].category, AsCandidate)}
    ensures a.maxRetries == 0 && !a.dryRun
  {
    hide MarkRest;
  }

  ghost predicate OnlyDeleted(m: Tally, c: string) {
    m[Mark(c, AsDryRun)] == 0 && m[Mark(c, AsFailed)] == 0 && m[Mark(c, AsNotProcessed)] == 0
  }

  lemma {:induction false} OnlyDeletedBeforeRollBack(oracle: Oracle, w: World, a: Arguments, expired: seq<Record>, i: nat, c: string)
    requires i <= |expired| && a.maxRetries == 0 && !a.dryRun
    requires !Stopped(Loop(oracle, w, a, expired, i).status)
    ensures OnlyDeleted(Loop(oracle, w, a, expired, i).byCategory, c)
  {
    hide Step, OnlyDeleted;
    if i > 0 {
      OnlyDeletedBeforeRollBack(oracle, w, a, expired, i - 1, c);
      OnlyDeletedStep(oracle, a, expired, i - 1, Loop(oracle, w, a, expired, i - 1), c);
    } else {
      NothingCounted(c);
    }
  }

  lemma NothingCounted(c: string)
    ensures OnlyDeleted(multiset{}, c)
  {
  }

  lemma OnlyDeletedStep(oracle: Oracle, a: Arguments, expired: seq<Record>, i: nat, p: Progress, c: string)
    requires i < |expired| && a.maxRetries == 0 && !a.dryRun && !Stopped(p.status)
    requires OnlyDeleted(p.byCategory, c)
    requires !Stopped(Step(oracle, a, expired, i, p).status)
    ensures OnlyDeleted(Step(oracle, a, expired, i, p).byCategory, c)
  {
    hide MarkRest;
  }

  // ---- what one step can do to the rest of the state ----

  lemma StepStatus(oracle: Oracle, a: Arguments, expired: seq<Record>, i: nat, p: Progress)
    requires i < |expired| && !Stopped(p.status)
    ensures var q := Step(oracle, a, expired, i, p);
            && (q.failures != p.failures ==> a.maxRetries != 0)
            && (q.status == RolledBack ==> a.maxRetries == 0 && !a.dryRun)
            && (!Stopped(q.status) ==> q.status == p.status)
  {
    hide Attempt, MarkRest, Restores;
  }

  lemma {:induction false} RollBackHasNoFailures(oracle: Oracle, w: World, a: Arguments, expired: seq<Record>, i: nat)
    requires i <= |expired|
    ensures a.maxRetries == 0 ==> Loop(oracle, w, a, expired, i).failures == []
    ensures Loop(oracle, w, a, expired, i).status == RolledBack ==> a.maxRetries == 0 && !a.dryRun
    ensures !Stopped(Loop(oracle, w, a, expired, i).status) ==>
              Loop(oracle, w, a, expired, i).status == if a.dryRun then DryRun else Passed
  {
    hide Step;
    if i > 0 {
      RollBackHasNoFailures(oracle, w, a, expired, i - 1);
      var p := Loop(oracle, w, a, expired, i - 1);
      if !Stopped(p.status) { StepStatus(oracle, a, expired, i - 1, p); }
    }
  }

  /** A roll-back happens only with zero retries, and never beside a recorded
      failure. An interruption is reported as such only if nothing failed before
      it; otherwise the run reads as a partial failure. */
  lemma StatusesExcludeEachOther(oracle: Oracle, w: World, a: Arguments)
    ensures var r := RunReport(oracle, w, a);
            && (r.status == RolledBack ==> a.maxRetries == 0 && !a.dryRun && r.failedCount == 0)
            && (r.failedCount > 0 <==> r.status == PartialFailure)
            && (r.status == PartialFailure ==> a.maxRetries != 0)
            && (r.status == Incomplete <==> Final(oracle, w, a).status == Incomplete && r.failedCount == 0)
  {
    hide Step;
    var expired := SelectExpired(a.records, a.context);
    RollBackHasNoFailures(oracle, w, a, expired, |expired|);
  }

  // ---- operations, claims and calls ----

  lemma {:induction false} AttemptCalls(oracle: Oracle, maxRetries: int, attempts: nat, calls: nat)
    ensures var t := Attempt(oracle, maxRetries, attempts, calls);
            && t.calls == calls + t.retried + 1
            && (t.retried == 0 || attempts + t.retried <= maxRetries)
    decreases maxRetries - attempts
  {
    if oracle(calls).Failed? && attempts < maxRetries {
      AttemptCalls(oracle, maxRetries, attempts + 1, calls + 1);
    }
  }

  ghost function ClaimsOf(c: Context, ids: seq<string>): set<ClaimKey> {
    set x | x in ids :: Claim(c, x)
  }

  /** The loop deleted `d` in order, and undid that if it rolled back. */
  ghost predicate Journal(w: World, a: Arguments, p: Progress, d: seq<string>) {
    && p.operations == w.operations + Deletes(d) + (if p.status == RolledBack then Restores(d) else [])
    && (p.status != RolledBack ==> p.deleted == d)
    && p.claimedHere == ClaimsOf(a.context, d)
    && p.claimedHere !! w.claimed
    && p.claimed == (if p.status == RolledBack then w.claimed else w.claimed + p.claimedHere)
  }

  /** Each delete call is a deletion, a retry, a failure, or the one that stopped the run. */
  ghost predicate CallsAccounted(w: World, p: Progress, d: seq<string>) {
    p.calls == w.calls + |d| + p.retries + |p.failures| + (if Stopped(p.status) then 1 else 0)
  }

  lemma ClaimsOfMore(c: Context, d: seq<string>, id: string)
    ensures ClaimsOf(c, d + [id]) == ClaimsOf(c, d) + {Claim(c, id)}
  {
    assert forall x :: x in d + [id] <==> x in d || x == id;
  }

  lemma JournalComplete(w: World, a: Arguments, p: Progress, id: string, c: string, d: seq<string>)
    requires Journal(w, a, p, d) && !Stopped(p.status) && Claim(a.context, id) !in p.claimed
    ensures Journal(w, a, Complete(p, Claim(a.context, id), c), d + [id])
  {
    hide Deletes, ClaimsOf;
    ClaimsOfMore(a.context, d, id);
    DeletesMore(d, id);
    assert w.operations + Deletes(d) + [] + [Deleted(id)] == w.operations + (Deletes(d) + [Deleted(id)]) + [];
    assert w.claimed + (p.claimedHere + {Claim(a.context, id)}) == p.claimed + {Claim(a.context, id)};
  }

  lemma DeletesMore(d: seq<string>, id: string)
    ensures Deletes(d + [id]) == Deletes(d) + [Deleted(id)]
  {
    assert (d + [id])[..|d|] == d;
  }

  lemma JournalRollBack(w: World, a: Arguments, p: Progress, reason: string, d: seq<string>)
    requires Journal(w, a, p, d) && !Stopped(p.status)
    ensures Journal(w, a, RollBack(p, reason), d)
  {
    hide Restores, Deletes, ClaimsOf;
    assert w.operations + Deletes(d) + [] == w.operations + Deletes(d);
    assert w.claimed + p.claimedHere - p.claimedHere == w.claimed;
  }

  /** Only these parts of the state enter a journal. */
  lemma JournalDependsOn(w: World, a: Arguments, p: Progress, q: Progress, d: seq<string>)
    requires Journal(w, a, p, d)
    requires p.operations == q.operations && p.deleted == q.deleted && p.claimed == q.claimed
    requires p.claimedHere == q.claimedHere && (p.status == RolledBack <==> q.status == RolledBack)
    ensures Journal(w, a, q, d)
  {
  }

  lemma SettleJournal(w: World, a: Arguments, expired: seq<Record>, i: nat, p: Progress, outcome: Outcome, d: seq<string>)
    returns (e: seq<string>)
    requires i < |expired| && !Stopped(p.status) && Claim(a.context, expired[i].id) !in p.claimed
    requires Journal(w, a, p, d)
    requires p.calls == w.calls + |d| + p.retries + |p.failures| + 1
    ensures Journal(w, a, Settle(a, expired, i, p, outcome), e)
    ensures CallsAccounted(w, Settle(a, expired, i, p, outcome), e)
  {
    hide Journal, MarkRest;
    e := d;
    var q := Settle(a, expired, i, p, outcome);
    match outcome
    case Done =>
      JournalComplete(w, a, p, expired[i].id, expired[i].category, d);
      e := d + [expired[i].id];
    case Failed(reason) =>
      if a.maxRetries != 0 { JournalDependsOn(w, a, p, q, d); } else { JournalRollBack(w, a, p, reason, d); }
    case Interrupted(reason) =>
      JournalDependsOn(w, a, p, q, d);
  }

  lemma StepJournal(oracle: Oracle, w: World, a: Arguments, expired: seq<Record>, i: nat, p: Progress, d: seq<string>)
    returns (e: seq<string>)
    requires i < |expired| && !Stopped(p.status)
    requires Journal(w, a, p, d) && CallsAccounted(w, p, d)
    ensures Journal(w, a, Step(oracle, a, expired, i, p), e)
    ensures CallsAccounted(w, Step(oracle, a, expired, i, p), e)
  {
    hide Journal, Settle, Attempt;
    e := d;
    var id, c := expired[i].id, expired[i].category;
    if !a.dryRun && id !in p.completed && Claim(a.context, id) !in p.claimed {
      var q := p.(byCategory := p.byCategory + multiset{Mark(c, AsCandidate)});
      var t := Attempt(oracle, a.maxRetries, 0, q.calls);
      AttemptCalls(oracle, a.maxRetries, 0, q.calls);
      var r := q.(calls := t.calls, retries := q.retries + t.retried);
      JournalDependsOn(w, a, p, r, d);
      e := SettleJournal(w, a, expired, i, r, t.outcome, d);
    } else {
      JournalDependsOn(w, a, p, Step(oracle, a, expired, i, p), d);
    }
  }

  lemma {:induction false} LoopJournal(oracle: Oracle, w: World, a: Arguments, expired: seq<Record>, i: nat)
    returns (d: seq<string>)
    requires i <= |expired|
    ensures Journal(w, a, Loop(oracle, w, a, expired, i), d)
    ensures CallsAccounted(w, Loop(oracle, w, a, expired, i), d)
  {
    hide Step;
    if i == 0 {
      d := [];
    } else {
      d := LoopJournal(oracle, w, a, expired, i - 1);
      var p := Loop(oracle, w, a, expired, i - 1);
      if !Stopped(p.status) {
        d := StepJournal(oracle, w, a, expired, i - 1, p, d);
      }
    }
  }

  /** A rolled-back run appends its deletions and then their restores in reverse;
      it leaves the claims as they were and forgets the run. */
  lemma RollBackUndoes(oracle: Oracle, w: World, a: Arguments) returns (d: seq<string>)
    requires RunReport(oracle, w, a).status == RolledBack
    ensures var w' := RunWorld(oracle, w, a);
            && w'.operations == w.operations + Deletes(d) + Restores(d)
            && w'.claimed == w.claimed
            && w'.runs == w.runs - {KeyOf(a, SelectExpired(a.records, a.context))}
    ensures forall x :: x in d ==> Claim(a.context, x) !in w.claimed
  {
    hide Loop, Deletes, Restores;
    var expired := SelectExpired(a.records, a.context);
    d := LoopJournal(oracle, w, a, expired, |expired|);
    forall x | x in d ensures Claim(a.context, x) !in w.claimed {
      assert Claim(a.context, x) in ClaimsOf(a.context, d);
    }
  }

  /** Delete calls are new deletions, plus retries, plus failures, plus the one
      call that stopped the run if it was stopped. */
  lemma CallsAreAccountedFor(oracle: Oracle, w: World, a: Arguments) returns (d: seq<string>)
    ensures var w', r, stopped := RunWorld(oracle, w, a), RunReport(oracle, w, a), Stopped(Final(oracle, w, a).status);
            && w'.calls == w.calls + |d| + r.retryCount + r.failedCount + (if stopped then 1 else 0)
            && w'.operations == w.operations + Deletes(d) + (if r.status == RolledBack then Restores(d) else [])
  {
    hide Step, Deletes, Restores;
    var expired := SelectExpired(a.records, a.context);
    d := LoopJournal(oracle, w, a, expired, |expired|);
    RollBackHasNoFailures(oracle, w, a, expired, |expired|);
  }

  ghost function MostCalls(a: Arguments): nat {
    if a.maxRetries > 0 then a.maxRetries + 1 else 1
  }

  lemma StepCalls(oracle: Oracle, a: Arguments, expired: seq<Record>, i: nat, p: Progress)
    requires i < |expired|
    ensures p.calls <= Step(oracle, a, expired, i, p).calls <= p.calls + MostCalls(a)
  {
    hide Attempt, MarkRest;
    AttemptCalls(oracle, a.maxRetries, 0, p.calls);
  }

  lemma {:induction false} CallsAreBounded(oracle: Oracle, w: World, a: Arguments, expired: seq<Record>, i: nat)
    requires i <= |expired|
    ensures w.calls <= Loop(oracle, w, a, expired, i).calls <= w.calls + i * MostCalls(a)
  {
    hide Step, MostCalls;
    if i > 0 {
      CallsAreBounded(oracle, w, a, expired, i - 1);
      StepCalls(oracle, a, expired, i - 1, Loop(oracle, w, a, expired, i - 1));
      assert (i - 1) * MostCalls(a) + MostCalls(a) == i * MostCalls(a);
    }
  }

  /** No run makes more than `max_retries + 1` delete calls per expired record, and one
      per record if the limit is negative. */
  lemma RunCallsAreBounded(oracle: Oracle, w: World, a: Arguments)
    ensures w.calls <= RunWorld(oracle, w, a).calls
         <= w.calls + |SelectExpired(a.records, a.context)| * MostCalls(a)
  {
    hide Loop, MostCalls;
    var expired := SelectExpired(a.records, a.context);
    CallsAreBounded(oracle, w, a, expired, |expired|);
  }
}
