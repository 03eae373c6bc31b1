/** What a retention report says of each category and of the whole run: which label every
    record is counted under, and why the run ended. */
module RetentionTallies {
  import opened Wrappers
  import opened Retention
  import opened RetentionRun

  /** How many of the failures are listed with this category. */
  ghost function FailuresIn(failures: seq<Failure>, c: string): nat {
    if failures == [] then 0
    else FailuresIn(failures[..|failures| - 1], c) + (if failures[|failures| - 1].category == c then 1 else 0)
  }

  lemma FailuresMore(failures: seq<Failure>, f: Failure, c: string)
    ensures FailuresIn(failures + [f], c) == FailuresIn(failures, c) + if f.category == c then 1 else 0
  {
    assert (failures + [f])[..|failures|] == failures;
  }

  /** The five counts of one category. */
  datatype Row = Row(candidate: int, dryRun: int, deleted: int, failed: int, notProcessed: int)

  ghost function RowOf(m: Tally, c: string): Row {
    Row(m[Mark(c, AsCandidate)], m[Mark(c, AsDryRun)], m[Mark(c, AsDeleted)], m[Mark(c, AsFailed)], m[Mark(c, AsNotProcessed)])
  }

  ghost function Bump(r: Row, tag: Label): Row {
    match tag
    case AsCandidate => r.(candidate := r.candidate + 1)
    case AsDryRun => r.(dryRun := r.dryRun + 1)
    case AsDeleted => r.(deleted := r.deleted + 1)
    case AsFailed => r.(failed := r.failed + 1)
    case AsNotProcessed => r.(notProcessed := r.notProcessed + 1)
  }

  lemma RowMore(m: Tally, k: string, tag: Label, c: string)
    ensures RowOf(m + multiset{Mark(k, tag)}, c) == if k == c then Bump(RowOf(m, c), tag) else RowOf(m, c)
  {
  }

  /** The row of category `c` once the first `n` records are handled. */
  ghost function Handled(a: Arguments, expired: seq<Record>, n: nat, failures: seq<Failure>, c: string): Row
    requires n <= |expired|
  {
    var k, failed := InCategory(expired, n, c), FailuresIn(failures, c);
    if a.dryRun then Row(k, k, 0, failed, 0) else Row(k, 0, k - failed, failed, 0)
  }

  /** The row at the end of a run that has handled `n` records: a roll-back has one more
      candidate, the record it failed at; after an interruption the rest is not processed. */
  ghost predicate TalliedAll(a: Arguments, expired: seq<Record>, n: nat, p: Progress, c: string)
    requires n <= |expired| && (Stopped(p.status) ==> n < |expired|)
  {
    var h, all := Handled(a, expired, n, p.failures, c), InCategory(expired, |expired|, c);
    RowOf(p.byCategory, c) == match p.status
                              case RolledBack => h.(candidate := InCategory(expired, n + 1, c))
                              case Incomplete => h.(candidate := all, notProcessed := all - h.candidate)
                              case _ => h
  }

  /** Marking the rest after an interruption touches two labels only. */
  lemma {:induction false} MarkRestTallies(m: Tally, expired: seq<Record>, i: nat, j: nat, c: string)
    requires i < j <= |expired|
    ensures var r := RowOf(m, c);
            RowOf(MarkRest(m, expired, i, j), c)
            == r.(notProcessed := r.notProcessed + InCategory(expired, j, c) - InCategory(expired, i, c),
                  candidate := r.candidate + InCategory(expired, j, c) - InCategory(expired, i + 1, c))
    decreases j
  {
    hide RowOf;
    var k := expired[j - 1].category;
    var before := MarkRest(m, expired, i, j - 1);
    if j == i + 1 {
      RowMore(before, k, AsNotProcessed, c);
    } else {
      MarkRestTallies(m, expired, i, j - 1, c);
      RowMore(before, k, AsCandidate, c);
      RowMore(before + multiset{Mark(k, AsCandidate)}, k, AsNotProcessed, c);
    }
  }

  lemma DoneTallies(a: Arguments, expired: seq<Record>, i: nat, m: Tally, p: Progress, c: string)
    requires i < |expired| && p.status == Passed && !a.dryRun
    requires p.byCategory == m + multiset{Mark(expired[i].category, AsCandidate)}
    requires RowOf(m, c) == Handled(a, expired, i, p.failures, c)
    ensures TalliedAll(a, expired, i + 1, Settle(a, expired, i, p, Done), c)
  {
    hide FailuresIn, RowOf;
    RowMore(m, expired[i].category, AsCandidate, c);
    RowMore(p.byCategory, expired[i].category, AsDeleted, c);
  }

  lemma FailedTallies(a: Arguments, expired: seq<Record>, i: nat, m: Tally, p: Progress, reason: string, c: string)
    requires i < |expired| && p.status == Passed && !a.dryRun
    requires p.byCategory == m + multiset{Mark(expired[i].category, AsCandidate)}
    requires RowOf(m, c) == Handled(a, expired, i, p.failures, c)
    ensures TalliedAll(a, expired, if a.maxRetries == 0 then i else i + 1, Settle(a, expired, i, p, Failed(reason)), c)
  {
    hide FailuresIn, RowOf, Restores;
    var k := expired[i].category;
    RowMore(m, k, AsCandidate, c);
    RowMore(p.byCategory, k, AsFailed, c);
    FailuresMore(p.failures, Failure(k, reason), c);
  }

  lemma InterruptedTallies(a: Arguments, expired: seq<Record>, i: nat, m: Tally, p: Progress, reason: string, c: string)
    requires i < |expired| && p.status == Passed && !a.dryRun
    requires p.byCategory == m + multiset{Mark(expired[i].category, AsCandidate)}
    requires RowOf(m, c) == Handled(a, expired, i, p.failures, c)
    ensures TalliedAll(a, expired, i, Settle(a, expired, i, p, Interrupted(reason)), c)
  {
    hide FailuresIn, RowOf, MarkRest;
    RowMore(m, expired[i].category, AsCandidate, c);
    MarkRestTallies(p.byCategory, expired, i, |expired|, c);
  }

  lemma SettleTallies(a: Arguments, expired: seq<Record>, i: nat, m: Tally, p: Progress, outcome: Outcome, c: string)
    requires i < |expired| && p.status == Passed && !a.dryRun
    requires p.byCategory == m + multiset{Mark(expired[i].category, AsCandidate)}
    requires RowOf(m, c) == Handled(a, expired, i, p.failures, c)
    ensures var q := Settle(a, expired, i, p, outcome);
            TalliedAll(a, expired, if Stopped(q.status) then i else i + 1, q, c)
  {
    hide TalliedAll, RowOf, Handled, MarkRest, Restores;
    match outcome
    case Done => DoneTallies(a, expired, i, m, p, c);
    case Failed(reason) => FailedTallies(a, expired, i, m, p, reason, c);
    case Interrupted(reason) => InterruptedTallies(a, expired, i, m, p, reason, c);
  }

  lemma StepTallies(oracle: Oracle, a: Arguments, expired: seq<Record>, i: nat, p: Progress, c: string)
    requires i < |expired| && p.status == if a.dryRun then DryRun else Passed
    requires TalliedAll(a, expired, i, p, c)
    ensures var q := Step(oracle, a, expired, i, p);
            TalliedAll(a, expired, if Stopped(q.status) then i else i + 1, q, c)
  {
    hide Attempt, Settle, FailuresIn, RowOf;
    var id, k := expired[i].id, expired[i].category;
    var q := p.(byCategory := p.byCategory + multiset{Mark(k, AsCandidate)});
    RowMore(p.byCategory, k, AsCandidate, c);
    if a.dryRun {
      RowMore(q.byCategory, k, AsDryRun, c);
    } else if id in p.completed || Claim(a.context, id) in p.claimed {
      RowMore(q.byCategory, k, AsDeleted, c);
    } else {
      var t := Attempt(oracle, a.maxRetries, 0, q.calls);
      SettleTallies(a, expired, i, p.byCategory, q.(calls := t.calls, retries := q.retries + t.retried), t.outcome, c);
    }
  }

  lemma {:induction false} LoopTallies(oracle: Oracle, w: World, a: Arguments, expired: seq<Record>, i: nat, c: string)
    requires i <= |expired| && !Stopped(Loop(oracle, w, a, expired, i).status)
    ensures TalliedAll(a, expired, i, Loop(oracle, w, a, expired, i), c)
  {
    hide Step;
    if i > 0 {
      LoopTallies(oracle, w, a, expired, i - 1, c);
      RollBackHasNoFailures(oracle, w, a, expired, i - 1);
      StepTallies(oracle, a, expired, i - 1, Loop(oracle, w, a, expired, i - 1), c);
    }
  }

  /** Every run, however it ends, counts each category as follows. It handles the first
      `n` records, all of them unless it stops. In a dry run these count as dry-run and
      nothing else does. Otherwise as many count as failed as failures are listed, and the
      other handled ones as deleted. Not processed are those from `n` on, in an interrupted
      run, and none in others. */
  lemma LabelsAreExact(oracle: Oracle, w: World, a: Arguments) returns (n: nat)
    ensures var expired, p := SelectExpired(a.records, a.context), Final(oracle, w, a);
            && n <= |expired| && (n < |expired| <==> Stopped(p.status))
            && RunReport(oracle, w, a).byCategory == p.byCategory
            && forall c :: TalliedAll(a, expired, n, p, c)
  {
    hide Step, TalliedAll;
    var expired := SelectExpired(a.records, a.context);
    n := |expired|;
    if Stopped(Final(oracle, w, a).status) {
      n := StoppedAt(oracle, w, a, expired, |expired|);
      RollBackHasNoFailures(oracle, w, a, expired, n);
      forall c ensures TalliedAll(a, expired, n, Final(oracle, w, a), c) {
        LoopTallies(oracle, w, a, expired, n, c);
        StepTallies(oracle, a, expired, n, Loop(oracle, w, a, expired, n), c);
      }
    } else {
      forall c ensures TalliedAll(a, expired, n, Final(oracle, w, a), c) { LoopTallies(oracle, w, a, expired, n, c); }
    }
  }

  // ---- the rest of the report ----

  lemma {:induction false} AttemptEndsWith(oracle: Oracle, maxRetries: int, attempts: nat, calls: nat)
    ensures var t := Attempt(oracle, maxRetries, attempts, calls); t.calls > calls && t.outcome == oracle(t.calls - 1)
    decreases maxRetries - attempts
  {
    if oracle(calls).Failed? && attempts < maxRetries { AttemptEndsWith(oracle, maxRetries, attempts + 1, calls + 1); }
  }

  lemma StopReason(oracle: Oracle, a: Arguments, expired: seq<Record>, i: nat, p: Progress)
    requires i < |expired| && !Stopped(p.status)
    ensures var q := Step(oracle, a, expired, i, p);
            if Stopped(q.status) then
              && q.calls > 0 && oracle(q.calls - 1) != Done && q.reason == Some(oracle(q.calls - 1).reason)
              && (q.status == RolledBack <==> oracle(q.calls - 1).Failed?)
            else q.reason == p.reason
  {
    hide Attempt, MarkRest, Restores;
    AttemptEndsWith(oracle, a.maxRetries, 0, p.calls);
  }

  lemma {:induction false} NoReasonYet(oracle: Oracle, w: World, a: Arguments, expired: seq<Record>, i: nat)
    requires i <= |expired| && !Stopped(Loop(oracle, w, a, expired, i).status)
    ensures Loop(oracle, w, a, expired, i).reason == None
  {
    hide Step;
    if i > 0 {
      NoReasonYet(oracle, w, a, expired, i - 1);
      StopReason(oracle, a, expired, i - 1, Loop(oracle, w, a, expired, i - 1));
    }
  }

  /** The error of a report: none if the run passed or was dry, a fixed text if records
      failed, and otherwise that of the very last call, which failed or was interrupted. */
  lemma ErrorIsExact(oracle: Oracle, w: World, a: Arguments)
    ensures var r, w' := RunReport(oracle, w, a), RunWorld(oracle, w, a);
            match r.status
            case DryRun => r.reason == None && a.dryRun
            case Passed => r.reason == None && !a.dryRun
            case PartialFailure => r.reason == Some("one_or_more_records_failed") && r.failedCount > 0
            case RolledBack => w'.calls > 0 && oracle(w'.calls - 1).Failed? && r.reason == Some(oracle(w'.calls - 1).reason)
            case Incomplete => w'.calls > 0 && oracle(w'.calls - 1).Interrupted? && r.reason == Some(oracle(w'.calls - 1).reason)
  {
    hide Step;
    var expired := SelectExpired(a.records, a.context);
    RollBackHasNoFailures(oracle, w, a, expired, |expired|);
    if Stopped(Final(oracle, w, a).status) {
      var n := StoppedAt(oracle, w, a, expired, |expired|);
      StopReason(oracle, a, expired, n, Loop(oracle, w, a, expired, n));
    } else {
      NoReasonYet(oracle, w, a, expired, |expired|);
    }
  }

  /** Two runs share an entry exactly when they share the secret and the dry-run flag, and
      either both are given the same id, or neither is given one and they are for the same
      tenant, instant, callback and records. */
  lemma SharedEntryExactly(a: Arguments, b: Arguments)
    ensures var e, e' := SelectExpired(a.records, a.context), SelectExpired(b.records, b.context);
            var named, named' := a.runId.Some? && a.runId.value != "", b.runId.Some? && b.runId.value != "";
            KeyOf(a, e) == KeyOf(b, e')
            <==> && a.context.secret == b.context.secret && a.dryRun == b.dryRun && named == named'
                 && (named ==> a.runId == b.runId)
                 && (!named ==> && a.context.tenant == b.context.tenant && a.context.now == b.context.now
                                && a.callback == b.callback && |e| == |e'| && forall i :: 0 <= i < |e| ==> e[i].id == e'[i].id)
  {
    hide SelectExpired;
    var e, e' := SelectExpired(a.records, a.context), SelectExpired(b.records, b.context);
    if Ids(e) == Ids(e') {
      assert |e| == |Ids(e)| == |e'|;
      assert forall i :: 0 <= i < |e| ==> e[i].id == Ids(e)[i] == Ids(e')[i] == e'[i].id;
    }
    if |e| == |e'| && forall i :: 0 <= i < |e| ==> e[i].id == e'[i].id { assert Ids(e) == Ids(e'); }
  }

  ghost predicate Expired(r: Record, c: Context) {
    r.tenant == Some(c.tenant) && r.createdAt < c.now - c.days * SECONDS_PER_DAY
  }

  lemma SelectionOfOneMore(x: seq<Record>, r: Record, c: Context)
    ensures SelectExpired(x + [r], c) == SelectExpired(x, c) + if Expired(r, c) then [r] else []
  {
    assert (x + [r])[..|x|] == x;
  }

  /** Selection goes record by record, in order, and keeps each as often as it is there. */
  lemma {:induction false} SelectionIsPointwise(x: seq<Record>, y: seq<Record>, c: Context)
    ensures SelectExpired(x + y, c) == SelectExpired(x, c) + SelectExpired(y, c)
    ensures |y| == 1 ==> SelectExpired(y, c) == if Expired(y[0], c) then y else []
  {
    hide Expired, SelectExpired;
    SelectionOfNothing(c);
    if y == [] {
      assert x + y == x;
    } else {
      var init, last := y[..|y| - 1], y[|y| - 1];
      assert x + y == (x + init) + [last] && y == init + [last];
      SelectionIsPointwise(x, init, c);
      SelectionOfOneMore(x + init, last, c);
      SelectionOfOneMore(init, last, c);
    }
  }

  lemma SelectionOfNothing(c: Context)
    ensures SelectExpired([], c) == []
  {
  }
}
