/** The executing code of scripts/enforce_audit_retention.py, with its two
    module-level tables as fields and the record store behind its callbacks. */
module RetentionExecutor {
  import opened Wrappers
  import opened Retention
  import opened RetentionRun

  /** The callbacks `delete` and `restore`. A delete that fails has no effect. */
  class RecordStore {
    const oracle: Oracle
    var operations: seq<Operation>
    var calls: nat

    constructor (oracle: Oracle)
      ensures this.oracle == oracle && operations == [] && calls == 0
    {
      this.oracle := oracle;
      operations, calls := [], 0;
    }

    method Delete(id: string) returns (outcome: Outcome)
      modifies this
      ensures calls == old(calls) + 1 && outcome == oracle(old(calls))
      ensures operations == if outcome == Done then old(operations) + [Deleted(id)] else old(operations)
    {
      outcome := oracle(calls);
      calls := calls + 1;
      if outcome == Done { operations := operations + [Deleted(id)]; }
    }

    method Restore(id: string)
      modifies this
      ensures operations == old(operations) + [Restored(id)] && calls == old(calls)
    {
      operations := operations + [Restored(id)];
    }
  }

  class Executor {
    var runs: map<RunKey, set<string>>
    var claimed: set<ClaimKey>

    constructor ()
      ensures runs == map[] && claimed == {}
    {
      runs, claimed := map[], {};
    }

    ghost function Snapshot(store: RecordStore): World
      reads this, store
    {
      World(runs, claimed, store.operations, store.calls)
    }

    /** The inner `while True`: retry an ordinary failure while retries are left. */
    method DeleteWithRetries(store: RecordStore, id: string, maxRetries: int)
      returns (outcome: Outcome, retried: nat)
      modifies store
      ensures Attempted(outcome, store.calls, retried) == Attempt(store.oracle, maxRetries, 0, old(store.calls))
      ensures store.operations == if outcome == Done then old(store.operations) + [Deleted(id)] else old(store.operations)
    {
      var attempts: nat := 0;
      retried := 0;
      while true
        invariant retried == attempts
        invariant store.operations == old(store.operations)
        invariant var t := Attempt(store.oracle, maxRetries, attempts, store.calls);
                  Attempt(store.oracle, maxRetries, 0, old(store.calls)) == t.(retried := t.retried + retried)
        decreases maxRetries - attempts
      {
        outcome := store.Delete(id);
        if outcome.Failed? && attempts < maxRetries {
          attempts, retried := attempts + 1, retried + 1;
        } else {
          return;
        }
      }
    }

    /** `for restored_id in reversed(deleted): restore(restored_id)` */
    method RestoreAll(store: RecordStore, ids: seq<string>)
      modifies store
      ensures store.operations == old(store.operations) + Restores(ids) && store.calls == old(store.calls)
    {
      var n := |ids|;
      assert ids[..n] == ids;
      while n > 0
        invariant n <= |ids| && store.calls == old(store.calls)
        invariant store.operations + Restores(ids[..n]) == old(store.operations) + Restores(ids)
      {
        ghost var left := Restores(ids[..n]);
        assert ids[..n][..n - 1] == ids[..n - 1];
        store.Restore(ids[n - 1]);
        n := n - 1;
        assert left == [Restored(ids[n])] + Restores(ids[..n]);
      }
    }

    /** The loop that accounts for the records an interruption leaves behind. */
    method MarkRemaining(m: Tally, expired: seq<Record>, i: nat) returns (r: Tally)
      requires i <= |expired|
      ensures r == MarkRest(m, expired, i, |expired|)
    {
      hide MarkLeft;
      r := m;
      for j := i to |expired|
        invariant r == MarkRest(m, expired, i, j)
      {
        r := MarkLeft(r, expired[j].category, j == i);
      }
    }

    /** The loop's locals and the shared state they must agree with. */
    ghost predicate InStep(store: RecordStore, p: Progress)
      reads this, store
    {
      p.claimed == claimed && p.operations == store.operations && p.calls == store.calls
    }

    /** What follows the callback: completion, a recorded failure, roll-back or interruption. */
    method SettleRecord(store: RecordStore, a: Arguments, expired: seq<Record>, i: nat, p: Progress, outcome: Outcome)
      returns (q: Progress)
      requires i < |expired|
      requires p.claimed == claimed && p.calls == store.calls
      requires store.operations == if outcome == Done then p.operations + [Deleted(expired[i].id)] else p.operations
      modifies this`claimed, store
      ensures InStep(store, q) && q == Settle(a, expired, i, p, outcome)
    {
      var id, c := expired[i].id, expired[i].category;
      q := p;
      match outcome {
        case Done =>
          q := q.(completed := q.completed + {id});
          claimed := claimed + {Claim(a.context, id)};
          q := q.(claimed := claimed, claimedHere := q.claimedHere + {Claim(a.context, id)},
                  deleted := q.deleted + [id], operations := store.operations);
          q := Count(q, c, AsDeleted);
        case Failed(reason) =>
          if a.maxRetries != 0 {
            q := Count(q.(failures := q.failures + [Failure(c, reason)]), c, AsFailed);
          } else {
            RestoreAll(store, q.deleted);
            claimed := claimed - q.claimedHere;
            q := q.(completed := q.completed - (set x | x in q.deleted), claimed := claimed,
                    operations := store.operations, deleted := [], status := RolledBack, reason := Some(reason));
          }
        case Interrupted(reason) =>
          var marked := MarkRemaining(q.byCategory, expired, i);
          q := q.(status := Incomplete, reason := Some(reason), byCategory := marked);
      }
    }

    method ProcessRecord(store: RecordStore, a: Arguments, expired: seq<Record>, i: nat, p: Progress)
      returns (q: Progress)
      requires i < |expired| && InStep(store, p)
      modifies this`claimed, store
      ensures InStep(store, q) && q == Step(store.oracle, a, expired, i, p)
    {
      hide Settle;
      var id, c := expired[i].id, expired[i].category;
      q := p.(byCategory := p.byCategory + multiset{Mark(c, AsCandidate)});
      if a.dryRun {
        q := Count(q, c, AsDryRun);
      } else if id in q.completed {
        q := Count(q, c, AsDeleted);
      } else if Claim(a.context, id) in claimed {
        q := Count(q.(completed := q.completed + {id}), c, AsDeleted);
      } else {
        var outcome, retried := DeleteWithRetries(store, id, a.maxRetries);
        q := q.(calls := store.calls, retries := q.retries + retried);
        q := SettleRecord(store, a, expired, i, q, outcome);
      }
    }

    /** `execute_retention`, under its lock. */
    method Execute(store: RecordStore, a: Arguments) returns (report: Report)
      modifies this, store
      ensures report == RunReport(store.oracle, old(Snapshot(store)), a)
      ensures Snapshot(store) == RunWorld(store.oracle, old(Snapshot(store)), a)
    {
      hide Step, SelectExpired, KeyOf, ReportOf;
      ghost var w := Snapshot(store);
      var expired := SelectExpired(a.records, a.context);
      var key := KeyOf(a, expired);
      if key !in runs { runs := runs[key := {}]; }
      var p := Progress(runs[key], claimed, {}, [], [], 0, multiset{}, multiset{},
                        if a.dryRun then DryRun else Passed, None, store.operations, store.calls);
      var i := 0;
      while i < |expired| && !Stopped(p.status)
        invariant i <= |expired| && InStep(store, p)
        invariant p == Loop(store.oracle, w, a, expired, i)
        invariant runs == w.runs[key := if key in w.runs then w.runs[key] else {}]
      {
        p := ProcessRecord(store, a, expired, i, p);
        i := i + 1;
      }
      StoppedLoopStays(store.oracle, w, a, expired, i, |expired|);
      runs := if Stopped(FinalStatus(p)) then runs - {key} else runs[key := p.completed];
      report := ReportOf(a, expired, p);
    }
  }
}
