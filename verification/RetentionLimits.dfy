/** Where the promises of the retention executor stop holding. */
module RetentionLimits {
  import opened Retention
  import opened RetentionChain
  import opened RetentionReplay
  import opened RetentionGuard
  import opened RetentionStops

  /** The completed ids of a named run know no tenant: after a passed run, a run of
      any other context under the same id that finds the same record ids makes no
      delete call, and still reports every record deleted. */
  lemma SharedRunIdSkipsDeletes(oracle: Oracle, w: World, a: Arguments, b: Arguments)
    requires !a.dryRun && !b.dryRun && a.runId == b.runId && a.runId.Some? && a.runId.value != ""
    requires a.context.secret == b.context.secret && RunReport(oracle, w, a).status == Passed
    requires var ids := Ids(SelectExpired(a.records, a.context));
             forall r :: r in SelectExpired(b.records, b.context) ==> r.id in ids
    ensures var w' := RunWorld(oracle, w, a);
            && RunWorld(oracle, w', b) == w'
            && RunReport(oracle, w', b).status == Passed
            && RunReport(oracle, w', b).deletedCount == |SelectExpired(b.records, b.context)|
  {
    hide Loop, SelectExpired, AllDeleted, CountCompleted;
    var expired, other := SelectExpired(a.records, a.context), SelectExpired(b.records, b.context);
    var w', key := RunWorld(oracle, w, a), KeyOf(a, expired);
    PassedRunIsSmooth(oracle, w, a, expired, |expired|);
    assert KeyOf(b, other) == key && key in w'.runs;
    forall j | 0 <= j < |other| ensures other[j].id in w'.runs[key] {
      assert other[j] in other;
      var i :| 0 <= i < |expired| && Ids(expired)[i] == other[j].id;
    }
    ReplayOnlyCounts(oracle, w', b, other, |other|);
    AllCompleted(other, |other|, w'.runs[key]);
    assert w'.runs[key := w'.runs[key]] == w'.runs;
  }

  // ---- two instants, from a fresh process ----

  /** A first run, of one record, that succeeds. */
  lemma FirstRun(oracle: Oracle, a: Arguments, r: Record)
    requires !a.dryRun && SelectExpired(a.records, a.context) == [r] && oracle(0) == Done
    ensures RunWorld(oracle, FRESH, a)
         == World(map[KeyOf(a, [r]) := {r.id}], {Claim(a.context, r.id)}, [Deleted(r.id)], 1)
    ensures RunReport(oracle, FRESH, a).status == Passed
  {
    hide SelectExpired, KeyOf, Attempt, Step;
    FirstTry(oracle, a.maxRetries, 0);
    var p := Loop(oracle, FRESH, a, [r], 0);
    DeletingTurn(oracle, a, [r], 0, p);
    var q := Final(oracle, FRESH, a);
    assert q == Step(oracle, a, [r], 0, p);
    assert q.completed == {r.id} && q.claimed == {Claim(a.context, r.id)} && q.operations == [Deleted(r.id)];
    var none: map<RunKey, set<string>> := map[];
    assert none[KeyOf(a, [r]) := {r.id}] == map[KeyOf(a, [r]) := {r.id}];
  }

  lemma FirstTry(oracle: Oracle, maxRetries: int, calls: nat)
    requires oracle(calls) == Done || maxRetries == 0
    ensures Attempt(oracle, maxRetries, 0, calls) == Attempted(oracle(calls), calls + 1, 0)
  {
  }

  /** A claim is tied to the instant of its run: two runs at different instants delete
      the same record twice. The second one is not guarded. */
  lemma AnotherInstantDeletesAgain(oracle: Oracle, a: Arguments, b: Arguments, r: Record)
    requires !a.dryRun && !b.dryRun && a.context != b.context
    requires SelectExpired(a.records, a.context) == [r] == SelectExpired(b.records, b.context)
    requires KeyOf(a, [r]) != KeyOf(b, [r]) && oracle(0) == Done == oracle(1)
    ensures !Guarded(RunWorld(oracle, FRESH, a), b)
    ensures RunWorld(oracle, RunWorld(oracle, FRESH, a), b).operations == [Deleted(r.id), Deleted(r.id)]
    ensures !NeverTwice(RunWorld(oracle, RunWorld(oracle, FRESH, a), b).operations)
  {
    hide SelectExpired, KeyOf, Attempt;
    FirstRun(oracle, a, r);
    FirstTry(oracle, b.maxRetries, 1);
    var w := RunWorld(oracle, FRESH, a);
    var p := Loop(oracle, w, b, [r], 0);
    DeletingTurn(oracle, b, [r], 0, p);
    assert Final(oracle, w, b) == Step(oracle, b, [r], 0, p);
    assert r in [r] && Gone(w.operations, r.id);
    var ops := [Deleted(r.id), Deleted(r.id)];
    assert ops[..1] == [Deleted(r.id)] && ops[1] == Deleted(r.id);
  }

  /** A roll-back at another instant brings back a record that an earlier run had
      deleted, while the earlier claim stays; and a replay of the earlier run then
      reports the record deleted, and passes, although it is there. */
  lemma RollBackRevivesARecord(oracle: Oracle, a: Arguments, b: Arguments, r: Record, s: Record)
    requires !a.dryRun && !b.dryRun && a.context != b.context && b.maxRetries == 0 && r.id != s.id
    requires SelectExpired(a.records, a.context) == [r] && SelectExpired(b.records, b.context) == [r, s]
    requires KeyOf(a, [r]) != KeyOf(b, [r, s]) && oracle(0) == Done == oracle(1) && oracle(2).Failed?
    ensures var before := RunWorld(oracle, FRESH, a);
            var after := RunWorld(oracle, before, b);
            && RunReport(oracle, before, b).status == RolledBack
            && Gone(before.operations, r.id) && !Gone(after.operations, r.id)
            && Claim(a.context, r.id) in after.claimed
            && RunReport(oracle, after, a).status == Passed && RunReport(oracle, after, a).deletedCount == 1
            && !Gone(RunWorld(oracle, after, a).operations, r.id)
  {
    hide SelectExpired, KeyOf, Attempt, Step;
    FirstRun(oracle, a, r);
    var w, e := RunWorld(oracle, FRESH, a), [r, s];
    var p, q, t := Loop(oracle, w, b, e, 0), Loop(oracle, w, b, e, 1), Loop(oracle, w, b, e, 2);
    FirstTry(oracle, 0, 1);
    DeletingTurn(oracle, b, e, 0, p);
    FirstTry(oracle, 0, 2);
    RollingBackTurn(oracle, b, e, 1, q);
    assert t == Step(oracle, b, e, 1, q);
    assert q.deleted == [r.id];
    var after := RunWorld(oracle, w, b);
    assert Restores([r.id]) == [Restored(r.id)] by { assert [r.id][..0] == []; }
    assert after.operations == [Deleted(r.id), Deleted(r.id)] + [Restored(r.id)];
    GoneAppend([Deleted(r.id), Deleted(r.id)], Restored(r.id), r.id);
    OtherRunsKeepTheEntry(oracle, w, b, KeyOf(a, [r]));
    ReplayChangesNothing(oracle, FRESH, a, oracle, after);
  }

  /** A record that is neither completed nor claimed, and is deleted. */
  lemma DeletingTurn(oracle: Oracle, a: Arguments, expired: seq<Record>, i: nat, p: Progress)
    requires i < |expired| && !a.dryRun
    requires expired[i].id !in p.completed && Claim(a.context, expired[i].id) !in p.claimed
    requires Attempt(oracle, a.maxRetries, 0, p.calls).outcome == Done
    ensures var q := Step(oracle, a, expired, i, p);
            && q.completed == p.completed + {expired[i].id} && q.status == p.status
            && q.failures == p.failures && q.totals == p.totals + multiset{AsDeleted}
            && q.calls == Attempt(oracle, a.maxRetries, 0, p.calls).calls
            && q.operations == p.operations + [Deleted(expired[i].id)] && q.deleted == p.deleted + [expired[i].id]
            && q.claimed == p.claimed + {Claim(a.context, expired[i].id)}
            && q.claimedHere == p.claimedHere + {Claim(a.context, expired[i].id)}
  {
    hide Attempt;
  }
}
