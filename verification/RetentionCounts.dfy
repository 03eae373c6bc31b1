/** Exactly when the deleted count of a report is the number of records counted as deleted. */
module RetentionCounts {
  import opened Retention
  import opened RetentionRun
  import opened RetentionReplay
  import opened RetentionGuard

  /** The id is one the run would really try to delete. */
  ghost predicate FreshId(w: World, a: Arguments, id: string) {
    id !in Entry(w, a) && Claim(a.context, id) !in w.claimed
  }

  /** No two expired records share an id that is neither completed nor claimed. */
  ghost predicate FreshIdsDistinct(w: World, a: Arguments) {
    var expired := SelectExpired(a.records, a.context);
    forall i, j :: 0 <= i < j < |expired| && expired[i].id == expired[j].id ==> !FreshId(w, a, expired[i].id)
  }

  ghost predicate CountAgrees(oracle: Oracle, w: World, a: Arguments) {
    !Stopped(Final(oracle, w, a).status) ==>
      RunReport(oracle, w, a).deletedCount == RunReport(oracle, w, a).totals[AsDeleted]
  }

  // ---- it agrees ----

  lemma {:induction false} CountUnaffected(expired: seq<Record>, i: nat, completed: set<string>, id: string)
    requires i <= |expired| && forall j :: 0 <= j < i ==> expired[j].id != id
    ensures CountCompleted(expired, i, completed + {id}) == CountCompleted(expired, i, completed)
  {
    if i > 0 { CountUnaffected(expired, i - 1, completed, id); }
  }

  /** So far the counts agree, and what the run skips is completed. */
  ghost predicate Counted(w: World, a: Arguments, expired: seq<Record>, i: nat, p: Progress)
    requires i <= |expired|
  {
    && CountCompleted(expired, i, p.completed) == p.totals[AsDeleted]
    && Entry(w, a) <= p.completed && w.claimed <= p.claimed
    && forall j :: 0 <= j < i && !FreshId(w, a, expired[j].id) ==> expired[j].id in p.completed
  }

  lemma CountedStep(oracle: Oracle, w: World, a: Arguments, expired: seq<Record>, i: nat, p: Progress)
    requires i < |expired| && !a.dryRun && Counted(w, a, expired, i, p)
    requires expired[i].id !in p.completed ==> forall j :: 0 <= j < i ==> expired[j].id != expired[i].id
    requires !Stopped(Step(oracle, a, expired, i, p).status)
    ensures Counted(w, a, expired, i + 1, Step(oracle, a, expired, i, p))
  {
    hide Attempt, MarkRest, Restores, Entry;
    if expired[i].id !in p.completed { CountUnaffected(expired, i, p.completed, expired[i].id); }
  }

  lemma {:induction false} CountedLoop(oracle: Oracle, w: World, a: Arguments, i: nat)
    requires var expired := SelectExpired(a.records, a.context);
             i <= |expired| && !a.dryRun && FreshIdsDistinct(w, a) && !Stopped(Loop(oracle, w, a, expired, i).status)
    ensures var expired := SelectExpired(a.records, a.context); Counted(w, a, expired, i, Loop(oracle, w, a, expired, i))
  {
    hide Step, KeyOf, SelectExpired;
    if i > 0 {
      var expired := SelectExpired(a.records, a.context);
      CountedLoop(oracle, w, a, i - 1);
      CountedStep(oracle, w, a, expired, i - 1, Loop(oracle, w, a, expired, i - 1));
    }
  }

  /** With zero retries, or with no fresh id twice, the counts agree whatever happens. */
  lemma DeletedCountIsTheTotal(oracle: Oracle, w: World, a: Arguments)
    requires !a.dryRun && (a.maxRetries == 0 || FreshIdsDistinct(w, a))
    ensures CountAgrees(oracle, w, a)
  {
    hide Loop, CountCompleted, SelectExpired, KeyOf, AllDeleted, Entry, FreshIdsDistinct;
    var expired := SelectExpired(a.records, a.context);
    var n, p := |expired|, Final(oracle, w, a);
    if !Stopped(p.status) {
      RollBackHasNoFailures(oracle, w, a, expired, n);
      if a.maxRetries == 0 {
        PassedRunIsSmooth(oracle, w, a, expired, n);
        AllCompleted(expired, n, p.completed);
      } else {
        CountedLoop(oracle, w, a, n);
      }
    }
  }

  // ---- it need not agree otherwise ----

  /** All calls succeed except the `m` calls from `k` on. */
  ghost function FailingAt(k: nat, m: nat): Oracle {
    (n: nat) => if k <= n < k + m then Failed("") else Done
  }

  lemma {:induction false} AttemptFails(oracle: Oracle, a: Arguments, attempts: nat, calls: nat)
    requires attempts == 0 || attempts <= a.maxRetries
    requires forall n: nat :: calls <= n < calls + MostCalls(a) - attempts ==> oracle(n).Failed?
    ensures var t := Attempt(oracle, a.maxRetries, attempts, calls);
            t.outcome.Failed? && t.calls == calls + MostCalls(a) - attempts
    decreases a.maxRetries - attempts
  {
    if attempts < a.maxRetries { AttemptFails(oracle, a, attempts + 1, calls + 1); }
  }

  /** After the failure of record `i` nothing else fails: one failure, and every record
      but that one is completed. */
  ghost predicate OneFailure(expired: seq<Record>, i: nat, j: nat, p: Progress)
    requires i < j <= |expired|
  {
    && p.status == Passed && |p.failures| == 1
    && forall k :: 0 <= k < j && k != i ==> expired[k].id in p.completed
  }

  lemma FailedTurn(oracle: Oracle, a: Arguments, expired: seq<Record>, i: nat, p: Progress)
    requires i < |expired| && !a.dryRun && a.maxRetries != 0
    requires expired[i].id !in p.completed && Claim(a.context, expired[i].id) !in p.claimed
    requires Attempt(oracle, a.maxRetries, 0, p.calls).outcome.Failed?
    ensures var q := Step(oracle, a, expired, i, p);
            && q.completed == p.completed && q.status == p.status && |q.failures| == |p.failures| + 1
            && q.calls == Attempt(oracle, a.maxRetries, 0, p.calls).calls
  {
    hide Attempt;
  }

  lemma {:induction false} OneFailureLoop(oracle: Oracle, w: World, a: Arguments, expired: seq<Record>, i: nat, j: nat)
    requires i < j <= |expired| && !a.dryRun && a.maxRetries != 0
    requires var p := Loop(oracle, w, a, expired, i);
             && p.status == Passed && p.failures == [] && (forall k :: 0 <= k < i ==> expired[k].id in p.completed)
             && expired[i].id !in p.completed && Claim(a.context, expired[i].id) !in p.claimed
             && (forall n: nat :: p.calls <= n < p.calls + MostCalls(a) ==> oracle(n).Failed?)
             && (forall n: nat :: n >= p.calls + MostCalls(a) ==> oracle(n) == Done)
    ensures var p, q := Loop(oracle, w, a, expired, i), Loop(oracle, w, a, expired, j);
            OneFailure(expired, i, j, q) && q.calls >= p.calls + MostCalls(a)
    decreases j
  {
    hide Step, KeyOf, Attempt, MostCalls;
    if j == i + 1 {
      var p := Loop(oracle, w, a, expired, i);
      AttemptFails(oracle, a, 0, p.calls);
      FailedTurn(oracle, a, expired, i, p);
    } else {
      OneFailureLoop(oracle, w, a, expired, i, j - 1);
      DoneTurn(oracle, a, expired, j - 1, Loop(oracle, w, a, expired, j - 1));
    }
  }

  /** The first of the records with this id. */
  lemma {:induction false} FirstWithId(expired: seq<Record>, i: nat) returns (k: nat)
    requires i < |expired|
    ensures k <= i && expired[k].id == expired[i].id && forall j :: 0 <= j < k ==> expired[j].id != expired[i].id
  {
    k := 0;
    while expired[k].id != expired[i].id
      invariant k <= i && forall j :: 0 <= j < k ==> expired[j].id != expired[i].id
      decreases i - k
    {
      k := k + 1;
    }
  }

  /** Two expired records with one fresh id and a non-zero retry limit: if the first of
      them fails for good and everything else succeeds, the deleted count is one too high. */
  lemma SameIdIsCountedTwice(w: World, a: Arguments) returns (oracle: Oracle)
    requires !a.dryRun && a.maxRetries != 0 && !FreshIdsDistinct(w, a)
    ensures !CountAgrees(oracle, w, a)
  {
    hide Loop, SelectExpired, KeyOf, Attempt, AllDeleted, MostCalls, TotalsCount;
    var expired := SelectExpired(a.records, a.context);
    var i', j :| 0 <= i' < j < |expired| && expired[i'].id == expired[j].id && FreshId(w, a, expired[i'].id);
    var n := |expired|;
    var i := FirstWithId(expired, i');
    var done: Oracle := _ => Done;
    var p := Loop(done, w, a, expired, i);
    DoneLoop(done, w, a, expired, i);
    PassedRunIsSmooth(done, w, a, expired, i);
    FreshUntilReached(done, w, a, expired, i);
    oracle := FailingAt(p.calls, MostCalls(a));
    LoopLocal(done, oracle, w, a, expired, i, p.calls);
    OneFailureLoop(oracle, w, a, expired, i, n);
    var q := Loop(oracle, w, a, expired, n);
    assert expired[j].id in q.completed;
    AllCompleted(expired, n, q.completed);
    TotalsLoop(oracle, w, a, expired, n);
    OneDeletedLess(oracle, w, a, q, n);
  }

  lemma OneDeletedLess(oracle: Oracle, w: World, a: Arguments, q: Progress, n: nat)
    requires TotalsCount(a, q, n) && |q.failures| == 1
    ensures q.totals[AsDeleted] < n
  {
  }

  lemma FreshUntilReached(oracle: Oracle, w: World, a: Arguments, expired: seq<Record>, i: nat)
    requires expired == SelectExpired(a.records, a.context) && i < |expired| && FreshId(w, a, expired[i].id)
    requires forall j :: 0 <= j < i ==> expired[j].id != expired[i].id
    requires !Stopped(Loop(oracle, w, a, expired, i).status)
    ensures var p := Loop(oracle, w, a, expired, i);
            expired[i].id !in p.completed && Claim(a.context, expired[i].id) !in p.claimed
  {
    hide Loop, SelectExpired, KeyOf, Deletes, Restores;
    ProvenanceLoop(oracle, w, a, expired, i);
    var d := LoopJournal(oracle, w, a, expired, i);
    DeletedAreReached(oracle, w, a, expired, i);
  }

  lemma DeletedStep(oracle: Oracle, a: Arguments, expired: seq<Record>, i: nat, p: Progress)
    requires i < |expired|
    ensures var q := Step(oracle, a, expired, i, p); forall x :: x in q.deleted ==> x in p.deleted || x == expired[i].id
  {
    hide Attempt, MarkRest, Restores;
  }

  lemma {:induction false} DeletedAreReached(oracle: Oracle, w: World, a: Arguments, expired: seq<Record>, i: nat)
    requires i <= |expired|
    ensures forall x :: x in Loop(oracle, w, a, expired, i).deleted ==> exists j :: 0 <= j < i && expired[j].id == x
  {
    hide Step, KeyOf;
    if i > 0 {
      DeletedAreReached(oracle, w, a, expired, i - 1);
      DeletedStep(oracle, a, expired, i - 1, Loop(oracle, w, a, expired, i - 1));
    }
  }

  /** The deleted count of a run that is not dry and not stopped is its deleted total,
      whatever the callback does, exactly when it retries nothing and records no failure
      or no fresh id occurs twice. */
  lemma DeletedCountExactly(w: World, a: Arguments)
    requires !a.dryRun
    ensures (forall oracle: Oracle :: CountAgrees(oracle, w, a)) <==> (a.maxRetries == 0 || FreshIdsDistinct(w, a))
  {
    hide CountAgrees, FreshIdsDistinct;
    if a.maxRetries == 0 || FreshIdsDistinct(w, a) {
      forall oracle: Oracle ensures CountAgrees(oracle, w, a) { DeletedCountIsTheTotal(oracle, w, a); }
    } else {
      var oracle := SameIdIsCountedTwice(w, a);
    }
  }
}
