/** One run of the audit retention executor (scripts/enforce_audit_retention.py):
    the meaning of a run as a function of the state before it. Keyed digests are
    taken to be injective, so keys are tuples; the delete callback is an oracle. */
module Retention {
  import opened Wrappers

  datatype Record = Record(id: string, tenant: Option<string>, createdAt: int, category: string)

  /** The tenant, the instant and the retention period that a run works with, and the
      secret its identifiers are keyed with: its own, or else that of the process. */
  datatype Context = Context(tenant: string, now: int, days: int, secret: string)

  datatype ClaimKey = Claim(context: Context, id: string)

  /** A run is identified by its given id, or else by what it is about to do. */
  datatype RunKey =
    | Named(secret: string, runId: string, dryRun: bool)
    | Derived(secret: string, tenant: string, now: int, callback: string, ids: seq<string>, dryRun: bool)

  /** What one call of the delete callback does: it deletes, raises an ordinary
      exception, or is interrupted. Only the first has an effect on the store. */
  datatype Outcome = Done | Failed(reason: string) | Interrupted(reason: string)

  type Oracle = nat -> Outcome

  datatype Operation = Deleted(id: string) | Restored(id: string)

  datatype Status = DryRun | Passed | RolledBack | Incomplete | PartialFailure

  /** The labels under which a run counts records. */
  datatype Label = AsCandidate | AsDryRun | AsDeleted | AsFailed | AsNotProcessed

  /** `counts_by_category[category][tag]` is the multiplicity of `Mark(category, tag)`. */
  datatype Mark = Mark(category: string, tag: Label)

  type Tally = multiset<Mark>

  datatype Failure = Failure(category: string, reason: string)

  datatype Arguments = Arguments(
    records: seq<Record>,
    context: Context,
    dryRun: bool,
    maxRetries: int,
    runId: Option<string>,
    callback: string)

  /** `_RUN_STATE`, `_CLAIMED_RECORDS`, the successful store operations so far,
      and the number of delete calls so far. */
  datatype World = World(
    runs: map<RunKey, set<string>>,
    claimed: set<ClaimKey>,
    operations: seq<Operation>,
    calls: nat)

  datatype Report = Report(
    candidateCount: nat,
    deletedCount: nat,
    failedCount: nat,
    retryCount: nat,
    byCategory: Tally,
    totals: multiset<Label>,
    status: Status,
    reason: Option<string>,
    dryRun: bool)

  const SECONDS_PER_DAY := 86400

  function SelectExpired(records: seq<Record>, c: Context): (r: seq<Record>)
    ensures forall x :: x in r <==> x in records && x.tenant == Some(c.tenant) && x.createdAt < c.now - c.days * SECONDS_PER_DAY
  {
    if records == [] then []
    else
      var last := records[|records| - 1];
      SelectExpired(records[..|records| - 1], c) +
      (if last.tenant == Some(c.tenant) && last.createdAt < c.now - c.days * SECONDS_PER_DAY then [last] else [])
  }

  function Ids(records: seq<Record>): seq<string> {
    seq(|records|, i requires 0 <= i < |records| => records[i].id)
  }

  /** An empty run id counts as none. */
  function KeyOf(a: Arguments, expired: seq<Record>): RunKey {
    if a.runId.Some? && a.runId.value != "" then Named(a.context.secret, a.runId.value, a.dryRun)
    else Derived(a.context.secret, a.context.tenant, a.context.now, a.callback, Ids(expired), a.dryRun)
  }

  // ---- counting ----

  function MarkLeft(m: Tally, c: string, interrupted: bool): Tally {
    (if interrupted then m else m + multiset{Mark(c, AsCandidate)}) + multiset{Mark(c, AsNotProcessed)}
  }

  /** The records from `i` up to `j` after an interruption at `i`: all are left
      unprocessed, and all but the first are candidates not counted before. */
  function MarkRest(m: Tally, expired: seq<Record>, i: nat, j: nat): Tally
    requires i <= j <= |expired|
    decreases j
  {
    if j == i then m
    else
      MarkLeft(MarkRest(m, expired, i, j - 1), expired[j - 1].category, j - 1 == i)
  }

  // ---- one record ----

  /** The state that the loop over expired records carries. */
  datatype Progress = Progress(
    completed: set<string>,
    claimed: set<ClaimKey>,
    claimedHere: set<ClaimKey>,
    deleted: seq<string>,
    failures: seq<Failure>,
    retries: nat,
    byCategory: Tally,
    totals: multiset<Label>,
    status: Status,
    reason: Option<string>,
    operations: seq<Operation>,
    calls: nat)

  predicate Stopped(s: Status) {
    s == RolledBack || s == Incomplete
  }

  datatype Attempted = Attempted(outcome: Outcome, calls: nat, retried: nat)

  /** Call the callback until it does not fail or the retries are used up. */
  function Attempt(oracle: Oracle, maxRetries: int, attempts: nat, calls: nat): Attempted
    decreases maxRetries - attempts
  {
    if oracle(calls).Failed? && attempts < maxRetries then
      var rest := Attempt(oracle, maxRetries, attempts + 1, calls + 1);
      rest.(retried := rest.retried + 1)
    else
      Attempted(oracle(calls), calls + 1, 0)
  }

  function Restores(ids: seq<string>): seq<Operation> {
    if ids == [] then [] else [Restored(ids[|ids| - 1])] + Restores(ids[..|ids| - 1])
  }

  function Deletes(ids: seq<string>): seq<Operation> {
    if ids == [] then [] else Deletes(ids[..|ids| - 1]) + [Deleted(ids[|ids| - 1])]
  }

  /** Count one record of category `c` under `tag`, there and in the totals. */
  function Count(p: Progress, c: string, tag: Label): Progress {
    p.(byCategory := p.byCategory + multiset{Mark(c, tag)}, totals := p.totals + multiset{tag})
  }

  function Complete(p: Progress, key: ClaimKey, c: string): Progress {
    Count(p.(completed := p.completed + {key.id}, claimed := p.claimed + {key},
             claimedHere := p.claimedHere + {key}, deleted := p.deleted + [key.id],
             operations := p.operations + [Deleted(key.id)]), c, AsDeleted)
  }

  function RollBack(p: Progress, reason: string): Progress {
    p.(completed := p.completed - (set x | x in p.deleted), claimed := p.claimed - p.claimedHere,
       operations := p.operations + Restores(p.deleted), deleted := [], status := RolledBack, reason := Some(reason))
  }

  /** The outcome of the callback for a record that was neither completed nor claimed. */
  function Settle(a: Arguments, expired: seq<Record>, i: nat, p: Progress, outcome: Outcome): Progress
    requires i < |expired|
  {
    var c := expired[i].category;
    match outcome
    case Done => Complete(p, Claim(a.context, expired[i].id), c)
    case Failed(reason) =>
      if a.maxRetries != 0 then Count(p.(failures := p.failures + [Failure(c, reason)]), c, AsFailed)
      else RollBack(p, reason)
    case Interrupted(reason) =>
      p.(status := Incomplete, reason := Some(reason),
         byCategory := MarkRest(p.byCategory, expired, i, |expired|))
  }

  function Step(oracle: Oracle, a: Arguments, expired: seq<Record>, i: nat, p: Progress): Progress
    requires i < |expired|
  {
    var id, c := expired[i].id, expired[i].category;
    var q := p.(byCategory := p.byCategory + multiset{Mark(c, AsCandidate)});
    if a.dryRun then Count(q, c, AsDryRun)
    else if id in q.completed then Count(q, c, AsDeleted)
    else if Claim(a.context, id) in q.claimed then Count(q.(completed := q.completed + {id}), c, AsDeleted)
    else
      var t := Attempt(oracle, a.maxRetries, 0, q.calls);
      Settle(a, expired, i, q.(calls := t.calls, retries := q.retries + t.retried), t.outcome)
  }

  function Start(w: World, a: Arguments, key: RunKey): Progress {
    Progress(if key in w.runs then w.runs[key] else {}, w.claimed, {}, [], [], 0, multiset{}, multiset{},
             if a.dryRun then DryRun else Passed, None, w.operations, w.calls)
  }

  /** The loop after its first `i` turns; a stopped loop stays where it is. */
  function Loop(oracle: Oracle, w: World, a: Arguments, expired: seq<Record>, i: nat): Progress
    requires i <= |expired|
  {
    if i == 0 then Start(w, a, KeyOf(a, expired))
    else
      var p := Loop(oracle, w, a, expired, i - 1);
      if Stopped(p.status) then p else Step(oracle, a, expired, i - 1, p)
  }

  // ---- the whole run ----

  /** How many of the first `n` records are completed. */
  function CountCompleted(expired: seq<Record>, n: nat, completed: set<string>): nat
    requires n <= |expired|
  {
    if n == 0 then 0
    else CountCompleted(expired, n - 1, completed) + (if expired[n - 1].id in completed then 1 else 0)
  }

  function FinalStatus(p: Progress): Status {
    if p.failures != [] then PartialFailure else p.status
  }

  function ReportOf(a: Arguments, expired: seq<Record>, p: Progress): Report {
    var status := FinalStatus(p);
    Report(|expired|,
           if status == Passed || status == PartialFailure then CountCompleted(expired, |expired|, p.completed) else 0,
           |p.failures|, p.retries, p.byCategory, p.totals, status,
           if p.failures != [] then Some("one_or_more_records_failed") else p.reason, a.dryRun)
  }

  function After(w: World, key: RunKey, p: Progress): World {
    World(if Stopped(FinalStatus(p)) then w.runs - {key} else w.runs[key := p.completed],
          p.claimed, p.operations, p.calls)
  }

  function Final(oracle: Oracle, w: World, a: Arguments): Progress {
    var expired := SelectExpired(a.records, a.context);
    Loop(oracle, w, a, expired, |expired|)
  }

  /** What `execute_retention` reports, and the world it leaves behind. */
  function RunReport(oracle: Oracle, w: World, a: Arguments): Report {
    ReportOf(a, SelectExpired(a.records, a.context), Final(oracle, w, a))
  }

  function RunWorld(oracle: Oracle, w: World, a: Arguments): World {
    After(w, KeyOf(a, SelectExpired(a.records, a.context)), Final(oracle, w, a))
  }
}
