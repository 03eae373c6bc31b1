/** The disaster-recovery restore check (scripts/dr_sla_monitoring.py) and chains of
    its reports, each handed to the next run. Times are seconds; the tenant pattern
    and the timestamp parser are parameters; redaction leaves these fields alone. */
module DrSla {
  import opened Wrappers
  import opened StringOrder
  import opened IsoStamps

  datatype Backup = Backup(tenant: Option<string>, usable: bool, id: Option<string>, createdAt: Option<string>)

  type Parser = string -> Option<real>

  datatype Config = Config(rpoMinutes: int, rtoMinutes: int, dedupMinutes: int, parse: Parser)

  datatype Run = Run(
    tenant: string,
    tenantValid: bool,
    backups: seq<Backup>,
    now: real,
    requested: Option<string>,
    error: Option<string>,
    sourceLastWal: Option<real>,
    domainRows: int)

  datatype Status = Success | Failure | Unknown | Noop | Running

  datatype Alert =
    | RestoreRejected
    | NoUsableBackup
    | IncompletePreviousRun
    | RpoBreached
    | RtoBreached
    | RestoreFailed

  datatype Report = Report(
    status: Status,
    duration: Option<real>,
    backupAge: Option<real>,
    backupId: Option<string>,
    replayLag: Option<real>,
    bytesRestored: nat,
    domainRows: int,
    alerts: seq<Alert>,
    lastAlertAt: Option<real>)

  // ---- choosing a backup ----

  predicate Owns(tenant: string, b: Backup) {
    b.tenant == Some(tenant) && b.usable
  }

  function Owned(tenant: string, backups: seq<Backup>): (r: seq<Backup>)
    ensures forall b :: b in r <==> b in backups && Owns(tenant, b)
  {
    if backups == [] then []
    else (if Owns(tenant, backups[0]) then [backups[0]] else []) + Owned(tenant, backups[1..])
  }

  function CreatedKey(b: Backup): string {
    if b.createdAt.Some? then b.createdAt.value else ""
  }

  /** `max(owned, key=created_at)`: the first of the greatest, by string order. */
  function Latest(owned: seq<Backup>): (b: Backup)
    requires owned != []
    ensures b in owned && forall x :: x in owned ==> Leq(CreatedKey(x), CreatedKey(b))
  {
    if |owned| == 1 then
      LeqReflexive(CreatedKey(owned[0]));
      owned[0]
    else
      var rest := Latest(owned[..|owned| - 1]);
      var last := owned[|owned| - 1];
      assert owned == owned[..|owned| - 1] + [last];
      LeqTotal(CreatedKey(rest), CreatedKey(last));
      LeqReflexive(CreatedKey(last));
      if Leq(CreatedKey(last), CreatedKey(rest)) then rest
      else
        LatestStillGreatest(owned[..|owned| - 1], rest, last);
        last
  }

  lemma LatestStillGreatest(owned: seq<Backup>, best: Backup, last: Backup)
    requires forall x :: x in owned ==> Leq(CreatedKey(x), CreatedKey(best))
    requires Leq(CreatedKey(best), CreatedKey(last))
    ensures forall x :: x in owned ==> Leq(CreatedKey(x), CreatedKey(last))
  {
    forall x | x in owned ensures Leq(CreatedKey(x), CreatedKey(last)) {
      LeqTransitive(CreatedKey(x), CreatedKey(best), CreatedKey(last));
    }
  }

  /** Of the backups with the greatest timestamp the first is taken. */
  lemma {:induction false} LatestIsFirst(owned: seq<Backup>) returns (i: nat)
    requires owned != []
    ensures i < |owned| && owned[i] == Latest(owned)
    ensures forall j :: 0 <= j < i ==> CreatedKey(owned[j]) != CreatedKey(Latest(owned))
  {
    hide CreatedKey, Leq;
    if |owned| == 1 {
      i := 0;
    } else {
      var init, last := owned[..|owned| - 1], owned[|owned| - 1];
      if Latest(owned) == Latest(init) {
        i := LatestIsFirst(init);
      } else {
        i := |owned| - 1;
        forall j | 0 <= j < i ensures CreatedKey(owned[j]) != CreatedKey(last) {
          assert owned[j] == init[j] && init[j] in init;
          assert Leq(CreatedKey(init[j]), CreatedKey(Latest(init)));
        }
      }
    }
  }

  datatype Pick = Rejected | NothingUsable | Picked(backup: Backup)

  function FirstWithId(owned: seq<Backup>, id: string): (r: Option<Backup>)
    ensures r.Some? ==> r.value in owned && r.value.id == Some(id)
    ensures r.None? <==> forall b :: b in owned ==> b.id != Some(id)
  {
    if owned == [] then None
    else if owned[0].id == Some(id) then Some(owned[0])
    else FirstWithId(owned[1..], id)
  }

  /** An empty requested id counts as none. */
  predicate Requests(r: Run) {
    r.requested.Some? && r.requested.value != ""
  }

  function PickUsableBackup(r: Run): (p: Pick)
    ensures p.Picked? ==> p.backup in r.backups && Owns(r.tenant, p.backup)
    ensures p.Picked? && Requests(r) ==> p.backup.id == r.requested
    ensures p.Picked? && !Requests(r) ==>
              forall b :: b in r.backups && Owns(r.tenant, b) ==> Leq(CreatedKey(b), CreatedKey(p.backup))
    ensures p.Rejected? <==> Requests(r) && forall b :: b in r.backups && Owns(r.tenant, b) ==> b.id != r.requested
    ensures p.NothingUsable? <==> !Requests(r) && forall b :: b in r.backups ==> !Owns(r.tenant, b)
  {
    var owned := Owned(r.tenant, r.backups);
    if Requests(r) then
      var found := FirstWithId(owned, r.requested.value);
      if found.Some? then Picked(found.value) else Rejected
    else if owned == [] then NothingUsable
    else
      assert owned[0] in owned;
      Picked(Latest(owned))
  }

  lemma {:induction false} OwnedAt(tenant: string, backups: seq<Backup>, k: nat) returns (i: nat)
    requires k < |Owned(tenant, backups)|
    ensures i < |backups| && backups[i] == Owned(tenant, backups)[k]
    ensures forall b :: b in backups[..i] && Owns(tenant, b) ==> b in Owned(tenant, backups)[..k]
  {
    hide Owns;
    var rest, own := backups[1..], Owned(tenant, backups);
    if Owns(tenant, backups[0]) && k == 0 {
      i := 0;
    } else {
      var l := if Owns(tenant, backups[0]) then k - 1 else k;
      var j := OwnedAt(tenant, rest, l);
      i := j + 1;
      assert backups[..i] == [backups[0]] + rest[..j];
      assert own[..k] == (if Owns(tenant, backups[0]) then [backups[0]] else []) + Owned(tenant, rest)[..l];
    }
  }

  lemma {:induction false} RequestedAt(owned: seq<Backup>, id: string) returns (k: nat)
    requires FirstWithId(owned, id).Some?
    ensures k < |owned| && FirstWithId(owned, id).value == owned[k] && forall b :: b in owned[..k] ==> b.id != Some(id)
  {
    if owned[0].id == Some(id) {
      k := 0;
    } else {
      var j := RequestedAt(owned[1..], id);
      k := j + 1;
      assert owned[..k] == [owned[0]] + owned[1..][..j];
    }
  }

  /** Where several usable backups of the tenant carry the requested id, or the greatest
      timestamp, the first in the inventory is picked. */
  lemma PickIsFirst(r: Run) returns (i: nat)
    requires PickUsableBackup(r).Picked?
    ensures i < |r.backups| && r.backups[i] == PickUsableBackup(r).backup
    ensures forall b :: b in r.backups[..i] && Owns(r.tenant, b) ==>
              if Requests(r) then b.id != r.requested else CreatedKey(b) != CreatedKey(PickUsableBackup(r).backup)
  {
    hide Owned, Owns, Latest, FirstWithId, CreatedKey;
    var owned, k: nat := Owned(r.tenant, r.backups), 0;
    if Requests(r) {
      k := RequestedAt(owned, r.requested.value);
    } else {
      k := LatestIsFirst(owned);
      assert forall b :: b in owned[..k] ==> CreatedKey(b) != CreatedKey(owned[k]);
    }
    i := OwnedAt(r.tenant, r.backups, k);
  }

  // ---- measuring ----

  function CreatedTime(b: Backup, c: Config): Option<real> {
    if b.createdAt.Some? then c.parse(b.createdAt.value) else None
  }

  function AtLeastZero(x: real): real {
    if x < 0.0 then 0.0 else x
  }

  function Age(r: Run, b: Backup, c: Config): Option<real> {
    var t := CreatedTime(b, c);
    if t.Some? then Some(AtLeastZero(r.now - t.value)) else None
  }

  function Lag(r: Run, b: Backup, c: Config): Option<real> {
    var t := CreatedTime(b, c);
    if r.sourceLastWal.Some? && t.Some? then Some(AtLeastZero(r.sourceLastWal.value - t.value)) else None
  }

  predicate Exceeds(x: Option<real>, minutes: int) {
    x.Some? && x.value > (minutes * 60) as real
  }

  /** An empty error text counts as none. */
  predicate HasError(r: Run) {
    r.error.Some? && r.error.value != ""
  }

  // ---- the report ----

  /** Was the previous run left incomplete? */
  predicate DetectPreviousRun(previous: Option<Report>) {
    && previous.Some?
    && (|| previous.value.status == Running
        || (previous.value.status == Success && previous.value.duration.Some? && previous.value.replayLag.None?))
  }

  function DedupSeconds(c: Config): real {
    (c.dedupMinutes * 60) as real
  }

  function LastAlert(previous: Option<Report>): Option<real> {
    if previous.Some? then previous.value.lastAlertAt else None
  }

  predicate Suppressed(previous: Option<Report>, now: real, c: Config) {
    LastAlert(previous).Some? && now - LastAlert(previous).value < DedupSeconds(c)
  }

  /** The alerts published and the alert time handed on, for these conditions. */
  function DedupAlerts(conditions: seq<Alert>, previous: Option<Report>, now: real, c: Config): (seq<Alert>, Option<real>) {
    if conditions == [] then ([], None)
    else if Suppressed(previous, now, c) then ([], LastAlert(previous))
    else (conditions, Some(now))
  }

  function When(b: bool, a: Alert): seq<Alert> {
    if b then [a] else []
  }

  /** What there is to alert about, before any of it is suppressed. */
  function Conditions(r: Run, previous: Option<Report>, c: Config): seq<Alert> {
    if !r.tenantValid then []
    else
      match PickUsableBackup(r)
      case Rejected => [RestoreRejected]
      case NothingUsable => [NoUsableBackup]
      case Picked(b) =>
        When(DetectPreviousRun(previous), IncompletePreviousRun) +
        When(Exceeds(Age(r, b, c), c.rpoMinutes), RpoBreached) +
        When(Exceeds(Lag(r, b, c), c.rtoMinutes), RtoBreached) +
        When(HasError(r), RestoreFailed)
  }

  function StatusOf(r: Run, previous: Option<Report>, b: Backup, c: Config): Status {
    if DetectPreviousRun(previous) then Unknown
    else if HasError(r) || Exceeds(Age(r, b, c), c.rpoMinutes) || Exceeds(Lag(r, b, c), c.rtoMinutes) then Failure
    else if r.domainRows == 0 then Noop
    else Success
  }

  /** What `restore_check` publishes. */
  function ReportOf(r: Run, previous: Option<Report>, c: Config): Report {
    var (alerts, last) := DedupAlerts(Conditions(r, previous, c), previous, r.now, c);
    if !r.tenantValid || !PickUsableBackup(r).Picked? then
      Report(Failure, None, None, None, None, 0, 0, alerts, last)
    else
      var b := PickUsableBackup(r).backup;
      Report(StatusOf(r, previous, b, c), Some(1.0), Age(r, b, c), b.id, Lag(r, b, c),
             if r.domainRows == 0 then 0 else 1, r.domainRows, alerts, last)
  }

  lemma NothingToSay(previous: Option<Report>, now: real, c: Config)
    ensures DedupAlerts([], previous, now, c) == ([], None)
  {
  }

  /** The steps of `restore_check`. */
  method RestoreCheck(r: Run, previous: Option<Report>, c: Config) returns (report: Report)
    ensures report == ReportOf(r, previous, c)
  {
    hide PickUsableBackup, DetectPreviousRun, HasError, Age, Lag, DedupAlerts, When;
    if !r.tenantValid {
      NothingToSay(previous, r.now, c);
      return Report(Failure, None, None, None, None, 0, 0, [], None);
    }
    var incomplete := DetectPreviousRun(previous);
    var pick := PickUsableBackup(r);
    if pick.Rejected? {
      var (alerts, last) := DedupAlerts([RestoreRejected], previous, r.now, c);
      return Report(Failure, None, None, None, None, 0, 0, alerts, last);
    }
    if pick.NothingUsable? {
      var (alerts, last) := DedupAlerts([NoUsableBackup], previous, r.now, c);
      return Report(Failure, None, None, None, None, 0, 0, alerts, last);
    }
    var age, lag := Measure(r, pick.backup, c);
    var rpoBreached := age.Some? && age.value > (c.rpoMinutes * 60) as real;
    var rtoBreached := lag.Some? && lag.value > (c.rtoMinutes * 60) as real;
    var alerts := GatherAlerts(incomplete, rpoBreached, rtoBreached, HasError(r));
    var (published, last) := DedupAlerts(alerts, previous, r.now, c);
    var status := Success;
    if incomplete {
      status := Unknown;
    } else if HasError(r) || rpoBreached || rtoBreached {
      status := Failure;
    } else if r.domainRows == 0 {
      status := Noop;
    }
    report := Report(status, Some(1.0), age, pick.backup.id, lag, if r.domainRows == 0 then 0 else 1,
                     r.domainRows, published, last);
  }

  method GatherAlerts(incomplete: bool, rpoBreached: bool, rtoBreached: bool, failed: bool)
    returns (alerts: seq<Alert>)
    ensures alerts == When(incomplete, IncompletePreviousRun) + When(rpoBreached, RpoBreached)
                      + When(rtoBreached, RtoBreached) + When(failed, RestoreFailed)
  {
    alerts := [];
    if incomplete { alerts := alerts + [IncompletePreviousRun]; }
    assert alerts == When(incomplete, IncompletePreviousRun);
    if rpoBreached { alerts := alerts + [RpoBreached]; }
    assert alerts == When(incomplete, IncompletePreviousRun) + When(rpoBreached, RpoBreached);
    if rtoBreached { alerts := alerts + [RtoBreached]; }
    if failed { alerts := alerts + [RestoreFailed]; }
  }

  /** The age of the backup and its lag behind the source; each floored at zero. */
  method Measure(r: Run, b: Backup, c: Config) returns (age: Option<real>, lag: Option<real>)
    ensures age == Age(r, b, c) && lag == Lag(r, b, c)
  {
    var created := CreatedTime(b, c);
    age, lag := None, None;
    if created.Some? {
      age := Some(AtLeastZero(r.now - created.value));
    }
    if r.sourceLastWal.Some? && created.Some? {
      lag := Some(AtLeastZero(r.sourceLastWal.value - created.value));
    }
  }

  // ---- what a report says ----

  /** Something to restore was found. */
  ghost predicate Selects(r: Run) {
    r.tenantValid && PickUsableBackup(r).Picked?
  }

  /** When the picked backup was made, if its timestamp can be read. */
  ghost function Made(r: Run, c: Config): Option<real>
    requires Selects(r)
  {
    var stamp := PickUsableBackup(r).backup.createdAt;
    if stamp.Some? then c.parse(stamp.value) else None
  }

  ghost function Elapsed(from: real, to: real): real {
    if to > from then to - from else 0.0
  }

  /** More time than allowed lies between the two, where both are known. */
  ghost predicate Overdue(from: Option<real>, to: Option<real>, minutes: int) {
    from.Some? && to.Some? && Elapsed(from.value, to.value) > 60.0 * minutes as real
  }

  ghost predicate Unfinished(previous: Option<Report>) {
    match previous
    case None => false
    case Some(p) => p.status == Running || (p.status == Success && p.duration != None && p.replayLag == None)
  }

  ghost predicate Errs(r: Run) {
    r.error != None && r.error != Some("")
  }

  ghost predicate Late(r: Run, c: Config)
    requires Selects(r)
  {
    Overdue(Made(r, c), Some(r.now), c.rpoMinutes) || Overdue(Made(r, c), r.sourceLastWal, c.rtoMinutes)
  }

  lemma OverdueMeans(r: Run, c: Config)
    requires Selects(r)
    ensures var b := PickUsableBackup(r).backup;
            && (Exceeds(Age(r, b, c), c.rpoMinutes) <==> Overdue(Made(r, c), Some(r.now), c.rpoMinutes))
            && (Exceeds(Lag(r, b, c), c.rtoMinutes) <==> Overdue(Made(r, c), r.sourceLastWal, c.rtoMinutes))
  {
    hide PickUsableBackup;
    assert forall n: int :: (n * 60) as real == 60.0 * n as real;
  }

  /** The status of every report, from the run, the report before it and the time the
      picked backup was made. */
  lemma StatusIsExact(r: Run, previous: Option<Report>, c: Config)
    ensures var s := ReportOf(r, previous, c).status;
            && (s == Unknown <==> Selects(r) && Unfinished(previous))
            && (s == Failure <==> !Selects(r) || (!Unfinished(previous) && (Errs(r) || Late(r, c))))
            && (s == Noop <==> Selects(r) && !Unfinished(previous) && !Errs(r) && !Late(r, c) && r.domainRows == 0)
            && (s == Success <==> Selects(r) && !Unfinished(previous) && !Errs(r) && !Late(r, c) && r.domainRows != 0)
  {
    hide PickUsableBackup, Age, Lag, Overdue, Made, Exceeds, Conditions, DedupAlerts;
    if Selects(r) { OverdueMeans(r, c); }
  }

  /** Why a run would raise an alert. */
  ghost predicate Cause(a: Alert, r: Run, previous: Option<Report>, c: Config) {
    match a
    case RestoreRejected => r.tenantValid && PickUsableBackup(r).Rejected?
    case NoUsableBackup => r.tenantValid && PickUsableBackup(r).NothingUsable?
    case IncompletePreviousRun => Selects(r) && Unfinished(previous)
    case RpoBreached => Selects(r) && Overdue(Made(r, c), Some(r.now), c.rpoMinutes)
    case RtoBreached => Selects(r) && Overdue(Made(r, c), r.sourceLastWal, c.rtoMinutes)
    case RestoreFailed => Selects(r) && Errs(r)
  }

  lemma WhenCounts(b: bool, x: Alert, a: Alert)
    ensures multiset(When(b, x))[a] == if b && x == a then 1 else 0
  {
  }

  lemma CountsAdd(x: seq<Alert>, y: seq<Alert>, a: Alert)
    ensures multiset(x + y)[a] == multiset(x)[a] + multiset(y)[a]
  {
  }

  lemma FourCounts(w: bool, x: bool, y: bool, z: bool, a: Alert)
    ensures multiset(When(w, IncompletePreviousRun) + When(x, RpoBreached) + When(y, RtoBreached) + When(z, RestoreFailed))[a]
         == (match a
             case IncompletePreviousRun => if w then 1 else 0
             case RpoBreached => if x then 1 else 0
             case RtoBreached => if y then 1 else 0
             case RestoreFailed => if z then 1 else 0
             case _ => 0)
  {
    hide When;
    var p, q, s, t := When(w, IncompletePreviousRun), When(x, RpoBreached), When(y, RtoBreached), When(z, RestoreFailed);
    WhenCounts(w, IncompletePreviousRun, a);
    WhenCounts(x, RpoBreached, a);
    WhenCounts(y, RtoBreached, a);
    WhenCounts(z, RestoreFailed, a);
    CountsAdd(p, q, a);
    CountsAdd(p + q, s, a);
    CountsAdd(p + q + s, t, a);
  }

  lemma NoCounts(a: Alert)
    ensures multiset(When(false, a)) == multiset{} && When(false, a) == [] && When(true, a) == [a]
  {
  }

  /** Each alert is a condition, once, exactly when its cause is there. */
  lemma ConditionsAreExact(a: Alert, r: Run, previous: Option<Report>, c: Config)
    ensures multiset(Conditions(r, previous, c))[a] == if Cause(a, r, previous, c) then 1 else 0
  {
    hide PickUsableBackup, Age, Lag, Overdue, Made, Exceeds, When, Errs, HasError, Unfinished, DetectPreviousRun;
    SameReading(r, previous);
    NoCounts(a);
    NoCounts(RestoreRejected);
    NoCounts(NoUsableBackup);
    WhenCounts(true, RestoreRejected, a);
    WhenCounts(true, NoUsableBackup, a);
    if Selects(r) {
      OverdueMeans(r, c);
      var b := PickUsableBackup(r).backup;
      FourCounts(DetectPreviousRun(previous), Exceeds(Age(r, b, c), c.rpoMinutes), Exceeds(Lag(r, b, c), c.rtoMinutes), HasError(r), a);
    }
  }

  lemma SameReading(r: Run, previous: Option<Report>)
    ensures (HasError(r) <==> Errs(r)) && (DetectPreviousRun(previous) <==> Unfinished(previous))
  {
  }

  /** What is published of the backup: its id, its age and its lag behind the source, each
      at least zero and only where both ends are known; and nothing if none was picked. */
  lemma MeasurementsAreExact(r: Run, previous: Option<Report>, c: Config)
    ensures var report := ReportOf(r, previous, c);
            if Selects(r) then
              && report.backupId == PickUsableBackup(r).backup.id && report.domainRows == r.domainRows
              && report.duration == Some(1.0) && (report.bytesRestored == 0 <==> r.domainRows == 0) && report.bytesRestored <= 1
              && report.backupAge == (if Made(r, c).None? then None else Some(Elapsed(Made(r, c).value, r.now)))
              && report.replayLag == (if Made(r, c).None? || r.sourceLastWal.None? then None
                                      else Some(Elapsed(Made(r, c).value, r.sourceLastWal.value)))
            else
              && report.backupId == None && report.duration == None && report.backupAge == None && report.replayLag == None
              && report.bytesRestored == 0 && report.domainRows == 0
  {
    hide PickUsableBackup, Conditions, DedupAlerts;
  }

  // ---- what success means ----

  /** A run reports success exactly when the tenant is valid, the previous run was
      complete, a backup it owns was picked, no error was passed, rows came back, and
      neither the age nor the lag, where measured, exceeds its objective. */
  lemma SuccessMeans(r: Run, previous: Option<Report>, c: Config)
    ensures ReportOf(r, previous, c).status == Success
       <==> && r.tenantValid && !DetectPreviousRun(previous) && PickUsableBackup(r).Picked?
            && !HasError(r) && r.domainRows != 0
            && var b := PickUsableBackup(r).backup;
               !Exceeds(Age(r, b, c), c.rpoMinutes) && !Exceeds(Lag(r, b, c), c.rtoMinutes)
    ensures ReportOf(r, previous, c).status == Success ==>
              && ReportOf(r, previous, c).bytesRestored == 1 && ReportOf(r, previous, c).alerts == []
              && ReportOf(r, previous, c).lastAlertAt == None
  {
  }

  /** A success proves the recovery point only if the backup's timestamp parses:
      otherwise it is published with no age at all. */
  lemma SuccessMeasuresAgeIffStampParses(r: Run, previous: Option<Report>, c: Config)
    requires ReportOf(r, previous, c).status == Success
    ensures var report, b := ReportOf(r, previous, c), PickUsableBackup(r).backup;
            && (report.backupAge.Some? <==> CreatedTime(b, c).Some?)
            && (report.backupAge.Some? ==> 0.0 <= report.backupAge.value <= (c.rpoMinutes * 60) as real)
            && (report.replayLag.Some? <==> CreatedTime(b, c).Some? && r.sourceLastWal.Some?)
            && (report.replayLag.Some? ==> 0.0 <= report.replayLag.value <= (c.rtoMinutes * 60) as real)
  {
    SuccessMeans(r, previous, c);
  }

  /** A success that proves nothing about the recovery point: one usable backup, whose
      timestamp is missing or does not parse, and no objective can be exceeded. */
  lemma SuccessWithoutAge(stamp: Option<string>, c: Config) returns (r: Run)
    requires stamp.Some? ==> c.parse(stamp.value).None?
    ensures r.backups == [Backup(Some(r.tenant), true, Some("backup"), stamp)]
    ensures ReportOf(r, None, c).status == Success && ReportOf(r, None, c).backupAge.None?
  {
    var b := Backup(Some("tenant"), true, Some("backup"), stamp);
    r := Run("tenant", true, [b], 0.0, None, None, None, 1);
    assert r.backups[0] == b && Owns(r.tenant, b);
    assert PickUsableBackup(r) == Picked(b);
    SuccessMeans(r, None, c);
  }

  // ---- is the picked backup the newest? ----

  /** The parser reads what `isoformat` writes, to the microsecond. */
  ghost predicate ReadsStamps(c: Config) {
    forall t :: Stamp(t) ==> c.parse(t) == Some(Instant(t) as real / 1000000.0)
  }

  /** The tenant's usable backups carry no timestamp or one written in one of these zones. */
  ghost predicate StampedIn(r: Run, zones: set<string>) {
    forall b | b in r.backups && Owns(r.tenant, b) && b.createdAt.Some? ::
      Stamp(b.createdAt.value) && ZoneOf(b.createdAt.value) in zones
  }

  /** If a backup is picked, its time can be read wherever that of any usable backup of
      the tenant can, and none of them is younger. */
  ghost predicate PicksNewest(r: Run, c: Config) {
    PickUsableBackup(r).Picked? ==>
      forall x | x in r.backups && Owns(r.tenant, x) && CreatedTime(x, c).Some? ::
        var t := CreatedTime(PickUsableBackup(r).backup, c);
        t.Some? && CreatedTime(x, c).value <= t.value
  }

  /** With all timestamps in one zone, the backup picked is the newest. */
  lemma PickedIsNewest(r: Run, c: Config, zone: string)
    requires !Requests(r) && ReadsStamps(c) && StampedIn(r, {zone})
    ensures PicksNewest(r, c)
  {
    hide Stamp, Instant, ZoneOf, Leq;
    if PickUsableBackup(r).Picked? {
      var b := PickUsableBackup(r).backup;
      forall x | x in r.backups && Owns(r.tenant, x) && CreatedTime(x, c).Some?
        ensures CreatedTime(b, c).Some? && CreatedTime(x, c).value <= CreatedTime(b, c).value
      {
        assert Leq(CreatedKey(x), CreatedKey(b));
        StampIsNotEmpty(x.createdAt.value, CreatedKey(b));
        StampsAgree(x.createdAt.value, b.createdAt.value);
      }
    }
  }

  lemma StampIsNotEmpty(t: string, u: string)
    requires Stamp(t) && Leq(t, u)
    ensures u != ""
  {
  }

  function Example(first: string, second: string): Run {
    Run("tenant", true,
        [Backup(Some("tenant"), true, Some("one"), Some(first)), Backup(Some("tenant"), true, Some("two"), Some(second))],
        0.0, None, None, None, 1)
  }

  /** An older backup whose timestamp sorts after that of the newer one is picked. */
  lemma OlderIsPicked(a: string, b: string, c: Config)
    requires Stamp(a) && Stamp(b) && !Leq(b, a) && Instant(b) < Instant(a) && ReadsStamps(c)
    ensures !Requests(Example(a, b)) && !PicksNewest(Example(a, b), c)
  {
    hide Stamp, Instant, Leq;
    var r := Example(a, b);
    assert Owns(r.tenant, r.backups[0]) && Owns(r.tenant, r.backups[1]);
    assert r.backups[1] in r.backups && r.backups[0] in r.backups;
    var p := PickUsableBackup(r);
    assert p.Picked?;
    assert Leq(CreatedKey(r.backups[1]), CreatedKey(p.backup));
    assert p.backup == r.backups[1];
  }

  /** Exactly when the pick is the newest, whatever the inventory: when the zones that
      may appear on the tenant's timestamps are one zone. */
  lemma NewestIffOneZone(zones: set<string>, c: Config)
    requires ReadsStamps(c) && forall z :: z in zones ==> Zone(z)
    ensures (forall r :: !Requests(r) && StampedIn(r, zones) ==> PicksNewest(r, c))
       <==> (forall y, z :: y in zones && z in zones ==> y == z)
  {
    hide Stamp, Instant, ZoneOf, Leq, Zone, Offset, PicksNewest, PickUsableBackup;
    if y, z :| y in zones && z in zones && y != z {
      if Offset(y) == Offset(z) { OffsetDetermines(y, z); assert false; }
      var w, e := if Offset(y) < Offset(z) then y else z, if Offset(y) < Offset(z) then z else y;
      EasterlyStampIsOlder(w, e);
      OlderIsPicked(MIDNIGHT + w, SECOND_LATER + e, c);
      assert StampedIn(Example(MIDNIGHT + w, SECOND_LATER + e), zones);
    } else {
      forall r | !Requests(r) && StampedIn(r, zones) ensures PicksNewest(r, c) {
        var zone :| zones == {} || zone in zones;
        assert StampedIn(r, {zone});
        PickedIsNewest(r, c, zone);
      }
    }
  }

  /** A timestamp that begins above the digits, such as a word, beats every real one:
      the run is then published without an age, and the newest backup is passed over. */
  lemma WordBeatsStamps(r: Run, previous: Option<Report>, x: Backup, c: Config)
    requires !Requests(r) && x in r.backups && Owns(r.tenant, x)
    requires CreatedKey(x) != "" && CreatedKey(x)[0] > '9'
    requires forall t :: c.parse(t).Some? ==> t != "" && t[0] <= '9'
    ensures ReportOf(r, previous, c).backupAge.None?
    ensures PicksNewest(r, c) <==> forall b :: b in r.backups && Owns(r.tenant, b) ==> CreatedTime(b, c).None?
  {
    var p := PickUsableBackup(r);
    assert p.Picked? && Leq(CreatedKey(x), CreatedKey(p.backup));
    assert CreatedTime(p.backup, c).None?;
  }

  // ---- chains ----

  /** The report of run `i`, each run being handed the report before it. */
  function Chain(runs: seq<Run>, i: nat, c: Config): Report
    requires i < |runs|
    decreases i, 1
  {
    ReportOf(runs[i], Previous(runs, i, c), c)
  }

  function Previous(runs: seq<Run>, i: nat, c: Config): Option<Report>
    requires i <= |runs|
    decreases i, 0
  {
    if i == 0 then None else Some(Chain(runs, i - 1, c))
  }

  ghost predicate Publishes(runs: seq<Run>, i: nat, c: Config)
    requires i < |runs|
  {
    Chain(runs, i, c).alerts != []
  }

  /** No alert condition at all, suppressed or not. */
  ghost predicate Quiet(runs: seq<Run>, i: nat, c: Config)
    requires i < |runs|
  {
    Conditions(runs[i], Previous(runs, i, c), c) == []
  }

  /** The last run before `i` that published, unless a quiet run came after it. */
  ghost function Remembered(runs: seq<Run>, i: nat, c: Config): (m: Option<nat>)
    requires i <= |runs|
    ensures m.Some? ==> m.value < i
  {
    if i == 0 || Quiet(runs, i - 1, c) then None
    else if Publishes(runs, i - 1, c) then Some(i - 1)
    else Remembered(runs, i - 1, c)
  }

  lemma {:induction false} RememberedIsHandedOn(runs: seq<Run>, i: nat, c: Config)
    requires i <= |runs|
    ensures var m := Remembered(runs, i, c);
            && (m.Some? ==> m.value < i && Publishes(runs, m.value, c)
                            && forall k :: m.value < k < i ==> !Publishes(runs, k, c) && !Quiet(runs, k, c))
            && (LastAlert(Previous(runs, i, c)) == if m.Some? then Some(runs[m.value].now) else None)
  {
    hide Conditions, DetectPreviousRun, PickUsableBackup;
    if i > 0 { RememberedIsHandedOn(runs, i - 1, c); }
  }

  /** Exactly which runs publish: those with something to alert about whose last
      remembered publication, if any, is at least the window away. And then they
      publish every condition they have. */
  lemma PublishesExactlyWhen(runs: seq<Run>, i: nat, c: Config)
    requires i < |runs|
    ensures var m := Remembered(runs, i, c);
            Publishes(runs, i, c)
            <==> !Quiet(runs, i, c) && (m.Some? ==> runs[i].now - runs[m.value].now >= DedupSeconds(c))
    ensures Publishes(runs, i, c) ==> Chain(runs, i, c).alerts == Conditions(runs[i], Previous(runs, i, c), c)
  {
    hide Conditions, DetectPreviousRun, PickUsableBackup;
    RememberedIsHandedOn(runs, i, c);
  }

  lemma WindowIsNotNegative(c: Config)
    requires c.dedupMinutes >= 0
    ensures DedupSeconds(c) >= 0.0
  {
  }

  /** Two publications with no quiet run between them are at least the window apart,
      however the clock runs. */
  lemma {:induction false} PublicationsAreApart(runs: seq<Run>, i: nat, j: nat, c: Config)
    requires i < j < |runs| && c.dedupMinutes >= 0
    requires Publishes(runs, i, c) && Publishes(runs, j, c)
    requires forall k :: i < k < j ==> !Quiet(runs, k, c)
    ensures runs[j].now - runs[i].now >= DedupSeconds(c)
    decreases j
  {
    hide *;
    WindowIsNotNegative(c);
    PublishesExactlyWhen(runs, j, c);
    RememberedIsHandedOn(runs, j, c);
    RemembersSince(runs, i, j, c);
    var m := Remembered(runs, j, c).value;
    if m > i { PublicationsAreApart(runs, i, m, c); }
  }

  lemma {:induction false} RemembersSince(runs: seq<Run>, i: nat, j: nat, c: Config)
    requires i < j <= |runs| && Publishes(runs, i, c)
    requires forall k :: i < k < j ==> !Quiet(runs, k, c)
    ensures Remembered(runs, j, c).Some? && i <= Remembered(runs, j, c).value
    decreases j
  {
    hide Conditions, PickUsableBackup;
    if j > i + 1 { RemembersSince(runs, i, j - 1, c); }
  }

  /** A quiet run forgets: the next run with a condition publishes, however soon. */
  lemma QuietRunResets(runs: seq<Run>, i: nat, c: Config)
    requires i + 1 < |runs| && Quiet(runs, i, c)
    ensures Publishes(runs, i + 1, c) <==> !Quiet(runs, i + 1, c)
  {
    hide Conditions, PickUsableBackup;
    PublishesExactlyWhen(runs, i + 1, c);
  }

  /** A run with nothing wrong with it, except that no replay lag is measured. */
  ghost predicate HealthyWithoutLag(r: Run, c: Config) {
    && r.tenantValid && PickUsableBackup(r).Picked? && !HasError(r) && r.domainRows != 0
    && var b := PickUsableBackup(r).backup;
       !Exceeds(Age(r, b, c), c.rpoMinutes) && Lag(r, b, c).None?
  }

  /** Otherwise healthy runs that measure no lag alternate between success and unknown. */
  lemma {:induction false} WithoutLagRunsAlternate(runs: seq<Run>, i: nat, c: Config)
    requires i < |runs| && forall r :: r in runs ==> HealthyWithoutLag(r, c)
    ensures Chain(runs, i, c).status == if i % 2 == 0 then Success else Unknown
    ensures Chain(runs, i, c).replayLag.None? && Chain(runs, i, c).duration.Some?
  {
    hide PickUsableBackup, Conditions;
    assert HealthyWithoutLag(runs[i], c);
    if i > 0 { WithoutLagRunsAlternate(runs, i - 1, c); }
  }
}
