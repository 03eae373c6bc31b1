/** The worker-scaling rule of scripts/autoscaling_policy.py, run again and again. */
module Autoscaling {
  import opened Wrappers

  datatype Policy = Policy(minimum: int, maximum: int, upDepth: int, downDepth: int, cooldown: int)

  datatype Action = Cooldown | ScaleUp | HoldAtMaximum | ScaleDown | Hold

  datatype Decision = Decision(action: Action, desired: int, toDrain: nat, protectedByLeases: nat) | Invalid

  /** One decision, from the current workers, queue depth, elapsed cooldown and active leases. */
  function ScaleWorkers(p: Policy, current: int, queue: int, elapsed: real, leases: int): (d: Decision)
    ensures d.Invalid? <==> !(p.minimum <= current <= p.maximum && queue >= 0 && elapsed >= 0.0)
    ensures d.Decision? ==> p.minimum <= d.desired <= p.maximum && -1 <= d.desired - current <= 1
    ensures d.Decision? ==> d.toDrain == (if d.desired < current then 1 else 0) && d.protectedByLeases <= d.toDrain
    ensures d.Decision? && elapsed < p.cooldown as real ==> d.desired == current
  {
    if !(p.minimum <= current <= p.maximum) || queue < 0 || elapsed < 0.0 then Invalid
    else
      var (action, desired) :=
        if elapsed < p.cooldown as real then (Cooldown, current)
        else if queue >= p.upDepth then
          var raised := if current + 1 < p.maximum then current + 1 else p.maximum;
          (if raised != current then ScaleUp else HoldAtMaximum, raised)
        else if queue <= p.downDepth && current > p.minimum then (ScaleDown, current - 1)
        else (Hold, current);
      var drain := if current - desired > 0 then current - desired else 0;
      var active := if leases > 0 then leases else 0;
      Decision(action, desired, drain, if drain < active then drain else active)
  }

  /** What a decision does, and why: up on a deep queue while there is room, down on a
      shallow one, never before the cooldown is over; a worker to drain is protected
      exactly if a lease is active. */
  lemma DecisionIsExact(p: Policy, current: int, queue: int, elapsed: real, leases: int)
    requires ScaleWorkers(p, current, queue, elapsed, leases).Decision?
    ensures var d, cooled := ScaleWorkers(p, current, queue, elapsed, leases), elapsed >= p.cooldown as real;
            && (d.action == Cooldown <==> !cooled)
            && (d.action == ScaleUp <==> cooled && queue >= p.upDepth && current < p.maximum)
            && (d.action == HoldAtMaximum <==> cooled && queue >= p.upDepth && current == p.maximum)
            && (d.action == ScaleDown <==> cooled && queue < p.upDepth && queue <= p.downDepth && current > p.minimum)
            && d.desired - current == (match d.action case ScaleUp => 1 case ScaleDown => -1 case _ => 0)
            && (d.protectedByLeases == 1 <==> d.action == ScaleDown && leases > 0) && d.protectedByLeases <= 1
  {
  }

  /** What one evaluation sees besides the worker count. */
  datatype Tick = Tick(queue: int, elapsed: real, leases: int)

  ghost predicate ValidTick(t: Tick) {
    t.queue >= 0 && t.elapsed >= 0.0
  }

  /** The worker count after `n` evaluations, each desired count becoming the current one. */
  function Workers(p: Policy, start: int, ticks: seq<Tick>, n: nat): Option<int>
    requires n <= |ticks|
  {
    if n == 0 then (if p.minimum <= start <= p.maximum then Some(start) else None)
    else
      var before := Workers(p, start, ticks, n - 1);
      if before.None? then None
      else
        var t := ticks[n - 1];
        var d := ScaleWorkers(p, before.value, t.queue, t.elapsed, t.leases);
        if d.Invalid? then None else Some(d.desired)
  }

  /** No run ever leaves the bounds or is rejected once it starts inside them. */
  lemma {:induction false} RunStaysInBounds(p: Policy, start: int, ticks: seq<Tick>, n: nat)
    requires n <= |ticks| && p.minimum <= start <= p.maximum
    requires forall i :: 0 <= i < n ==> ValidTick(ticks[i])
    ensures Workers(p, start, ticks, n).Some? && p.minimum <= Workers(p, start, ticks, n).value <= p.maximum
  {
    if n > 0 {
      RunStaysInBounds(p, start, ticks, n - 1);
      assert ValidTick(ticks[n - 1]);
    }
  }

  /** Where a run settles under a steady queue: the maximum, the minimum, or where it is. */
  ghost function Settled(p: Policy, start: int, queue: int, n: nat): int {
    if queue >= p.upDepth then (if start + n < p.maximum then start + n else p.maximum)
    else if queue <= p.downDepth then (if start - n > p.minimum then start - n else p.minimum)
    else start
  }

  /** Under a steady queue, with the cooldown always over, the count moves one step at
      a time towards its bound, reaches it in exactly the remaining distance, and stays. */
  lemma {:induction false} SteadyQueueSettles(p: Policy, start: int, ticks: seq<Tick>, queue: int, n: nat)
    requires n <= |ticks| && p.minimum <= start <= p.maximum && queue >= 0
    requires forall i :: 0 <= i < n ==> ticks[i].queue == queue && ValidTick(ticks[i]) && ticks[i].elapsed >= p.cooldown as real
    ensures Workers(p, start, ticks, n) == Some(Settled(p, start, queue, n))
  {
    if n > 0 {
      SteadyQueueSettles(p, start, ticks, queue, n - 1);
      assert ValidTick(ticks[n - 1]);
    }
  }

  // ---- the cooldown restarts at every change ----

  datatype Clocked = Clocked(workers: int, lastChange: real, changes: nat)

  datatype Moment = Moment(now: real, queue: int, leases: int)

  function ClockedRun(p: Policy, start: Clocked, moments: seq<Moment>, n: nat): Clocked
    requires n <= |moments|
  {
    if n == 0 then start
    else
      var s, m := ClockedRun(p, start, moments, n - 1), moments[n - 1];
      var d := ScaleWorkers(p, s.workers, m.queue, m.now - s.lastChange, m.leases);
      if d.Invalid? || d.desired == s.workers then s
      else Clocked(d.desired, m.now, s.changes + 1)
  }

  /** Changes are never closer than the cooldown, so there are at most as many as
      cooldowns fit in the time since the start. */
  lemma {:induction false} ChangesAreBoundedByTime(p: Policy, start: Clocked, moments: seq<Moment>, n: nat)
    requires n <= |moments| && start.changes == 0
    ensures var s := ClockedRun(p, start, moments, n);
            s.changes as real * p.cooldown as real <= s.lastChange - start.lastChange
  {
    if n > 0 {
      ChangesAreBoundedByTime(p, start, moments, n - 1);
      var s, m := ClockedRun(p, start, moments, n - 1), moments[n - 1];
      var d := ScaleWorkers(p, s.workers, m.queue, m.now - s.lastChange, m.leases);
      if d.Decision? && d.desired != s.workers {
        assert m.now - s.lastChange >= p.cooldown as real;
        assert (s.changes + 1) as real * p.cooldown as real == s.changes as real * p.cooldown as real + p.cooldown as real;
      }
    }
  }
}
