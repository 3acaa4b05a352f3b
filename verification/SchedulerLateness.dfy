/** The account that is kept of how late a TTL is served. */
module SchedulerLateness {
  import opened Basics
  import opened SchedulerModel
  import opened SchedulerRuns
  import opened SchedulerFairness
  import opened SchedulerPacing

  /** `k` has become `k'` by a service that was `late` milliseconds behind its time. */
  predicate LateBy(k: Counters, late: int, k': Counters) {
    && k'.lateSlots == k.lateSlots + (if late > 0 then 1 else 0)
    && k'.latenessTotal == k.latenessTotal + late
    && k'.latenessMax == (if late > 0 && late > k.latenessMax then late else k.latenessMax)
  }

  lemma AttemptIsLate(s: Sched, now: int, t: nat, u: nat)
    requires Shape(s) && Due(s, now, t) && u < |s.ttl|
    ensures
      var o := Attempt(s, now, t).0;
      |o.ttl| == |s.ttl|
      && LateBy(s.ttl[u].counters, if u == t then now - s.ttl[t].nextSendAt else 0, o.ttl[u].counters)
  {
  }

  lemma {:induction false} LoopIsLate(s: Sched, now: int, u: nat)
    requires Shape(s) && u < |s.ttl|
    ensures
      var (o, b) := ReserveLoop(s, now);
      |o.ttl| == |s.ttl|
      && LateBy(s.ttl[u].counters, if Handles(b, u) then now - s.ttl[u].nextSendAt else 0, o.ttl[u].counters)
    decreases |DueSet(s, now)|
  {
    var t := LeastDue(s, now, s.activeLastTtl);
    if t != 0 {
      var (s', slot) := Attempt(s, now, t);
      AttemptSettles(s, now, t);
      AttemptIsLate(s, now, t, u);
      if slot.None? {
        AttemptLeavesDueSet(s, now, t);
        LoopSettles(s', now, u);
        assert !Due(s', now, t);
        LoopIsLate(s', now, u);
      }
    }
  }

  lemma OthersAreNotLate(s: Sched, e: Event, u: nat)
    requires Shape(s) && u < |s.ttl| && !e.ReservingDue? && !e.Restarting?
    ensures u < |Step(s, e).ttl| && LateBy(s.ttl[u].counters, 0, Step(s, e).ttl[u].counters)
  {
  }

  /** By how much each visit was late, where it was. */
  function Delays(v: seq<Visit>): seq<int> {
    if v == [] then [] else
    (if v[0].now > v[0].scheduledAt then [v[0].now - v[0].scheduledAt] else []) + Delays(v[1..])
  }

  function Total(xs: seq<int>): int { if xs == [] then 0 else xs[0] + Total(xs[1..]) }

  /** The greatest of `least` and `xs`. */
  function Worst(least: int, xs: seq<int>): (n: int)
    ensures least <= n && (n == least || n in xs) && forall x | x in xs :: x <= n
    decreases |xs|
  {
    if xs == [] then least else
    assert forall x | x in xs :: x == xs[0] || x in xs[1..];
    Worst(if xs[0] > least then xs[0] else least, xs[1..])
  }

  predicate Tallied(k: Counters, delays: seq<int>, k': Counters) {
    && k'.lateSlots == k.lateSlots + |delays| && k'.latenessTotal == k.latenessTotal + Total(delays)
    && k'.latenessMax == Worst(k.latenessMax, delays)
  }

  lemma StepIsLate(s: Sched, e: Event, t: nat)
    requires Shape(s) && t < |s.ttl| && !e.Restarting?
    ensures
      t < |Step(s, e).ttl|
      && LateBy(s.ttl[t].counters, if Serves(s, e, t) then e.now - s.ttl[t].nextSendAt else 0,
                Step(s, e).ttl[t].counters)
    ensures Serves(s, e, t) ==> s.ttl[t].nextSendAt <= e.now
  {
    if e.ReservingDue? {
      LoopIsLate(s, e.now, t);
      LoopSettles(s, e.now, t);
    } else {
      OthersAreNotLate(s, e, t);
    }
  }

  lemma TalliedNext(k: Counters, x: Visit, k1: Counters, later: seq<int>, k2: Counters)
    requires x.scheduledAt <= x.now && LateBy(k, x.now - x.scheduledAt, k1) && Tallied(k1, later, k2)
    ensures Tallied(k, (if x.now > x.scheduledAt then [x.now - x.scheduledAt] else []) + later, k2)
  {
    if x.now > x.scheduledAt {
      var ds := [x.now - x.scheduledAt] + later;
      assert ds[1..] == later;
    } else {
      assert [] + later == later;
    }
  }

  /** Over any run within an epoch, a TTL's account of lateness grows by exactly the delays of the times it is served,
      granted or turned away: their number, their sum, and the greatest. */
  lemma {:induction false} LatenessIsCounted(s: Sched, es: seq<Event>, t: nat)
    requires Shape(s) && t < |s.ttl| && SameEpoch(es)
    ensures t < |Exec(s, es).ttl|
    ensures Tallied(s.ttl[t].counters, Delays(Visits(s, es, t)), Exec(s, es).ttl[t].counters)
    decreases |es|
  {
    if es == [] {
    } else {
      var s' := Step(s, es[0]);
      KeepsLength(s, es[0]);
      StepIsLate(s, es[0], t);
      LatenessIsCounted(s', es[1..], t);
      var later := Visits(s', es[1..], t);
      if Serves(s, es[0], t) {
        var x := Visit(s.ttl[t].nextSendAt, es[0].now);
        TalliedNext(s.ttl[t].counters, x, s'.ttl[t].counters, Delays(later), Exec(s, es).ttl[t].counters);
        assert ([x] + later)[1..] == later;
      } else {
        assert [] + later == later;
      }
    }
  }
}
