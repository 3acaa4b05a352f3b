/** Which TTL a call to `ReserveDue` picks, and how long another can wait for its turn. */
module SchedulerFairness {
  import opened Basics
  import opened SchedulerModel
  import opened SchedulerRuns
  import opened Sizes

  // ----- one call

  /** The order of service: by deadline, then by TTL. */
  predicate Before(s: Sched, t: nat, u: nat)
    requires t < |s.ttl| && u < |s.ttl|
  {
    || s.ttl[t].nextSendAt < s.ttl[u].nextSendAt
    || (s.ttl[t].nextSendAt == s.ttl[u].nextSendAt && t < u)
  }

  lemma {:induction false} LeastDueIsLeast(s: Sched, now: int, hi: nat)
    requires Shape(s) && hi <= s.activeLastTtl
    ensures
      var t := LeastDue(s, now, hi);
      && (t == 0 ==> forall u: nat | u <= hi :: !Due(s, now, u))
      && (t != 0 ==> forall u: nat | u <= hi && Due(s, now, u) :: u == t || Before(s, t, u))
  {
    if hi < s.config.firstTtl {
    } else {
      LeastDueIsLeast(s, now, hi - 1);
    }
  }

  predicate Handles(b: Batch, t: nat) {
    t in b.skipped || (b.slots != [] && b.slots[0].token.ttl == t)
  }

  /** The skipped TTLs in order of service, all of them due and blocked; if a slot was granted, its TTL is
      due and not blocked, comes after every skipped one, and every due TTL not handled comes after it;
      if none was, every due TTL was skipped. */
  ghost predicate Chosen(s: Sched, now: int, b: Batch)
    requires Shape(s)
  {
    && |b.slots| <= 1
    && (forall i | 0 <= i < |b.skipped| :: Due(s, now, b.skipped[i]) && Blocked(s, b.skipped[i]))
    && (forall i, j | 0 <= i < j < |b.skipped| :: Before(s, b.skipped[i], b.skipped[j]))
    && (b.slots == [] ==> forall u: nat | Due(s, now, u) :: u in b.skipped)
    && (b.slots != [] ==>
          var g := b.slots[0].token.ttl;
          && Due(s, now, g) && !Blocked(s, g)
          && b.slots[0].scheduledAt == s.ttl[g].nextSendAt
          && (forall u | u in b.skipped :: Before(s, u, g))
          && (forall u: nat | Due(s, now, u) && u != g && u !in b.skipped :: Before(s, g, u)))
  }

  /** Turning `t` away leaves every other TTL as it was. */
  lemma SkippingKeepsOthers(s: Sched, now: int, t: nat)
    requires Shape(s) && Due(s, now, t) && Attempt(s, now, t).1.None?
    ensures
      var s' := Attempt(s, now, t).0;
      && Blocked(s, t) && !Due(s', now, t)
      && (forall u: nat | u < |s.ttl| && u != t ::
            (Due(s', now, u) <==> Due(s, now, u)) && (Blocked(s', u) <==> Blocked(s, u)) && s'.ttl[u] == s.ttl[u])
  {
    AttemptSettles(s, now, t);
  }

  lemma {:induction false} LoopChooses(s: Sched, now: int)
    requires Shape(s)
    ensures Chosen(s, now, ReserveLoop(s, now).1)
    decreases |DueSet(s, now)|
  {
    var t := LeastDue(s, now, s.activeLastTtl);
    LeastDueIsLeast(s, now, s.activeLastTtl);
    if t != 0 {
      var (s', slot) := Attempt(s, now, t);
      if slot.None? {
        SkippingKeepsOthers(s, now, t);
        AttemptLeavesDueSet(s, now, t);
        LoopChooses(s', now);
        ChosenAfterSkip(s, s', now, t, ReserveLoop(s', now).1);
      }
    }
  }

  lemma ChosenAfterSkip(s: Sched, s': Sched, now: int, t: nat, b: Batch)
    requires Shape(s) && Shape(s') && |s'.ttl| == |s.ttl| && s'.activeLastTtl == s.activeLastTtl
    requires s'.config == s.config
    requires Due(s, now, t) && Blocked(s, t) && !Due(s', now, t) && t != 0
    requires forall u: nat | u < |s.ttl| && u != t ::
               (Due(s', now, u) <==> Due(s, now, u)) && (Blocked(s', u) <==> Blocked(s, u)) && s'.ttl[u] == s.ttl[u]
    requires forall u: nat | u <= s.activeLastTtl && Due(s, now, u) :: u == t || Before(s, t, u)
    requires Chosen(s', now, b)
    ensures Chosen(s, now, Batch(b.slots, [t] + b.skipped))
  {
    var longer := [t] + b.skipped;
    forall i | 0 <= i < |longer| ensures Due(s, now, longer[i]) && Blocked(s, longer[i]) {
      if i > 0 { assert longer[i] == b.skipped[i - 1]; }
    }
    forall i, j | 0 <= i < j < |longer| ensures Before(s, longer[i], longer[j]) {
      assert longer[j] == b.skipped[j - 1] && Due(s', now, longer[j]);
      if i > 0 { assert longer[i] == b.skipped[i - 1]; }
    }
    if b.slots != [] {
      var g := b.slots[0].token.ttl;
      forall u | u in longer ensures Before(s, u, g) {
        if u != t { assert u in b.skipped; }
      }
    } else {
      forall u: nat | Due(s, now, u) ensures u in longer {
        if u != t { assert u in b.skipped; }
      }
    }
  }

  /** A call picks the first unblocked TTL in order of service, and turns away exactly the blocked ones
      that come before it. */
  lemma ReserveChooses(s: Sched, now: int)
    requires Shape(s)
    ensures
      var b := ReserveDue(s, now).1;
      if s.active && s.nextGlobalSendAt <= now then Chosen(s, now, b) else b == Batch([], [])
  {
    LoopChooses(s, now);
  }

  /** A handled TTL is next due at the first cell of its grid past `now`; the others keep their state. */
  lemma {:induction false} LoopSettles(s: Sched, now: int, u: nat)
    requires Shape(s) && u < |s.ttl|
    ensures
      var (o, b) := ReserveLoop(s, now);
      && |o.ttl| == |s.ttl|
      && (if Handles(b, u)
          then Due(s, now, u) && o.ttl[u].nextSendAt == NextCell(s.ttl[u].nextSendAt, s.config.intervalMs, now)
          else o.ttl[u] == s.ttl[u])
    decreases |DueSet(s, now)|
  {
    var t := LeastDue(s, now, s.activeLastTtl);
    if t != 0 {
      var (s', slot) := Attempt(s, now, t);
      AttemptSettles(s, now, t);
      if slot.None? {
        AttemptLeavesDueSet(s, now, t);
        assert !Due(s', now, t);
        LoopSettles(s', now, u);
      }
    }
  }

  // ----- waiting one's turn over a run

  predicate Quiet(e: Event) { !e.Restarting? && !e.SettingLastTtl? && !e.ReservingDue? }

  lemma QuietKeepsTimes(s: Sched, e: Event)
    requires Shape(s) && Quiet(e)
    ensures
      var s' := Step(s, e);
      && s'.config == s.config && |s'.ttl| == |s.ttl| && s'.activeLastTtl == s.activeLastTtl
      && s'.nextGlobalSendAt == s.nextGlobalSendAt
      && forall u: nat | u < |s.ttl| :: s'.ttl[u].nextSendAt == s.ttl[u].nextSendAt
  {
  }

  /** Handling TTL `u` in this step. */
  predicate Serves(s: Sched, e: Event, u: nat)
    requires Shape(s)
  {
    e.ReservingDue? && Handles(ReserveDue(s, e.now).1, u)
  }

  /** A call that pacing and draining let through. */
  predicate Turn(s: Sched, e: Event) { e.ReservingDue? && s.active && s.nextGlobalSendAt <= e.now }

  /** In this step no restart or ceiling change intervenes, and every reservation finds `t` due, with its
      quota open, and does not handle it. */
  predicate KeepsWaiting(s: Sched, e: Event, t: nat)
    requires Shape(s)
  {
    && !e.Restarting? && !e.SettingLastTtl?
    && (e.ReservingDue? ==> Due(s, e.now, t) && !Serves(s, e, t))
  }

  predicate WaitsThroughout(s: Sched, es: seq<Event>, t: nat)
    requires Shape(s)
    decreases |es|
  {
    es == [] || (KeepsWaiting(s, es[0], t) && WaitsThroughout(Step(s, es[0]), es[1..], t))
  }

  function Served(s: Sched, es: seq<Event>, u: nat): nat
    requires Shape(s)
    decreases |es|
  {
    if es == [] then 0 else One(Serves(s, es[0], u)) + Served(Step(s, es[0]), es[1..], u)
  }

  function Turns(s: Sched, es: seq<Event>): nat
    requires Shape(s)
    decreases |es|
  {
    if es == [] then 0 else One(Turn(s, es[0])) + Turns(Step(s, es[0]), es[1..])
  }

  function Ahead(s: Sched, t: nat): set<nat>
    requires Shape(s) && t < |s.ttl|
  {
    set u: nat | u <= s.activeLastTtl && u >= s.config.firstTtl && Before(s, u, t)
  }

  /** While `t` waits, each turn serves TTLs that were ahead of it, at least one, and none of them is
      ahead of it afterwards. */
  lemma WaitingStep(s: Sched, e: Event, t: nat)
    requires Shape(s) && ActiveTtl(s, t) && KeepsWaiting(s, e, t)
    ensures ActiveTtl(Step(s, e), t)
    ensures Ahead(Step(s, e), t) == set u | u in Ahead(s, t) && !Serves(s, e, u)
    ensures forall u: nat :: Serves(s, e, u) ==> u in Ahead(s, t)
    ensures Turn(s, e) ==> exists u :: u in Ahead(s, t) && Serves(s, e, u)
  {
    if !e.ReservingDue? {
      QuietKeepsTimes(s, e);
      var s' := Step(s, e);
      forall u: nat | u < |s.ttl| ensures Before(s', u, t) <==> Before(s, u, t) {}
      assert Ahead(s', t) == Ahead(s, t);
    } else if Turn(s, e) {
      WaitingTurn(s, e, t);
    } else {
      assert Step(s, e) == s;
      assert forall u: nat :: !Serves(s, e, u);
    }
  }

  lemma WaitingTurn(s: Sched, e: Event, t: nat)
    requires Shape(s) && ActiveTtl(s, t) && KeepsWaiting(s, e, t) && Turn(s, e)
    ensures ActiveTtl(Step(s, e), t)
    ensures Ahead(Step(s, e), t) == set u | u in Ahead(s, t) && !Serves(s, e, u)
    ensures forall u: nat :: Serves(s, e, u) ==> u in Ahead(s, t)
    ensures exists u :: u in Ahead(s, t) && Serves(s, e, u)
  {
    var (o, b) := ReserveLoop(s, e.now);
    LoopChooses(s, e.now);
    ReserveKeepsConfig(s, e.now);
    assert t !in b.skipped && b.slots != [];
    var g := b.slots[0].token.ttl;
    assert Before(s, g, t);
    forall u: nat | Serves(s, e, u) ensures u in Ahead(s, t) {
      if u != g { assert u in b.skipped && Before(s, u, g); }
    }
    assert Serves(s, e, g);
    forall u: nat | u <= s.activeLastTtl
      ensures Before(o, u, t) <==> Before(s, u, t) && !Serves(s, e, u)
    {
      LoopSettles(s, e.now, u);
      LoopSettles(s, e.now, t);
      if Handles(b, u) { NextCellPast(s.ttl[u].nextSendAt, s.config.intervalMs, e.now); }
    }
  }

  /** Bounded bypass: as long as `t` is due, open and unserved, any other TTL is served at most once,
      and only if it was ahead of `t` to begin with. */
  lemma {:induction false} BypassedAtMostOnce(s: Sched, es: seq<Event>, t: nat, u: nat)
    requires Shape(s) && ActiveTtl(s, t) && WaitsThroughout(s, es, t)
    ensures Served(s, es, u) <= One(u in Ahead(s, t))
    decreases |es|
  {
    if es == [] {
    } else {
      WaitingStep(s, es[0], t);
      BypassedAtMostOnce(Step(s, es[0]), es[1..], t, u);
    }
  }

  /** No starvation: `t` can be passed over in at most as many turns as there are TTLs ahead of it, so
      among as many turns as there are active TTLs there is one that serves it. */
  lemma {:induction false} TurnsAreBounded(s: Sched, es: seq<Event>, t: nat)
    requires Shape(s) && ActiveTtl(s, t) && WaitsThroughout(s, es, t)
    ensures Turns(s, es) <= |Ahead(s, t)| <= s.activeLastTtl - s.config.firstTtl
    decreases |es|
  {
    AheadIsSmall(s, t);
    if es == [] {
    } else {
      var s' := Step(s, es[0]);
      WaitingStep(s, es[0], t);
      TurnsAreBounded(s', es[1..], t);
      assert Ahead(s', t) <= Ahead(s, t);
      SubsetSize(Ahead(s', t), Ahead(s, t));
      if Turn(s, es[0]) {
        var u :| u in Ahead(s, t) && Serves(s, es[0], u);
        assert Ahead(s', t) <= Ahead(s, t) - {u};
        SubsetSize(Ahead(s', t), Ahead(s, t) - {u});
      }
    }
  }

  lemma AheadIsSmall(s: Sched, t: nat)
    requires Shape(s) && ActiveTtl(s, t)
    ensures |Ahead(s, t)| <= s.activeLastTtl - s.config.firstTtl
  {
    var all := Range(s.config.firstTtl, s.activeLastTtl + 1);
    assert t in all && Ahead(s, t) <= all - {t};
    SubsetSize(Ahead(s, t), all - {t});
  }
}
