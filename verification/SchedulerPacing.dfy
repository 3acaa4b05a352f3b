/** How fast the probes of a run are sent, and on which grid. */
module SchedulerPacing {
  import opened SchedulerModel
  import opened SchedulerRuns
  import opened SchedulerFairness
  import opened Sizes

  // ----- global pacing

  /** The spacing is the least whole number of milliseconds that keeps `maxGlobalPps` grants in a second. */
  lemma SpacingFits(c: Config)
    requires Normal(c)
    ensures Spacing(c) * c.maxGlobalPps >= 1000
    ensures Spacing(c) > 1 ==> (Spacing(c) - 1) * c.maxGlobalPps < 1000
  {
    var p := c.maxGlobalPps;
    var q, r := (1000 + p - 1) / p, (1000 + p - 1) % p;
    assert 1000 + p - 1 == p * q + r;
    assert q >= 1 by { if q <= 0 { ProductOrder(q, 0, p); } }
  }

  /** The instants at which a run grants a slot. */
  function Grants(s: Sched, es: seq<Event>): seq<int>
    requires Shape(s)
    decreases |es|
  {
    if es == [] then [] else
    (if es[0].ReservingDue? && ReserveDue(s, es[0].now).1.slots != [] then [es[0].now] else [])
    + Grants(Step(s, es[0]), es[1..])
  }

  predicate SameEpoch(es: seq<Event>) { forall i | 0 <= i < |es| :: !es[i].Restarting? }

  lemma PacedStep(s: Sched, e: Event)
    requires Valid(s) && !e.Restarting?
    ensures Step(s, e).config == s.config
    ensures
      var granted := e.ReservingDue? && ReserveDue(s, e.now).1.slots != [];
      Step(s, e).nextGlobalSendAt == (if granted then e.now + Spacing(s.config) else s.nextGlobalSendAt)
      && (granted ==> s.nextGlobalSendAt <= e.now)
  {
    StepKeepsValid(s, e);
    if e.ReservingDue? { ReserveLoopHolds(s, e.now); }
  }

  /** Within an epoch each grant comes at least one spacing after the one before, whatever the clock does. */
  lemma {:induction false} GrantsAreSpaced(s: Sched, es: seq<Event>)
    requires Valid(s) && SameEpoch(es)
    ensures
      var g := Grants(s, es);
      Spaced(g, Spacing(s.config)) && (g != [] ==> g[0] >= s.nextGlobalSendAt)
    decreases |es|
  {
    if es == [] {
    } else {
      var s' := Step(s, es[0]);
      StepKeepsValid(s, es[0]);
      PacedStep(s, es[0]);
      GrantsAreSpaced(s', es[1..]);
      if es[0].ReservingDue? { GrantInFront(es[0].now, Grants(s', es[1..]), Spacing(s.config)); }
    }
  }

  lemma GrantInFront(now: int, g: seq<int>, p: int)
    requires Spaced(g, p)
    ensures [] + g == g
    ensures (g != [] ==> g[0] >= now + p) ==> Spaced([now] + g, p)
  {
    if g != [] ==> g[0] >= now + p { SpacedCons(now, g, p); }
  }

  /** No window of 1000 ms within an epoch holds more than `maxGlobalPps` grants. */
  lemma PacingHolds(s: Sched, es: seq<Event>, from: int)
    requires Valid(s) && SameEpoch(es)
    ensures |InWindow(Grants(s, es), from, 1000)| <= s.config.maxGlobalPps
  {
    GrantsAreSpaced(s, es);
    SpacingFits(s.config);
    WindowBound(Grants(s, es), Spacing(s.config), from, 1000, s.config.maxGlobalPps);
  }

  lemma InactiveStaysSo(s: Sched, e: Event)
    requires Shape(s) && !s.active && !e.Restarting?
    ensures !Step(s, e).active
    ensures e.ReservingDue? ==> ReserveDue(s, e.now).1 == Batch([], [])
  {
  }

  /** Once drained, or stopped, a scheduler grants nothing until it is restarted. */
  lemma {:induction false} DrainedGrantsNothing(s: Sched, es: seq<Event>)
    requires Shape(s) && !s.active && SameEpoch(es)
    ensures Grants(s, es) == []
    decreases |es|
  {
    if es == [] {
    } else {
      InactiveStaysSo(s, es[0]);
      DrainedGrantsNothing(Step(s, es[0]), es[1..]);
    }
  }

  // ----- the grid of one TTL

  datatype Visit = Visit(scheduledAt: int, now: int)

  /** Each time a run serves `t`, by a grant or by turning it away. */
  function Visits(s: Sched, es: seq<Event>, t: nat): seq<Visit>
    requires Shape(s) && t < |s.ttl|
    decreases |es|
  {
    if es == [] then [] else
    KeepsLength(s, es[0]);
    (if Serves(s, es[0], t) then [Visit(s.ttl[t].nextSendAt, es[0].now)] else [])
    + Visits(Step(s, es[0]), es[1..], t)
  }

  lemma KeepsLength(s: Sched, e: Event)
    requires Shape(s)
    ensures |Step(s, e).ttl| == |s.ttl| && Step(s, e).config == s.config
  {
    if e.ReservingDue? { ReserveKeepsConfig(s, e.now); }
  }

  predicate StaysActive(s: Sched, es: seq<Event>, t: nat)
    requires Shape(s)
    decreases |es|
  {
    && ActiveTtl(s, t)
    && (es != [] ==> !es[0].Restarting? && StaysActive(Step(s, es[0]), es[1..], t))
  }

  /** While `t` stays active, only being served moves its deadline, to the first grid point past `now`. */
  lemma DeadlineStep(s: Sched, e: Event, t: nat)
    requires Shape(s) && ActiveTtl(s, t) && !e.Restarting?
    ensures t < |Step(s, e).ttl| && Step(s, e).config == s.config
    ensures
      var at := s.ttl[t].nextSendAt;
      && (Serves(s, e, t) ==> at <= e.now)
      && Step(s, e).ttl[t].nextSendAt
         == (if Serves(s, e, t) then NextCell(at, s.config.intervalMs, e.now) else at)
  {
    KeepsLength(s, e);
    if e.ReservingDue? {
      LoopSettles(s, e.now, t);
    } else if e.SettingLastTtl? {
    } else {
      QuietKeepsTimes(s, e);
    }
  }

  /** The cell of the grid `base, base + interval, ...` that contains `now`. */
  function Cell(base: int, interval: int, now: int): int
    requires 1 <= interval
  {
    (now - base) / interval
  }

  lemma CellOfNext(base: int, q: int, interval: int, now: int)
    requires 1 <= interval && base + interval * q <= now
    ensures Cell(base, interval, now) >= q
    ensures NextCell(base + interval * q, interval, now) == base + interval * (Cell(base, interval, now) + 1)
  {
    var x := now - base;
    var c, r := x / interval, x % interval;
    var y := now - (base + interval * q);
    var d, u := y / interval, y % interval;
    assert x == interval * c + r && y == interval * d + u;
    assert interval * (c - q - d) == u - r by {
      assert interval * (c - q - d) == interval * c - interval * q - interval * d;
    }
    assert c - q - d == 0 by { SmallMultiple(interval, c - q - d); }
    assert interval * q + interval * (d + 1) == interval * (c + 1);
  }

  lemma SmallMultiple(i: int, k: int)
    requires 1 <= i && -i < i * k < i
    ensures k == 0
  {
    if k >= 1 { ProductOrder(1, k, i); }
    if k <= -1 { ProductOrder(k, -1, i); }
  }

  function Cells(v: seq<Visit>, base: int, interval: int): seq<int>
    requires 1 <= interval
  {
    seq(|v|, k requires 0 <= k < |v| => Cell(base, interval, v[k].now))
  }

  predicate OnGrid(v: seq<Visit>, base: int, interval: int)
    requires 1 <= interval
  {
    forall k | 0 <= k < |v| :: v[k].scheduledAt <= v[k].now && (v[k].scheduledAt - base) % interval == 0
  }

  /** Every scheduled time lies on the grid of the first one, and the cells in which `t` is served are
      strictly increasing: however late the caller is, a cell yields at most one slot or skip. */
  lemma {:induction false} VisitsStayOnGrid(s: Sched, es: seq<Event>, t: nat, base: int, q: int)
    requires Shape(s) && ActiveTtl(s, t) && StaysActive(s, es, t)
    requires s.ttl[t].nextSendAt == base + s.config.intervalMs * q
    ensures
      var i, v := s.config.intervalMs, Visits(s, es, t);
      var c := Cells(v, base, i);
      OnGrid(v, base, i) && Spaced(c, 1) && (c != [] ==> c[0] >= q)
    decreases |es|
  {
    if es == [] {
    } else {
      var i, s' := s.config.intervalMs, Step(s, es[0]);
      DeadlineStep(s, es[0], t);
      if Serves(s, es[0], t) {
        var now := es[0].now;
        CellOfNext(base, q, i, now);
        VisitsStayOnGrid(s', es[1..], t, base, Cell(base, i, now) + 1);
        VisitInFront(Visit(s.ttl[t].nextSendAt, now), Visits(s', es[1..], t), base, q, i);
      } else {
        VisitsStayOnGrid(s', es[1..], t, base, q);
        assert [] + Visits(s', es[1..], t) == Visits(s', es[1..], t);
      }
    }
  }

  lemma VisitInFront(x: Visit, v: seq<Visit>, base: int, q: int, i: int)
    requires 1 <= i && x.scheduledAt == base + i * q && x.scheduledAt <= x.now
    requires OnGrid(v, base, i) && Spaced(Cells(v, base, i), 1)
    requires v != [] ==> Cells(v, base, i)[0] >= Cell(base, i, x.now) + 1
    ensures OnGrid([x] + v, base, i) && Spaced(Cells([x] + v, base, i), 1)
  {
    assert Cells([x] + v, base, i) == [Cell(base, i, x.now)] + Cells(v, base, i);
    SpacedCons(Cell(base, i, x.now), Cells(v, base, i), 1);
    assert (i * q) % i == 0;
    var w := [x] + v;
    forall k | 0 <= k < |w| ensures w[k].scheduledAt <= w[k].now && (w[k].scheduledAt - base) % i == 0 {
      if k > 0 { assert w[k] == v[k - 1]; }
    }
  }

  function VisitsIn(v: seq<Visit>, from: int, width: int): set<int> {
    set k | 0 <= k < |v| && from <= v[k].now < from + width
  }

  /** No catch-up: a window of any width serves an active TTL at most once per interval begun, plus one. */
  lemma CadenceHolds(s: Sched, es: seq<Event>, t: nat, from: int, width: nat)
    requires Shape(s) && ActiveTtl(s, t) && StaysActive(s, es, t)
    ensures
      |VisitsIn(Visits(s, es, t), from, width)| <= (width + s.config.intervalMs - 1) / s.config.intervalMs + 1
  {
    var base := s.ttl[t].nextSendAt;
    VisitsStayOnGrid(s, es, t, base, 0);
    FewCells(Visits(s, es, t), base, s.config.intervalMs, from, width);
  }

  lemma FewCells(v: seq<Visit>, base: int, i: int, from: int, width: nat)
    requires 1 <= i && Spaced(Cells(v, base, i), 1)
    ensures |VisitsIn(v, from, width)| <= (width + i - 1) / i + 1
  {
    var w, n := VisitsIn(v, from, width), (width + i - 1) / i;
    assert n * i >= width by { assert width + i - 1 == i * n + (width + i - 1) % i; }
    forall k, l | k in w && l in w ensures l - k < n + 1 {
      if l - k >= n + 1 {
        SpacedFar(Cells(v, base, i), 1, k, l);
        CellsApart(base, i, v[k].now, v[l].now, n + 1);
      }
    }
    SpreadBound(w, n + 1);
  }

  lemma CellsApart(base: int, i: int, x: int, y: int, n: nat)
    requires 1 <= i && 1 <= n && Cell(base, i, y) - Cell(base, i, x) >= n
    ensures y - x > (n - 1) * i
  {
    var a, b := Cell(base, i, x), Cell(base, i, y);
    assert x - base == i * a + (x - base) % i && y - base == i * b + (y - base) % i;
    ProductOrder(n, b - a, i);
    assert i * b - i * a == (b - a) * i;
  }

  // ----- the first sweep

  /** An epoch begins with every TTL active and nothing holding the first send back, and its first sends are spread
      over one interval as evenly as whole milliseconds allow. */
  lemma FirstSweepIsStaggered(s: Sched, epoch: nat, now: int, t: nat)
    requires Shape(s) && s.config.firstTtl <= t <= s.config.lastTtl
    ensures
      var c, s' := s.config, Restart(s, epoch, now);
      var n := c.lastTtl - c.firstTtl + 1;
      && s'.active && s'.epoch == epoch && ActiveTtl(s', t) && s'.nextGlobalSendAt == now
      && s'.ttl[c.firstTtl].nextSendAt == now
      && now <= s'.ttl[t].nextSendAt < now + c.intervalMs
      && (t < c.lastTtl ==>
            c.intervalMs / n <= s'.ttl[t + 1].nextSendAt - s'.ttl[t].nextSendAt <= (c.intervalMs + n - 1) / n)
  {
    var i, n := s.config.intervalMs, s.config.lastTtl - s.config.firstTtl + 1;
    StaggerBounds(t - s.config.firstTtl, i, n);
  }

  // ----- a higher ceiling

  /** A TTL that the new ceiling `last` brings in. */
  predicate Added(s: Sched, last: nat, now: int, t: nat)
    requires Shape(s)
  {
    !ActiveTtl(s, t) && ActiveTtl(SetLastTtl(s, last, now), t)
  }

  /** The TTLs that a higher ceiling adds are first sent within one interval of being added, the lowest of them
      at once, and spread as evenly as whole milliseconds allow; the others keep their times, and no TTL's
      counters change. */
  lemma AddedAreStaggered(s: Sched, last: nat, now: int, t: nat)
    requires Shape(s) && t < |s.ttl|
    ensures
      var s', i := SetLastTtl(s, last, now), s.config.intervalMs;
      var n := s'.activeLastTtl - s.activeLastTtl;
      && s'.activeLastTtl == (if s.config.firstTtl <= last <= s.config.lastTtl then last
                              else if last < s.config.firstTtl then s.config.firstTtl else s.config.lastTtl)
      && |s'.ttl| == |s.ttl|
      && (if Added(s, last, now, t)
          then
            && s.activeLastTtl < t && s'.ttl[s.activeLastTtl + 1].nextSendAt == now
            && now <= s'.ttl[t].nextSendAt < now + i
            && (ActiveTtl(s', t + 1) ==>
                  i / n <= s'.ttl[t + 1].nextSendAt - s'.ttl[t].nextSendAt <= (i + n - 1) / n)
          else s'.ttl[t].nextSendAt == s.ttl[t].nextSendAt)
      && s'.ttl[t].counters == s.ttl[t].counters && s'.ttl[t].reserved == s.ttl[t].reserved
  {
    if Added(s, last, now, t) {
      var count := SetLastTtl(s, last, now).activeLastTtl - s.activeLastTtl;
      StaggerBounds(t - s.activeLastTtl - 1, s.config.intervalMs, count);
    }
  }

  /** When a TTL last became active, and whether it has not been served since. */
  datatype Activation = Activation(at: int, unserved: bool)

  function Since(a: Activation, s: Sched, e: Event, t: nat): Activation
    requires Shape(s)
  {
    match e
    case Restarting(_, now) => Activation(now, true)
    case SettingLastTtl(last, now) => if Added(s, last, now, t) then Activation(now, true) else a
    case _ => if Serves(s, e, t) then a.(unserved := false) else a
  }

  /** The next time the TTL is due is no earlier than its activation, and within an interval of it at first. */
  predicate DueAfter(s: Sched, a: Activation, t: nat)
    requires t < |s.ttl|
  {
    a.at <= s.ttl[t].nextSendAt && (a.unserved ==> s.ttl[t].nextSendAt < a.at + s.config.intervalMs)
  }

  /** Whenever the run serves the TTL, by a slot or by turning it away, it is for a time since its activation,
      and the first time for one within an interval of that. */
  predicate ServedAfterActivation(s: Sched, es: seq<Event>, t: nat, a: Activation)
    requires Shape(s) && t < |s.ttl|
    decreases |es|
  {
    es != [] ==>
      && (Serves(s, es[0], t) ==> DueAfter(s, a, t))
      && (es[0].ReservingDue? ==>
            forall slot | slot in ReserveDue(s, es[0].now).1.slots && slot.token.ttl == t ::
              a.at <= slot.scheduledAt && (a.unserved ==> slot.scheduledAt < a.at + s.config.intervalMs))
      && t < |Step(s, es[0]).ttl|
      && ServedAfterActivation(Step(s, es[0]), es[1..], t, Since(a, s, es[0], t))
  }

  lemma RestartActivates(s: Sched, epoch: nat, now: int, t: nat)
    requires Shape(s) && s.config.firstTtl <= t <= s.config.lastTtl
    ensures DueAfter(Restart(s, epoch, now), Activation(now, true), t)
  {
    FirstSweepIsStaggered(s, epoch, now, t);
  }

  lemma ReservingKeepsDue(s: Sched, now: int, t: nat, a: Activation)
    requires Shape(s) && ActiveTtl(s, t) && DueAfter(s, a, t)
    ensures
      var e := ReservingDue(now);
      t < |Step(s, e).ttl| && DueAfter(Step(s, e), Since(a, s, e, t), t)
  {
    DeadlineStep(s, ReservingDue(now), t);
    if Serves(s, ReservingDue(now), t) { NextCellPast(s.ttl[t].nextSendAt, s.config.intervalMs, now); }
  }

  /** While it is not active a TTL is not served. */
  lemma InactiveIsNotServed(s: Sched, e: Event, t: nat)
    requires Shape(s) && !ActiveTtl(s, t)
    ensures !Serves(s, e, t)
  {
    if e.ReservingDue? { ReserveChooses(s, e.now); }
  }

  lemma SlotIsScheduled(s: Sched, now: int, t: nat)
    requires Shape(s)
    ensures forall slot | slot in ReserveDue(s, now).1.slots && slot.token.ttl == t ::
              Serves(s, ReservingDue(now), t) && t < |s.ttl| && slot.scheduledAt == s.ttl[t].nextSendAt
  {
    ReserveChooses(s, now);
  }

  lemma StepKeepsDue(s: Sched, e: Event, t: nat, a: Activation)
    requires Shape(s) && s.config.firstTtl <= t <= s.config.lastTtl && (ActiveTtl(s, t) ==> DueAfter(s, a, t))
    ensures Step(s, e).config == s.config && t < |Step(s, e).ttl|
    ensures ActiveTtl(Step(s, e), t) ==> DueAfter(Step(s, e), Since(a, s, e, t), t)
  {
    KeepsLength(s, e);
    match e {
      case Restarting(epoch, now) => RestartActivates(s, epoch, now, t);
      case SettingLastTtl(last, now) => AddedAreStaggered(s, last, now, t);
      case ReservingDue(now) =>
        if ActiveTtl(s, t) { ReservingKeepsDue(s, now, t, a); } else { ReserveKeepsRange(s, now); }
      case _ => QuietKeepsTimes(s, e);
    }
  }

  lemma ReserveKeepsRange(s: Sched, now: int)
    requires Shape(s)
    ensures ReserveDue(s, now).0.activeLastTtl == s.activeLastTtl && ReserveDue(s, now).0.config == s.config
  {
    ReserveKeepsConfig(s, now);
  }

  /** No TTL, in any run, is ever served for a time before it became active. */
  lemma {:induction false} NothingIsOverdueWhenAdded(s: Sched, es: seq<Event>, t: nat, a: Activation)
    requires Shape(s) && s.config.firstTtl <= t <= s.config.lastTtl && (ActiveTtl(s, t) ==> DueAfter(s, a, t))
    ensures ServedAfterActivation(s, es, t, a)
    decreases |es|
  {
    if es == [] {
    } else {
      StepKeepsDue(s, es[0], t, a);
      if !ActiveTtl(s, t) { InactiveIsNotServed(s, es[0], t); }
      if es[0].ReservingDue? { SlotIsScheduled(s, es[0].now, t); }
      NothingIsOverdueWhenAdded(Step(s, es[0]), es[1..], t, Since(a, s, es[0], t));
    }
  }

  /** So it is in every run from a start. */
  lemma ServedSinceActive(c: Config, session: nat, epoch: nat, now: int, es: seq<Event>, t: nat)
    requires Normalize(c).firstTtl <= t <= Normalize(c).lastTtl
    ensures
      var s := Started(c, session, epoch, now);
      t < |s.ttl| && ServedAfterActivation(s, es, t, Activation(now, true))
  {
    RestartActivates(Fresh(c).(session := session, sequence := 0, active := true), epoch, now, t);
    NothingIsOverdueWhenAdded(Started(c, session, epoch, now), es, t, Activation(now, true));
  }

  lemma StaggerBounds(k: nat, i: int, n: int)
    requires 1 <= i && k < n
    ensures 0 <= StaggerOffset(k, i, n) < i && StaggerOffset(0, i, n) == 0
    ensures i / n <= StaggerOffset(k + 1, i, n) - StaggerOffset(k, i, n) <= (i + n - 1) / n
  {
    ProductOrder(1, n - k, i);
    assert (n - k) * i == n * i - k * i;
    QuotientBelow(k * i, i, n);
    assert (k + 1) * i == k * i + i;
    QuotientGap(k * i, i, n);
  }

  lemma QuotientBelow(x: int, i: int, n: int)
    requires 0 <= x <= n * i - i && 1 <= i && 1 <= n
    ensures 0 <= x / n < i
  {
    var a := x / n;
    assert x == n * a + x % n;
    if a >= i { ProductOrder(i, a, n); }
    if a < 0 { ProductOrder(a, -1, n); }
  }

  /** The quotients of two numbers `i` apart are `i / n` apart, rounded down or up. */
  lemma QuotientGap(x: int, i: int, n: int)
    requires 0 <= x && 1 <= i && 1 <= n
    ensures i / n <= (x + i) / n - x / n <= (i + n - 1) / n
  {
    var a, b, f, u := x / n, (x + i) / n, i / n, (i + n - 1) / n;
    Division(x, n);
    Division(x + i, n);
    Division(i, n);
    Division(i + n - 1, n);
    GapOfMultiples(a, b, f, u, x, i, n);
  }

  lemma GapOfMultiples(a: int, b: int, f: int, u: int, x: int, i: int, n: int)
    requires 1 <= n && n * a <= x < n * a + n && n * b <= x + i < n * b + n
    requires n * f <= i < n * f + n && n * u <= i + n - 1 < n * u + n
    ensures f <= b - a <= u
  {
    assert (b - a) * n == n * b - n * a && (f - 1) * n == n * f - n && (u + 1) * n == n * u + n;
    if b - a < f { ProductOrder(b - a, f - 1, n); }
    if b - a > u { ProductOrder(u + 1, b - a, n); }
  }

  lemma Division(x: int, n: int)
    requires 1 <= n
    ensures n * (x / n) <= x < n * (x / n) + n
  {
  }
}
