/** A TTL that is served on time is never turned away for having too many probes in flight, if its cap
    covers the probes one timeout can hold. */
module SchedulerBackpressure {
  import opened Basics
  import opened SchedulerModel
  import opened SchedulerCensus
  import opened SchedulerRuns
  import opened SchedulerAccounts
  import opened SchedulerFairness
  import opened SchedulerPacing
  import opened SchedulerWake
  import opened Sizes

  datatype Outcome = WasSent | Failed | FromCache

  /** A turn of the loop, which expires, reserves and settles the slot at once, or any other call. */
  datatype Round = Tick(now: int, outcome: Outcome) | Other(e: Event)

  function Settle(s: Sched, token: Token, now: int, o: Outcome): (s': Sched)
    requires Shape(s)
    ensures Shape(s')
  {
    match o
    case WasSent => MarkIssued(s, token, now)
    case Failed => MarkIssueFailed(s, token)
    case FromCache => MarkCached(s, token)
  }

  /** Reserve, and settle the slot if there is one. */
  function Serve(s: Sched, now: int, o: Outcome): (s': Sched)
    requires Shape(s)
    ensures Shape(s')
  {
    var (r, b) := ReserveDue(s, now);
    if b.slots == [] then r else Settle(r, b.slots[0].token, now, o)
  }

  function Play(s: Sched, r: Round): (s': Sched)
    requires Shape(s)
    ensures Shape(s')
  {
    match r
    case Other(e) => Step(s, e)
    case Tick(now, outcome) => Serve(Expire(s, now), now, outcome)
  }

  /** `t` stays active in one epoch, and no turn finds it overdue. */
  predicate OnTime(s: Sched, rs: seq<Round>, t: nat)
    requires Shape(s)
    decreases |rs|
  {
    && ActiveTtl(s, t)
    && (rs != [] ==>
          && (rs[0].Tick? ==> rs[0].now <= s.ttl[t].nextSendAt)
          && (rs[0].Other? ==> !rs[0].e.ReservingDue? && !rs[0].e.Restarting?)
          && OnTime(Play(s, rs[0]), rs[1..], t))
  }

  predicate HasRoom(s: Sched, t: nat)
    requires t < |s.ttl|
  {
    s.ttl[t].counters.inFlight + s.ttl[t].reserved < s.config.maxInflightPerTtl
  }

  /** Whenever a turn finds `t` due, it has room under its own cap. */
  predicate AlwaysRoom(s: Sched, rs: seq<Round>, t: nat)
    requires Shape(s)
    decreases |rs|
  {
    rs != [] ==>
      && (rs[0].Tick? && Due(Expire(s, rs[0].now), rs[0].now, t) ==> HasRoom(Expire(s, rs[0].now), t))
      && AlwaysRoom(Play(s, rs[0]), rs[1..], t)
  }

  predicate CapCoversTimeout(c: Config) {
    1 <= c.intervalMs && c.maxInflightPerTtl * c.intervalMs >= c.timeoutMs
  }

  // ----- probes in flight are an interval apart

  /** No slot is held at `t`, and the deadlines of its probes in flight are at least `gap` apart and at
      most `last`. */
  predicate Sparse(m: map<nat, Record>, t: nat, last: int, gap: int) {
    && (forall k | k in m && m[k].token.ttl == t :: m[k].state != Reserved)
    && (forall k | k in m && Counts(m[k], InFlight, At(t)) :: m[k].deadline <= last)
    && (forall j, k | j in m && k in m && Counts(m[j], InFlight, At(t)) && Counts(m[k], InFlight, At(t))
          && j != k :: gap <= m[j].deadline - m[k].deadline || gap <= m[k].deadline - m[j].deadline)
  }

  predicate SparseAt(s: Sched, t: nat)
    requires t < |s.ttl|
  {
    Sparse(s.records, t, s.ttl[t].nextSendAt - s.config.intervalMs + s.config.timeoutMs, s.config.intervalMs)
  }

  lemma SweepKeepsSparse(m: map<nat, Record>, w: Sweep, t: nat, last: int, gap: int)
    requires Sparse(m, t, last, gap)
    ensures Sparse(Swept(m, m.Keys, w), t, last, gap)
  {
    var m' := Swept(m, m.Keys, w);
    assert forall k | k in m' && Counts(m'[k], InFlight, At(t)) :: k in m && m'[k] == m[k];
  }

  lemma PutKeepsSparse(m: map<nat, Record>, k: nat, r: Record, t: nat, last: int, gap: int)
    requires Sparse(m, t, last, gap) && r.token.ttl != t
    ensures Sparse(m[k := r], t, last, gap)
  {
  }

  lemma DropKeepsSparse(m: map<nat, Record>, k: nat, t: nat, last: int, gap: int)
    requires Sparse(m, t, last, gap)
    ensures Sparse(m - {k}, t, last, gap)
  {
  }

  lemma NewestKeepsSparse(m: map<nat, Record>, k: nat, r: Record, t: nat, last: int, gap: int)
    requires Sparse(m, t, last, gap) && k !in m && 1 <= gap
    requires r.state == Issued && r.deadline == last + gap
    ensures Sparse(m[k := r], t, last + gap, gap)
  {
  }

  /** The latest deadline a probe of `t` can have so far. */
  function LastDeadline(s: Sched, t: nat): int
    requires t < |s.ttl|
  {
    s.ttl[t].nextSendAt - s.config.intervalMs + s.config.timeoutMs
  }

  lemma SweepingKeepsSparse(s: Sched, e: Event, t: nat)
    requires Shape(s) && ActiveTtl(s, t) && SparseAt(s, t)
    requires e.Stopping? || e.DrainBeginning? || e.CancellingPending? || e.Expiry?
    ensures Sparse(Step(s, e).records, t, LastDeadline(s, t), s.config.intervalMs)
  {
    var last, gap := LastDeadline(s, t), s.config.intervalMs;
    match e {
      case Stopping => SweepKeepsSparse(s.records, Retiring, t, last, gap);
      case DrainBeginning => SweepKeepsSparse(s.records, Draining, t, last, gap);
      case CancellingPending =>
        SweepKeepsSparse(s.records, Draining, t, last, gap);
        SweepKeepsSparse(BeginDrain(s).records, Cancelling, t, last, gap);
      case Expiry(now) => SweepKeepsSparse(s.records, Expiring(now), t, last, gap);
    }
  }

  lemma TokenKeepsSparse(s: Sched, e: Event, t: nat)
    requires Shape(s) && ActiveTtl(s, t) && SparseAt(s, t)
    requires e.MarkingIssued? || e.MarkingIssueFailed? || e.MarkingCached? || e.Completion?
    ensures Sparse(Step(s, e).records, t, LastDeadline(s, t), s.config.intervalMs)
  {
    var last, gap, k := LastDeadline(s, t), s.config.intervalMs, e.token.sequence;
    if e.MarkingIssued? {
      if HoldsSlot(s, e.token) {
        PutKeepsSparse(s.records, k, Record(e.token, Issued, e.at + s.config.timeoutMs), t, last, gap);
      }
    } else {
      DropKeepsSparse(s.records, k, t, last, gap);
    }
  }

  lemma OtherKeepsSparse(s: Sched, e: Event, t: nat)
    requires Shape(s) && ActiveTtl(s, t) && SparseAt(s, t) && !e.ReservingDue? && !e.Restarting?
    ensures t < |Step(s, e).ttl| && SparseAt(Step(s, e), t)
  {
    DeadlineStep(s, e, t);
    if e.Stopping? || e.DrainBeginning? || e.CancellingPending? || e.Expiry? {
      SweepingKeepsSparse(s, e, t);
    } else if !e.SettingLastTtl? {
      TokenKeepsSparse(s, e, t);
    }
  }

  // ----- so few of them are in flight

  function Deadlines(m: map<nat, Record>, keys: set<nat>): set<int>
    requires keys <= m.Keys
  {
    set k | k in keys :: m[k].deadline
  }

  lemma {:induction false} OneDeadlineEach(m: map<nat, Record>, keys: set<nat>)
    requires keys <= m.Keys
    requires forall j, k | j in keys && k in keys && j != k :: m[j].deadline != m[k].deadline
    ensures |Deadlines(m, keys)| == |keys|
    decreases |keys|
  {
    if keys != {} {
      var k := AnyOf(keys);
      var rest := keys - {k};
      OneDeadlineEach(m, rest);
      assert Deadlines(m, keys) == Deadlines(m, rest) + {m[k].deadline};
      assert keys == rest + {k};
    } else {
      assert Deadlines(m, keys) == {};
    }
  }

  /** A sparse TTL that is due, on time, with nothing overdue, has room. */
  lemma SparseHasRoom(s: Sched, now: int, t: nat)
    requires Valid(s) && CapCoversTimeout(s.config) && ActiveTtl(s, t) && SparseAt(s, t)
    requires s.ttl[t].nextSendAt == now
    requires forall k | k in Flying(s) :: now < s.records[k].deadline
    ensures HasRoom(s, t)
  {
    var m, keys := s.records, Members(s.records, InFlight, At(t));
    assert forall k | k in keys :: k in Flying(s);
    assert Members(m, Held, At(t)) == {};
    FewInFlight(m, keys, now, s.config, t);
  }

  /** Deadlines an interval apart, all after `now` and within a timeout of it, are fewer than the cap. */
  lemma FewInFlight(m: map<nat, Record>, keys: set<nat>, now: int, c: Config, t: nat)
    requires Normal(c) && CapCoversTimeout(c) && keys == Members(m, InFlight, At(t))
    requires Sparse(m, t, now - c.intervalMs + c.timeoutMs, c.intervalMs)
    requires forall k | k in keys :: now < m[k].deadline
    ensures |keys| < c.maxInflightPerTtl
  {
    var i, n := c.intervalMs, c.maxInflightPerTtl;
    OneDeadlineEach(m, keys);
    var a := Deadlines(m, keys);
    assert (n - 1) * i == n * i - i;
    assert forall x, y | x in a && y in a && x < y :: i <= y - x;
    ApartBound(a, i, now + 1, now + c.timeoutMs - i + 1, n - 1);
  }

  // ----- turns

  lemma NextOnTime(interval: int, now: int)
    requires 1 <= interval
    ensures NextCell(now, interval, now) == now + interval
  {
  }

  lemma WiderStaysSparse(m: map<nat, Record>, t: nat, last: int, last': int, gap: int)
    requires Sparse(m, t, last, gap) && last <= last'
    ensures Sparse(m, t, last', gap)
  {
  }

  /** Serving at `now` moves the deadline of `t`, which is not overdue, by one interval if at all. */
  lemma ServedOnTime(e: Sched, now: int, t: nat)
    requires Shape(e) && ActiveTtl(e, t) && now <= e.ttl[t].nextSendAt
    ensures
      var (r, b) := ReserveDue(e, now);
      && t < |r.ttl| && r.config == e.config
      && r.ttl[t].nextSendAt == e.ttl[t].nextSendAt + (if Handles(b, t) then e.config.intervalMs else 0)
      && (Handles(b, t) ==> e.ttl[t].nextSendAt == now)
  {
    if e.active && e.nextGlobalSendAt <= now {
      LoopSettles(e, now, t);
      ReserveKeepsConfig(e, now);
      NextOnTime(e.config.intervalMs, now);
    }
  }

  lemma SettleKeepsValid(s: Sched, token: Token, now: int, o: Outcome)
    requires Valid(s)
    ensures Valid(Settle(s, token, now, o)) && Settle(s, token, now, o).config == s.config
  {
    match o
    case WasSent => MarkIssuedKeepsValid(s, token, now);
    case Failed => if HoldsSlot(s, token) { ReleaseKeepsValid(s, token, true); }
    case FromCache => if HoldsSlot(s, token) { ReleaseKeepsValid(s, token, false); }
  }

  /** What settling the slot leaves in the table, and that it moves no deadline. */
  lemma Settled(m: map<nat, Record>, r: Sched, token: Token, now: int, o: Outcome, t: nat)
    requires Shape(r) && HoldsSlot(r, token) && t < |r.ttl|
    requires token.sequence !in m && r.records == m[token.sequence := Record(token, Reserved, 0)]
    ensures
      var s' := Settle(r, token, now, o);
      && |s'.ttl| == |r.ttl| && s'.ttl[t].nextSendAt == r.ttl[t].nextSendAt && s'.config == r.config
      && s'.records
      == (if o == WasSent then m[token.sequence := Record(token, Issued, now + r.config.timeoutMs)] else m)
  {
    var k := token.sequence;
    assert m[k := Record(token, Reserved, 0)] - {k} == m;
  }

  /** Settling the slot adds at most one probe to `t`, an interval later than all before it. */
  lemma SettleKeepsSparse(m: map<nat, Record>, r: Sched, token: Token, now: int, o: Outcome, t: nat, last: int)
    requires Shape(r) && HoldsSlot(r, token) && t < |r.ttl|
    requires token.sequence !in m && r.records == m[token.sequence := Record(token, Reserved, 0)]
    requires Sparse(m, t, last, r.config.intervalMs)
    requires r.ttl[t].nextSendAt + r.config.timeoutMs
          == last + r.config.intervalMs + (if token.ttl == t then r.config.intervalMs else 0)
    requires token.ttl == t ==> now + r.config.timeoutMs == last + r.config.intervalMs
    ensures t < |Settle(r, token, now, o).ttl| && SparseAt(Settle(r, token, now, o), t)
  {
    var i := r.config.intervalMs;
    var newest := Record(token, Issued, now + r.config.timeoutMs);
    Settled(m, r, token, now, o, t);
    if token.ttl == t {
      NewestKeepsSparse(m, token.sequence, newest, t, last, i);
      WiderStaysSparse(m, t, last, last + i, i);
    } else {
      PutKeepsSparse(m, token.sequence, newest, t, last, i);
    }
  }

  lemma ServeKeepsSparse(e: Sched, now: int, o: Outcome, t: nat)
    requires Valid(e) && ActiveTtl(e, t) && SparseAt(e, t) && now <= e.ttl[t].nextSendAt
    ensures t < |Serve(e, now, o).ttl| && SparseAt(Serve(e, now, o), t)
  {
    var i, last := e.config.intervalMs, e.ttl[t].nextSendAt - e.config.intervalMs + e.config.timeoutMs;
    ServedOnTime(e, now, t);
    ServedRecords(e, now);
    var (r, b) := ReserveDue(e, now);
    if b.slots == [] {
      WiderStaysSparse(e.records, t, last, last + i, i);
    } else {
      var token := b.slots[0].token;
      var from := if t in b.skipped then last + i else last;
      ChosenOnce(e, now, t);
      WiderStaysSparse(e.records, t, last, from, i);
      SettleKeepsSparse(e.records, r, token, now, o, t, from);
    }
  }

  /** No TTL is both turned away and granted in one call. */
  lemma ChosenOnce(e: Sched, now: int, t: nat)
    requires Shape(e)
    ensures
      var b := ReserveDue(e, now).1;
      b.slots != [] && b.slots[0].token.ttl == t ==> t !in b.skipped
  {
    LoopChooses(e, now);
  }

  lemma ReserveKeepsValid(s: Sched, now: int)
    requires Valid(s)
    ensures Valid(ReserveDue(s, now).0)
  {
    ReserveLoopKeepsValid(s, now);
  }

  lemma ServeKeepsValid(e: Sched, now: int, o: Outcome)
    requires Valid(e)
    ensures Valid(Serve(e, now, o)) && Serve(e, now, o).config == e.config
  {
    ReserveKeepsValid(e, now);
    ReserveKeepsConfig(e, now);
    var (r, b) := ReserveDue(e, now);
    if b.slots != [] { SettleKeepsValid(r, b.slots[0].token, now, o); }
  }

  lemma ExpiryOnTime(s: Sched, now: int, t: nat)
    requires Valid(s) && ActiveTtl(s, t) && SparseAt(s, t)
    ensures
      var e := Expire(s, now);
      && Valid(e) && e.config == s.config && ActiveTtl(e, t) && SparseAt(e, t)
      && e.ttl[t].nextSendAt == s.ttl[t].nextSendAt
      && forall k | k in Flying(e) :: now < e.records[k].deadline
  {
    SweepKeepsValid(s, s.records.Keys, Expiring(now));
    SweepKeepsSparse(s.records, Expiring(now), t, s.ttl[t].nextSendAt - s.config.intervalMs + s.config.timeoutMs,
                     s.config.intervalMs);
    ExpiredAreOut(s, now);
  }

  lemma RoundKeepsSparse(s: Sched, r: Round, t: nat)
    requires Valid(s) && ActiveTtl(s, t) && SparseAt(s, t)
    requires r.Tick? ==> r.now <= s.ttl[t].nextSendAt
    requires r.Other? ==> !r.e.ReservingDue? && !r.e.Restarting?
    ensures
      var s' := Play(s, r);
      Valid(s') && s'.config == s.config && t < |s'.ttl| && SparseAt(s', t)
  {
    match r {
      case Other(e) =>
        StepKeepsValid(s, e);
        OtherKeepsSparse(s, e, t);
      case Tick(now, o) =>
        ExpiryOnTime(s, now, t);
        ServeKeepsValid(Expire(s, now), now, o);
        ServeKeepsSparse(Expire(s, now), now, o, t);
    }
  }

  /** No false backpressure: in every run that keeps `t` active and never finds it overdue, a cap of at
      least timeout / interval, rounded up, never turns it away. */
  lemma {:induction false} NoFalseBackpressure(s: Sched, rs: seq<Round>, t: nat)
    requires Valid(s) && CapCoversTimeout(s.config) && OnTime(s, rs, t) && SparseAt(s, t)
    ensures AlwaysRoom(s, rs, t)
    decreases |rs|
  {
    if rs == [] {
    } else {
      RoundKeepsSparse(s, rs[0], t);
      if rs[0].Tick? {
        var now := rs[0].now;
        ExpiryOnTime(s, now, t);
        if Due(Expire(s, now), now, t) { SparseHasRoom(Expire(s, now), now, t); }
      }
      NoFalseBackpressure(Play(s, rs[0]), rs[1..], t);
    }
  }

  /** The cap `DoTrace` asks for covers the timeout, and a trace starts sparse. */
  lemma TraceHasRoom(c: Config, session: nat, epoch: nat, start: int, rs: seq<Round>, t: nat)
    requires 1 <= c.intervalMs && 1 <= c.timeoutMs
    requires c.maxInflightPerTtl == Max(1, (c.timeoutMs + c.intervalMs - 1) / c.intervalMs)
    requires OnTime(Started(c, session, epoch, start), rs, t)
    ensures AlwaysRoom(Started(c, session, epoch, start), rs, t)
  {
    var s := Started(c, session, epoch, start);
    StartedIsValid(c, session, epoch, start);
    assert s.records == map[];
    var i, n := c.intervalMs, (c.timeoutMs + c.intervalMs - 1) / c.intervalMs;
    assert c.timeoutMs + i - 1 == i * n + (c.timeoutMs + i - 1) % i;
    assert n >= 1;
    assert s.config.maxInflightPerTtl * i == i * n;
    NoFalseBackpressure(s, rs, t);
  }

  // ----- and the global cap

  ghost predicate AllWithinCaps(s: Sched)
    requires Shape(s)
  {
    forall u | Traced(s, u) :: WithinCaps(s, u)
  }

  lemma StepKeepsAllCaps(s: Sched, e: Event)
    requires Valid(s) && AllWithinCaps(s)
    ensures Valid(Step(s, e)) && AllWithinCaps(Step(s, e)) && Step(s, e).config == s.config
  {
    StepKeepsValid(s, e);
    forall u | Traced(Step(s, e), u) ensures WithinCaps(Step(s, e), u) { StepKeepsCaps(s, e, u); }
  }

  function SettleEvent(token: Token, now: int, o: Outcome): Event {
    match o
    case WasSent => MarkingIssued(token, now)
    case Failed => MarkingIssueFailed(token)
    case FromCache => MarkingCached(token)
  }

  lemma ExpireKeepsAllCaps(s: Sched, now: int)
    requires Shape(s) && AllWithinCaps(s)
    ensures AllWithinCaps(Expire(s, now))
  {
    forall u | Traced(s, u) ensures WithinCaps(Expire(s, now), u) { SweepKeepsCaps(s, Expiring(now), u); }
  }

  lemma ReserveKeepsAllCaps(s: Sched, now: int)
    requires Shape(s) && AllWithinCaps(s)
    ensures AllWithinCaps(ReserveDue(s, now).0)
  {
    if s.active && s.nextGlobalSendAt <= now {
      ReserveKeepsConfig(s, now);
      forall u | Traced(s, u) ensures WithinCaps(ReserveLoop(s, now).0, u) { ReserveKeepsCaps(s, now, u); }
    }
  }

  lemma SettleIsStep(r: Sched, token: Token, now: int, o: Outcome)
    requires Shape(r)
    ensures Settle(r, token, now, o) == Step(r, SettleEvent(token, now, o))
  {
  }

  lemma SettleKeepsAllCaps(r: Sched, token: Token, now: int, o: Outcome)
    requires Valid(r) && AllWithinCaps(r)
    ensures AllWithinCaps(Settle(r, token, now, o))
  {
    SettleIsStep(r, token, now, o);
    StepKeepsAllCaps(r, SettleEvent(token, now, o));
  }

  lemma ServeKeepsAllCaps(e: Sched, now: int, o: Outcome)
    requires Valid(e) && AllWithinCaps(e)
    ensures AllWithinCaps(Serve(e, now, o))
  {
    ReserveKeepsValid(e, now);
    ReserveKeepsAllCaps(e, now);
    var (r, b) := ReserveDue(e, now);
    if b.slots != [] { SettleKeepsAllCaps(r, b.slots[0].token, now, o); }
  }

  lemma RoundKeepsAllCaps(s: Sched, r: Round)
    requires Valid(s) && AllWithinCaps(s)
    ensures AllWithinCaps(Play(s, r))
  {
    match r {
      case Other(e) => StepKeepsAllCaps(s, e);
      case Tick(now, o) =>
        SweepKeepsValid(s, s.records.Keys, Expiring(now));
        ExpireKeepsAllCaps(s, now);
        ServeKeepsAllCaps(Expire(s, now), now, o);
    }
  }

  /** The global cap on logical probes covers every TTL's own. */
  predicate GlobalCapCovers(c: Config) {
    c.firstTtl <= c.lastTtl && c.maxInflight >= (c.lastTtl - c.firstTtl + 1) * c.maxInflightPerTtl
  }

  /** Or it is no tighter than the cap on transport requests, which a probe in flight counts under too. */
  predicate GlobalCapIdle(c: Config) { GlobalCapCovers(c) || c.maxTransport <= c.maxInflight }

  /** If a turn passes over `t`, that is because its transport is full. */
  predicate NotHeldBack(e: Sched, now: int, t: nat)
    requires Shape(e)
  {
    t in ReserveDue(e, now).1.skipped ==> t < |e.ttl| && TransportFull(e, t)
  }

  predicate OnlyTransportFills(s: Sched, rs: seq<Round>, t: nat)
    requires Shape(s)
    decreases |rs|
  {
    rs != [] ==>
      && (rs[0].Tick? ==> NotHeldBack(Expire(s, rs[0].now), rs[0].now, t))
      && OnlyTransportFills(Play(s, rs[0]), rs[1..], t)
  }

  lemma FlightsAreOutstanding(e: Sched)
    requires Valid(e)
    ensures e.logicalInflight <= e.transportOutstanding
  {
    var flying, owed := Members(e.records, InFlight, Anywhere), Members(e.records, Transport, Anywhere);
    assert flying <= owed;
    SubsetSize(flying, owed);
  }

  /** A TTL with room under its own cap is logically full only if its transport is full too. */
  lemma FullMeansTransport(e: Sched, t: nat)
    requires Valid(e) && AllWithinCaps(e) && Traced(e, t) && GlobalCapIdle(e.config) && HasRoom(e, t)
    ensures LogicalFull(e, t) ==> TransportFull(e, t)
  {
    if GlobalCapCovers(e.config) { OwnCapDecides(e, t); } else { FlightsAreOutstanding(e); }
  }

  lemma RoomIsEnough(e: Sched, now: int, t: nat)
    requires Valid(e) && AllWithinCaps(e) && Traced(e, t) && GlobalCapIdle(e.config)
    requires Due(e, now, t) ==> HasRoom(e, t)
    ensures NotHeldBack(e, now, t)
  {
    ReserveChooses(e, now);
    if Due(e, now, t) { FullMeansTransport(e, t); }
  }

  lemma DueHasRoom(e: Sched, now: int, t: nat)
    requires Valid(e) && CapCoversTimeout(e.config) && ActiveTtl(e, t) && SparseAt(e, t) && now <= e.ttl[t].nextSendAt
    requires forall k | k in Flying(e) :: now < e.records[k].deadline
    requires AllWithinCaps(e) && GlobalCapIdle(e.config)
    ensures NotHeldBack(e, now, t)
  {
    if Due(e, now, t) { SparseHasRoom(e, now, t); }
    RoomIsEnough(e, now, t);
  }

  lemma TurnHasRoom(s: Sched, now: int, t: nat)
    requires Valid(s) && CapCoversTimeout(s.config) && ActiveTtl(s, t) && SparseAt(s, t) && now <= s.ttl[t].nextSendAt
    requires AllWithinCaps(s) && GlobalCapIdle(s.config)
    ensures NotHeldBack(Expire(s, now), now, t)
  {
    ExpiryOnTime(s, now, t);
    ExpireKeepsAllCaps(s, now);
    DueHasRoom(Expire(s, now), now, t);
  }

  /** With a wide enough cap of its own and an idle global one, only the transport ever makes a TTL wait that is
      on time. */
  lemma {:induction false} LogicalCapsNeverAct(s: Sched, rs: seq<Round>, t: nat)
    requires Valid(s) && CapCoversTimeout(s.config) && OnTime(s, rs, t) && SparseAt(s, t)
    requires AllWithinCaps(s) && GlobalCapIdle(s.config)
    ensures OnlyTransportFills(s, rs, t)
    decreases |rs|
  {
    if rs == [] {
    } else {
      RoundKeepsSparse(s, rs[0], t);
      RoundKeepsAllCaps(s, rs[0]);
      if rs[0].Tick? { TurnHasRoom(s, rs[0].now, t); }
      LogicalCapsNeverAct(Play(s, rs[0]), rs[1..], t);
    }
  }

  function Clamped(x: int): nat { if x < 128 then 128 else if 4096 < x then 4096 else x }

  /** The caps `DoTrace` asks for: a TTL's own logical cap covers the timeout, and its transport has room for one
      more; the global ones cover all TTLs up to the last hop, but lie between 128 and 4096. */
  predicate TraceCaps(c: Config) {
    && 1 <= c.intervalMs && 1 <= c.timeoutMs && 1 <= c.firstTtl <= c.lastTtl
    && c.maxInflightPerTtl == Max(1, (c.timeoutMs + c.intervalMs - 1) / c.intervalMs)
    && c.maxInflight == Clamped(c.lastTtl * c.maxInflightPerTtl)
    && c.maxTransportPerTtl == c.maxInflightPerTtl + 1
    && c.maxTransport == Clamped(c.lastTtl * c.maxTransportPerTtl)
  }

  lemma OwnCapIsRoundedUp(c: Config)
    requires TraceCaps(c)
    ensures CapCoversTimeout(Normalize(c))
  {
    var i, n := c.intervalMs, (c.timeoutMs + c.intervalMs - 1) / c.intervalMs;
    assert c.timeoutMs + i - 1 == i * n + (c.timeoutMs + i - 1) % i;
    assert c.maxInflightPerTtl == n;
  }

  lemma ProductsOfCaps(first: nat, last: nat, cap: nat)
    requires 1 <= first <= last
    ensures (last - first + 1) * cap <= last * cap <= last * (cap + 1)
  {
    ProductOrder(last - first + 1, last, cap);
  }

  lemma ClampedTogether(range: int, most: int, more: int, cap: nat)
    requires range <= most <= more
    ensures
      var inflight := Max(cap, Clamped(most));
      range <= inflight || Max(inflight, Clamped(more)) <= inflight
  {
  }

  /** Where the global cap is clamped from above, so is the one on transport requests. */
  lemma GlobalCapIsIdle(c: Config)
    requires TraceCaps(c)
    ensures GlobalCapIdle(Normalize(c))
  {
    var cap := c.maxInflightPerTtl;
    ProductsOfCaps(c.firstTtl, c.lastTtl, cap);
    ClampedTogether((c.lastTtl - c.firstTtl + 1) * cap, c.lastTtl * cap, c.lastTtl * (cap + 1), cap);
  }

  /** So in a trace, whatever its options, a TTL that is on time is passed over only for a full transport. */
  lemma TraceIsNotHeldBack(c: Config, session: nat, epoch: nat, start: int, rs: seq<Round>, t: nat)
    requires TraceCaps(c) && OnTime(Started(c, session, epoch, start), rs, t)
    ensures OnlyTransportFills(Started(c, session, epoch, start), rs, t)
  {
    var s := Started(c, session, epoch, start);
    OwnCapIsRoundedUp(c);
    GlobalCapIsIdle(c);
    StartedIsValid(c, session, epoch, start);
    assert s.records == map[];
    forall u | Traced(s, u) ensures WithinCaps(s, u) {
      CapsAlwaysHold(c, session, epoch, start, [], u);
    }
    LogicalCapsNeverAct(s, rs, t);
  }
}
