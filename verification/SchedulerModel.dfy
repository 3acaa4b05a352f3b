/** The probe scheduler as a value, and each of its operations as a function on that value.
    Counters are unbounded integers (they may go negative here, so that their never doing so is a
    theorem); time is an argument. */
module SchedulerModel {
  import opened Basics

  datatype Config = Config(
    intervalMs: int, timeoutMs: int, firstTtl: nat, lastTtl: nat,
    maxInflight: nat, maxInflightPerTtl: nat,
    maxTransport: nat, maxTransportPerTtl: nat,
    maxGlobalPps: nat, probesPerTtl: nat)

  datatype Token = Token(session: nat, epoch: nat, sequence: nat, ttl: nat)

  datatype RecordState = Reserved | Issued | TimedOut | Cancelled | IgnoredEpoch

  datatype Record = Record(token: Token, state: RecordState, deadline: int)

  datatype Counters = Counters(
    sent: int, completed: int, received: int, timedOut: int, inFlight: int, localErrors: int,
    cancelled: int, schedulerSkipped: int, cacheSkipped: int, lateCompletions: int,
    transportOutstanding: int, lateSlots: int, latenessTotal: int, latenessMax: int)

  const ZERO := Counters(0, 0, 0, 0, 0, 0, 0, 0, 0, 0, 0, 0, 0, 0)

  datatype TtlState = TtlState(counters: Counters, nextSendAt: int, reserved: int)

  datatype CompletionKind = Reply | Timeout | LocalError

  datatype Disposition =
    | AcceptedReply | AcceptedTimeout | AcceptedLocalError | LateDiscarded
    | LateDiscardedAfterTimeout | WasCancelled | WasIgnoredEpoch | UnknownToken

  datatype Slot = Slot(token: Token, scheduledAt: int)

  datatype Batch = Batch(slots: seq<Slot>, skipped: seq<nat>)

  datatype Sched = Sched(
    config: Config, ttl: seq<TtlState>, records: map<nat, Record>,
    session: nat, epoch: nat, sequence: nat,
    logicalInflight: int, transportOutstanding: int, reserved: int,
    nextGlobalSendAt: int, activeLastTtl: nat, active: bool)

  // ----- configuration

  predicate Normal(c: Config) {
    && 1 <= c.intervalMs && 1 <= c.timeoutMs
    && 1 <= c.firstTtl <= c.lastTtl
    && 1 <= c.maxInflightPerTtl <= c.maxInflight <= c.maxTransport
    && c.maxInflightPerTtl <= c.maxTransportPerTtl
    && 1 <= c.maxGlobalPps
  }

  function Normalize(c: Config): (r: Config)
    ensures Normal(r)
    ensures Normal(c) ==> r == c
  {
    var first := Max(1, c.firstTtl);
    var perTtl := Max(1, c.maxInflightPerTtl);
    var inflight := Max(perTtl, c.maxInflight);
    Config(
      Max(1, c.intervalMs), Max(1, c.timeoutMs), first, Max(first, c.lastTtl),
      inflight, perTtl,
      Max(inflight, c.maxTransport), Max(perTtl, c.maxTransportPerTtl),
      Max(1, c.maxGlobalPps), c.probesPerTtl)
  }

  /** No bound of `r` is below that of `c`, and the quota is the same. */
  predicate Covers(r: Config, c: Config) {
    && c.intervalMs <= r.intervalMs && c.timeoutMs <= r.timeoutMs
    && c.firstTtl <= r.firstTtl && c.lastTtl <= r.lastTtl
    && c.maxInflight <= r.maxInflight && c.maxInflightPerTtl <= r.maxInflightPerTtl
    && c.maxTransport <= r.maxTransport && c.maxTransportPerTtl <= r.maxTransportPerTtl
    && c.maxGlobalPps <= r.maxGlobalPps && c.probesPerTtl == r.probesPerTtl
  }

  /** A configuration is raised to the least normal one that covers it. */
  lemma NormalizeIsLeast(c: Config, d: Config)
    requires Normal(d) && Covers(d, c)
    ensures Covers(Normalize(c), c) && Covers(d, Normalize(c))
  {
    assert Max(Max(1, c.maxInflightPerTtl), c.maxInflight) <= d.maxInflight;
  }

  function Spacing(c: Config): int
    requires Normal(c)
  {
    Max(1, (1000 + c.maxGlobalPps - 1) / c.maxGlobalPps)
  }

  /** The scheduler a constructor call leaves behind. */
  function Fresh(c: Config): (s: Sched)
    ensures Shape(s)
  {
    var n := Normalize(c);
    Sched(n, seq(n.lastTtl + 1, _ => TtlState(ZERO, 0, 0)), map[], 0, 0, 0, 0, 0, 0, 0, n.lastTtl, false)
  }

  // ----- what is counted

  datatype Class = InFlight | Held | Transport | Late

  datatype Scope = At(ttl: nat) | Anywhere

  predicate Belongs(r: Record, c: Class) {
    match c
    case InFlight => r.state == Issued
    case Held => r.state == Reserved
    case Transport => r.state != Reserved
    case Late => r.state == TimedOut
  }

  predicate Counts(r: Record, c: Class, sc: Scope) {
    Belongs(r, c) && (sc.At? ==> r.token.ttl == sc.ttl)
  }

  function Members(m: map<nat, Record>, c: Class, sc: Scope): set<nat> {
    set k | k in m && Counts(m[k], c, sc)
  }

  function Count(m: map<nat, Record>, c: Class, sc: Scope): nat { |Members(m, c, sc)| }

  lemma CountPut(m: map<nat, Record>, k: nat, r: Record, c: Class, sc: Scope)
    ensures Count(m[k := r], c, sc)
         == Count(m, c, sc) - One(k in m && Counts(m[k], c, sc)) + One(Counts(r, c, sc))
  {
    var before, after := Members(m, c, sc), Members(m[k := r], c, sc);
    forall j | j != k ensures j in before <==> j in after {}
    assert before - {k} == after - {k};
    SizeWithout(before, k);
    SizeWithout(after, k);
    assert k in before <==> k in m && Counts(m[k], c, sc);
    assert k in after <==> Counts(r, c, sc);
  }

  lemma SizeWithout(a: set<nat>, k: nat)
    ensures |a - {k}| == |a| - One(k in a)
  {
    if k !in a { assert a - {k} == a; }
  }

  lemma CountDrop(m: map<nat, Record>, k: nat, c: Class, sc: Scope)
    requires k in m
    ensures Count(m - {k}, c, sc) == Count(m, c, sc) - One(Counts(m[k], c, sc))
  {
    assert Members(m - {k}, c, sc) == Members(m, c, sc) - {k};
  }

  // ----- the two levels of well-formedness

  /** What keeps every index in range. */
  predicate Shape(s: Sched) {
    && Normal(s.config)
    && |s.ttl| == s.config.lastTtl + 1
    && s.config.firstTtl <= s.activeLastTtl <= s.config.lastTtl
    && forall k | k in s.records :: s.config.firstTtl <= s.records[k].token.ttl <= s.config.lastTtl
  }

  predicate RecordOk(s: Sched, k: nat)
    requires k in s.records
  {
    var r := s.records[k];
    && 1 <= k <= s.sequence
    && r.token.sequence == k
    && (r.state != IgnoredEpoch ==> r.token.session == s.session && r.token.epoch == s.epoch)
  }

  /** Every incrementally kept number equals a census of the record table. */
  predicate Census(s: Sched)
    requires Shape(s)
  {
    && (forall t | s.config.firstTtl <= t <= s.config.lastTtl ::
          && s.ttl[t].counters.inFlight == Count(s.records, InFlight, At(t))
          && s.ttl[t].reserved == Count(s.records, Held, At(t))
          && s.ttl[t].counters.transportOutstanding == Count(s.records, Transport, At(t)))
    && s.logicalInflight == Count(s.records, InFlight, Anywhere)
    && s.reserved == Count(s.records, Held, Anywhere)
    && s.transportOutstanding == Count(s.records, Transport, Anywhere)
  }

  predicate Valid(s: Sched) {
    Shape(s) && (forall k | k in s.records :: RecordOk(s, k)) && Census(s)
  }

  // ----- the four passes over the record table

  datatype Sweep = Expiring(now: int) | Draining | Cancelling | Retiring

  /** What a pass makes of one record; None when it erases it. */
  function Fate(w: Sweep, r: Record): Option<Record> {
    match w
    case Expiring(now) =>
      if r.state == Issued && r.deadline <= now then Some(r.(state := TimedOut)) else Some(r)
    case Draining => if r.state == Reserved then None else Some(r)
    case Cancelling => if r.state == Issued then Some(r.(state := Cancelled)) else Some(r)
    case Retiring => if r.state == Reserved then None else Some(r.(state := IgnoredEpoch))
  }

  predicate Leaves(w: Sweep, r: Record, c: Class) {
    Belongs(r, c) && !(Fate(w, r).Some? && Belongs(Fate(w, r).value, c))
  }

  function Leavers(m: map<nat, Record>, d: set<nat>, w: Sweep, c: Class, sc: Scope): set<nat> {
    set k | k in d && k in m && Counts(m[k], c, sc) && Leaves(w, m[k], c)
  }

  function Left(m: map<nat, Record>, d: set<nat>, w: Sweep, c: Class, sc: Scope): nat {
    |Leavers(m, d, w, c, sc)|
  }

  function Swept(m: map<nat, Record>, d: set<nat>, w: Sweep): map<nat, Record> {
    map k | k in m && (k in d ==> Fate(w, m[k]).Some?) :: if k in d then Fate(w, m[k]).value else m[k]
  }

  function Depart(x: TtlState, w: Sweep, issued: nat, held: nat): TtlState {
    x.(reserved := x.reserved - held,
       counters := x.counters.(
         inFlight := x.counters.inFlight - issued,
         completed := x.counters.completed + (if w.Expiring? then issued else 0),
         timedOut := x.counters.timedOut + (if w.Expiring? then issued else 0),
         cancelled := x.counters.cancelled + (if w.Cancelling? then issued else 0)))
  }

  function SweepTtl(x: TtlState, m: map<nat, Record>, d: set<nat>, w: Sweep, t: nat): TtlState {
    Depart(x, w, Left(m, d, w, InFlight, At(t)), Left(m, d, w, Held, At(t)))
  }

  /** The pass `w` after it has visited exactly the keys in `d`. */
  function SweepKeys(s: Sched, d: set<nat>, w: Sweep): (s': Sched)
    requires Shape(s)
    ensures Shape(s')
  {
    var m := s.records;
    s.(records := Swept(m, d, w),
       ttl := seq(|s.ttl|, t requires 0 <= t < |s.ttl| => SweepTtl(s.ttl[t], m, d, w, t)),
       logicalInflight := s.logicalInflight - Left(m, d, w, InFlight, Anywhere),
       reserved := s.reserved - Left(m, d, w, Held, Anywhere))
  }

  /** One visit of the pass `w`: it changes one record, and the numbers of that record's TTL. */
  function Visit(s: Sched, k: nat, w: Sweep): (s': Sched)
    requires Shape(s) && k in s.records
    ensures Shape(s')
  {
    var r := s.records[k];
    var issued, held := One(Leaves(w, r, InFlight)), One(Leaves(w, r, Held));
    s.(records := if Fate(w, r).Some? then s.records[k := Fate(w, r).value] else s.records - {k},
       ttl := s.ttl[r.token.ttl := Depart(s.ttl[r.token.ttl], w, issued, held)],
       logicalInflight := s.logicalInflight - issued,
       reserved := s.reserved - held)
  }

  function SweepAll(s: Sched, w: Sweep): (s': Sched)
    requires Shape(s)
    ensures Shape(s')
  {
    SweepKeys(s, s.records.Keys, w)
  }

  /** `tokens` names each record with a key in `d` once, in any order. */
  ghost predicate Lists(tokens: seq<Token>, m: map<nat, Record>, d: set<nat>) {
    && (forall i | 0 <= i < |tokens| ::
          tokens[i].sequence in d && tokens[i].sequence in m && m[tokens[i].sequence].token == tokens[i])
    && (forall i, j | 0 <= i < j < |tokens| :: tokens[i].sequence != tokens[j].sequence)
    && (forall k | k in d :: exists i :: 0 <= i < |tokens| && tokens[i].sequence == k)
  }

  function Expire(s: Sched, now: int): (s': Sched)
    requires Shape(s)
    ensures Shape(s')
  {
    SweepAll(s, Expiring(now))
  }

  /** Keys of the probes in flight. */
  function Flying(s: Sched): set<nat> { Members(s.records, InFlight, Anywhere) }

  /** Keys the next `Expire(s, now)` times out. */
  function Overdue(s: Sched, now: int): set<nat> {
    set k | k in s.records && s.records[k].state == Issued && s.records[k].deadline <= now
  }

  function BeginDrain(s: Sched): (s': Sched)
    requires Shape(s)
    ensures Shape(s')
  {
    SweepAll(s.(active := false), Draining)
  }

  function CancelPending(s: Sched): (s': Sched)
    requires Shape(s)
    ensures Shape(s')
  {
    SweepAll(BeginDrain(s), Cancelling)
  }

  // ----- lifecycle

  function StaggerOffset(index: nat, interval: int, count: int): int
    requires 1 <= count
  {
    index * interval / count
  }

  /** Restarting keeps only the outstanding transport count of a TTL, and spreads the first sends
      over one interval. */
  function Restart(s: Sched, epoch: nat, now: int): (s': Sched)
    requires Shape(s)
    ensures Shape(s')
  {
    var c := s.config;
    var r := SweepAll(s, Retiring);
    var n := c.lastTtl - c.firstTtl + 1;
    r.(epoch := epoch, active := true, activeLastTtl := c.lastTtl, nextGlobalSendAt := now,
       ttl := seq(|r.ttl|, t requires 0 <= t < |r.ttl| =>
         if t < c.firstTtl then r.ttl[t] else
         TtlState(
           ZERO.(transportOutstanding := r.ttl[t].counters.transportOutstanding),
           now + StaggerOffset(t - c.firstTtl, c.intervalMs, n),
           0)))
  }

  function Start(s: Sched, session: nat, epoch: nat, now: int): (s': Sched)
    requires Shape(s)
    ensures Shape(s')
  {
    Restart(s.(session := session, sequence := 0, active := true), epoch, now)
  }

  function Stop(s: Sched): (s': Sched)
    requires Shape(s)
    ensures Shape(s')
  {
    SweepAll(s.(active := false), Retiring)
  }

  function Clamp(x: nat, lo: nat, hi: nat): nat
    requires lo <= hi
  {
    if x < lo then lo else if hi < x then hi else x
  }

  function SetLastTtl(s: Sched, last: nat, now: int): (s': Sched)
    requires Shape(s)
    ensures Shape(s')
  {
    var next := Clamp(last, s.config.firstTtl, s.config.lastTtl);
    var from := s.activeLastTtl;
    if next == from then s else
    s.(activeLastTtl := next,
       ttl := if next < from then s.ttl else
         seq(|s.ttl|, t requires 0 <= t < |s.ttl| =>
           if from < t <= next
           then s.ttl[t].(nextSendAt := now + StaggerOffset(t - from - 1, s.config.intervalMs, next - from))
           else s.ttl[t]))
  }

  // ----- reserving

  predicate QuotaReached(c: Config, x: TtlState) {
    && c.probesPerTtl != 0
    && x.counters.sent + x.counters.localErrors + x.counters.cacheSkipped + x.reserved >= c.probesPerTtl
  }

  predicate ActiveTtl(s: Sched, t: nat) { s.config.firstTtl <= t <= s.activeLastTtl }

  /** An active TTL whose quota is open and whose send deadline has come. */
  predicate Due(s: Sched, now: int, t: nat)
    requires Shape(s)
  {
    ActiveTtl(s, t) && !QuotaReached(s.config, s.ttl[t]) && s.ttl[t].nextSendAt <= now
  }

  /** The scan over `firstTtl..hi` for the oldest deadline; 0 when none is due. */
  function LeastDue(s: Sched, now: int, hi: nat): (t: nat)
    requires Shape(s) && hi <= s.activeLastTtl
    ensures t == 0 || (t <= hi && Due(s, now, t))
  {
    if hi < s.config.firstTtl then 0 else
    var best := LeastDue(s, now, hi - 1);
    if Due(s, now, hi) && (best == 0 || s.ttl[hi].nextSendAt < s.ttl[best].nextSendAt) then hi else best
  }

  /** The first grid point after `now`, at least one interval on. */
  function NextCell(at: int, interval: int, now: int): int
    requires 1 <= interval && at <= now
  {
    at + interval * ((now - at) / interval + 1)
  }

  /** Take TTL `t` off the due list: note how late it is and move its deadline past `now`. */
  function Arm(s: Sched, now: int, t: nat): (s': Sched)
    requires Shape(s) && Due(s, now, t)
    ensures Shape(s')
  {
    var x := s.ttl[t];
    var late := now - x.nextSendAt;
    var k := x.counters;
    s.(ttl := s.ttl[t := x.(
      nextSendAt := NextCell(x.nextSendAt, s.config.intervalMs, now),
      counters := if late == 0 then k else k.(
        lateSlots := k.lateSlots + 1,
        latenessTotal := k.latenessTotal + late,
        latenessMax := Max(k.latenessMax, late)))])
  }

  predicate LogicalFull(s: Sched, t: nat)
    requires t < |s.ttl|
  {
    || s.ttl[t].counters.inFlight + s.ttl[t].reserved >= s.config.maxInflightPerTtl
    || s.logicalInflight + s.reserved >= s.config.maxInflight
  }

  predicate TransportFull(s: Sched, t: nat)
    requires t < |s.ttl|
  {
    || s.ttl[t].counters.transportOutstanding + s.ttl[t].reserved >= s.config.maxTransportPerTtl
    || s.transportOutstanding + s.reserved >= s.config.maxTransport
  }

  predicate Blocked(s: Sched, t: nat)
    requires t < |s.ttl|
  {
    LogicalFull(s, t) || TransportFull(s, t)
  }

  function Skip(s: Sched, t: nat): (s': Sched)
    requires Shape(s) && t < |s.ttl|
    ensures Shape(s')
  {
    var x := s.ttl[t];
    s.(ttl := s.ttl[t := x.(counters := x.counters.(schedulerSkipped := x.counters.schedulerSkipped + 1))])
  }

  function NextToken(s: Sched, t: nat): Token { Token(s.session, s.epoch, s.sequence + 1, t) }

  /** Inserting never overwrites a record that already has this key. */
  function Grant(s: Sched, now: int, t: nat): (s': Sched)
    requires Shape(s) && ActiveTtl(s, t)
    ensures Shape(s')
  {
    var k := s.sequence + 1;
    s.(sequence := k,
       records := if k in s.records then s.records else s.records[k := Record(NextToken(s, t), Reserved, 0)],
       ttl := s.ttl[t := s.ttl[t].(reserved := s.ttl[t].reserved + 1)],
       reserved := s.reserved + 1,
       nextGlobalSendAt := now + Spacing(s.config))
  }

  function DueSet(s: Sched, now: int): set<nat>
    requires Shape(s)
  {
    set t: nat | t <= s.activeLastTtl && Due(s, now, t)
  }

  /** One turn of the loop: take `t` off the due list, and hold a slot for it unless a cap forbids that. */
  function Attempt(s: Sched, now: int, t: nat): (o: (Sched, Option<Slot>))
    requires Shape(s) && Due(s, now, t)
    ensures Shape(o.0)
  {
    var a := Arm(s, now, t);
    if Blocked(a, t) then (Skip(a, t), None)
    else (Grant(a, now, t), Some(Slot(NextToken(a, t), s.ttl[t].nextSendAt)))
  }

  lemma AttemptSettles(s: Sched, now: int, t: nat)
    requires Shape(s) && Due(s, now, t)
    ensures
      var o := Attempt(s, now, t).0;
      && o.config == s.config && o.activeLastTtl == s.activeLastTtl && o.active == s.active
      && |o.ttl| == |s.ttl|
      && o.ttl[t].nextSendAt == NextCell(s.ttl[t].nextSendAt, s.config.intervalMs, now)
      && now < o.ttl[t].nextSendAt <= now + s.config.intervalMs
      && forall u | 0 <= u < |s.ttl| && u != t :: o.ttl[u] == s.ttl[u]
  {
    NextCellPast(s.ttl[t].nextSendAt, s.config.intervalMs, now);
  }

  lemma AttemptLeavesDueSet(s: Sched, now: int, t: nat)
    requires Shape(s) && Due(s, now, t)
    ensures t in DueSet(s, now)
    ensures DueSet(Attempt(s, now, t).0, now) == DueSet(s, now) - {t}
  {
    AttemptSettles(s, now, t);
    var s' := Attempt(s, now, t).0;
    forall u: nat | u <= s.activeLastTtl && u != t ensures Due(s', now, u) == Due(s, now, u) {
      if ActiveTtl(s, u) { assert s'.ttl[u] == s.ttl[u]; }
    }
  }

  lemma NextCellPast(at: int, interval: int, now: int)
    requires 1 <= interval && at <= now
    ensures now < NextCell(at, interval, now) <= now + interval
  {
    var q, r := (now - at) / interval, (now - at) % interval;
    assert now - at == interval * q + r;
    assert interval * (q + 1) == interval * q + interval;
  }

  function ReserveLoop(s: Sched, now: int): (o: (Sched, Batch))
    requires Shape(s)
    ensures Shape(o.0)
    decreases |DueSet(s, now)|
  {
    var t := LeastDue(s, now, s.activeLastTtl);
    if t == 0 then (s, Batch([], [])) else
    var (s', slot) := Attempt(s, now, t);
    if slot.Some? then (s', Batch([slot.value], [])) else
    AttemptLeavesDueSet(s, now, t);
    var rest := ReserveLoop(s', now);
    (rest.0, Batch(rest.1.slots, [t] + rest.1.skipped))
  }

  function ReserveDue(s: Sched, now: int): (o: (Sched, Batch))
    requires Shape(s)
    ensures Shape(o.0)
  {
    if !s.active || now < s.nextGlobalSendAt then (s, Batch([], [])) else ReserveLoop(s, now)
  }

  // ----- one probe

  predicate Matches(s: Sched, token: Token) {
    token.sequence in s.records && s.records[token.sequence].token == token
  }

  predicate HoldsSlot(s: Sched, token: Token) {
    Matches(s, token) && s.records[token.sequence].state == Reserved
  }

  function MarkIssued(s: Sched, token: Token, at: int): (s': Sched)
    requires Shape(s)
    ensures Shape(s')
  {
    if !HoldsSlot(s, token) then s else
    var x := s.ttl[token.ttl];
    s.(records := s.records[token.sequence := Record(token, Issued, at + s.config.timeoutMs)],
       ttl := s.ttl[token.ttl := x.(
         reserved := x.reserved - 1,
         counters := x.counters.(
           sent := x.counters.sent + 1,
           inFlight := x.counters.inFlight + 1,
           transportOutstanding := x.counters.transportOutstanding + 1))],
       reserved := s.reserved - 1,
       logicalInflight := s.logicalInflight + 1,
       transportOutstanding := s.transportOutstanding + 1)
  }

  function Release(s: Sched, token: Token, failed: bool): (s': Sched)
    requires Shape(s) && HoldsSlot(s, token)
    ensures Shape(s')
  {
    var x := s.ttl[token.ttl];
    s.(records := s.records - {token.sequence},
       ttl := s.ttl[token.ttl := x.(
         reserved := x.reserved - 1,
         counters := if failed
           then x.counters.(localErrors := x.counters.localErrors + 1)
           else x.counters.(cacheSkipped := x.counters.cacheSkipped + 1))],
       reserved := s.reserved - 1)
  }

  function MarkIssueFailed(s: Sched, token: Token): (s': Sched)
    requires Shape(s)
    ensures Shape(s')
  {
    if HoldsSlot(s, token) then Release(s, token, true) else s
  }

  function MarkCached(s: Sched, token: Token): (s': Sched)
    requires Shape(s)
    ensures Shape(s')
  {
    if HoldsSlot(s, token) then Release(s, token, false) else s
  }

  function Verdict(s: Sched, token: Token, kind: CompletionKind, at: int): Disposition {
    if !Matches(s, token) then UnknownToken else
    var r := s.records[token.sequence];
    match r.state
    case IgnoredEpoch => WasIgnoredEpoch
    case Cancelled => WasCancelled
    case TimedOut => LateDiscarded
    case Reserved => UnknownToken
    case Issued =>
      if at > r.deadline then LateDiscardedAfterTimeout else
      match kind
      case Reply => AcceptedReply
      case Timeout => AcceptedTimeout
      case LocalError => AcceptedLocalError
  }

  /** A decrement that stops at zero. */
  function Guarded(x: int): int { if x != 0 then x - 1 else x }

  /** The completion counters a verdict moves. */
  function Score(k: Counters, d: Disposition): Counters {
    match d
    case AcceptedReply => k.(completed := k.completed + 1, received := k.received + 1, inFlight := k.inFlight - 1)
    case AcceptedTimeout => k.(completed := k.completed + 1, timedOut := k.timedOut + 1, inFlight := k.inFlight - 1)
    case AcceptedLocalError => k.(localErrors := k.localErrors + 1, inFlight := k.inFlight - 1)
    case LateDiscarded => k.(lateCompletions := k.lateCompletions + 1)
    case LateDiscardedAfterTimeout =>
      k.(completed := k.completed + 1, timedOut := k.timedOut + 1,
         lateCompletions := k.lateCompletions + 1, inFlight := k.inFlight - 1)
    case WasCancelled => k
    case WasIgnoredEpoch => k
    case UnknownToken => k
  }

  predicate EndsFlight(d: Disposition) {
    d.AcceptedReply? || d.AcceptedTimeout? || d.AcceptedLocalError? || d.LateDiscardedAfterTimeout?
  }

  function Complete(s: Sched, token: Token, kind: CompletionKind, at: int): (s': Sched)
    requires Shape(s)
    ensures Shape(s')
  {
    var d := Verdict(s, token, kind, at);
    if d == UnknownToken then s else
    var k := Score(s.ttl[token.ttl].counters, d);
    s.(records := s.records - {token.sequence},
       ttl := s.ttl[token.ttl := s.ttl[token.ttl].(
         counters := k.(transportOutstanding := Guarded(k.transportOutstanding)))],
       logicalInflight := s.logicalInflight - One(EndsFlight(d)),
       transportOutstanding := Guarded(s.transportOutstanding))
  }

  // ----- observations

  predicate QuotasReached(s: Sched)
    requires Shape(s)
  {
    && s.config.probesPerTtl != 0
    && forall t | s.config.firstTtl <= t <= s.activeLastTtl :: QuotaReached(s.config, s.ttl[t])
  }

  function Earlier(a: Option<int>, b: int): Option<int> {
    if a.None? || b < a.value then Some(b) else a
  }

  /** The least send deadline of the quota-open TTLs in `firstTtl..hi`. */
  function NextSend(s: Sched, hi: nat): Option<int>
    requires Shape(s) && hi <= s.activeLastTtl
  {
    if hi < s.config.firstTtl then None else
    var o := NextSend(s, hi - 1);
    if QuotaReached(s.config, s.ttl[hi]) then o else Earlier(o, s.ttl[hi].nextSendAt)
  }

  function SendWake(s: Sched): Option<int>
    requires Shape(s)
  {
    if !s.active then None else
    match NextSend(s, s.activeLastTtl)
    case None => None
    case Some(n) => Some(Max(n, s.nextGlobalSendAt))
  }

  /** `w` is the least of the send wake-up and the deadlines of the probes in flight. */
  predicate IsWake(s: Sched, w: Option<int>)
    requires Shape(s)
  {
    && (w.None? <==> SendWake(s).None? && Flying(s) == {})
    && (w.Some? ==>
          && (SendWake(s) == w || exists k :: k in Flying(s) && s.records[k].deadline == w.value)
          && (SendWake(s).Some? ==> w.value <= SendWake(s).value)
          && (forall k | k in Flying(s) :: w.value <= s.records[k].deadline))
  }
}
