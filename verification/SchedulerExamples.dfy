/** Concrete runs in which what is not promised does not hold: a start over an outstanding probe, a quota
    spent by a local error, a race between an expiry and a completion, and a transport that makes a TTL wait. */
module SchedulerExamples {
  import opened SchedulerModel
  import opened SchedulerCensus
  import opened SchedulerRuns
  import opened SchedulerStarts
  import opened SchedulerAccounts
  import opened SchedulerWake
  import opened SchedulerBackpressure

  /** One TTL, at most two probes at a time, and a quota of two. */
  const PAIR := Config(10, 10, 1, 1, 2, 2, 2, 2, 1000, 2)

  const FIRST := Token(1, 1, 1, 1)

  // ----- a first session with one probe on its way

  predicate Sole(c: Config) { Normal(c) && c.firstTtl == 1 == c.lastTtl }

  /** The only TTL is due and has no probe of this epoch. */
  predicate Ready(s: Sched, now: int)
    requires Shape(s)
  {
    && Sole(s.config) && s.activeLastTtl == 1 && s.active && s.sequence == 0
    && s.nextGlobalSendAt == now && s.ttl[1].nextSendAt == now && s.ttl[1].reserved == 0
    && s.ttl[1].counters == ZERO.(transportOutstanding := s.ttl[1].counters.transportOutstanding)
    && s.logicalInflight == 0 && s.reserved == 0
  }

  predicate IsFirst(s: Sched) {
    && Valid(s) && s.config == PAIR && Ready(s, 0) && s.records == map[] && NextToken(s, 1) == FIRST
    && s.transportOutstanding == s.ttl[1].counters.transportOutstanding == 0
  }

  predicate SentOne(s: Sched) {
    && Valid(s) && s.config == PAIR
    && 1 in s.records && s.records[1] == Record(FIRST, Issued, 10)
    && s.transportOutstanding == 1 && s.ttl[1].reserved == 0
    && s.ttl[1].counters == ZERO.(sent := 1, inFlight := 1, transportOutstanding := 1)
  }

  lemma StartIsReady(s: Sched, session: nat, epoch: nat, now: int)
    requires Shape(s) && Census(s) && Sole(s.config)
    ensures
      var s' := Start(s, session, epoch, now);
      && Census(s') && s'.config == s.config && Ready(s', now) && s'.session == session && s'.epoch == epoch
      && s'.transportOutstanding == s.transportOutstanding
      && s'.ttl[1].counters.transportOutstanding == s.ttl[1].counters.transportOutstanding
  {
    var b := s.(session := session, sequence := 0, active := true);
    StartKeepsCensus(s, session, epoch, now);
    RetiredCounts(b, Anywhere);
  }

  lemma FreshOwesNone(f: Sched, c: Config)
    requires Sole(c) && f == Fresh(c)
    ensures f.config == c && f.records == map[] && f.transportOutstanding == 0
    ensures f.ttl[1].counters.transportOutstanding == 0
  {
  }

  lemma StartOfNone(s: Sched, session: nat, epoch: nat, now: int)
    requires Shape(s) && s.records == map[]
    ensures Start(s, session, epoch, now).records == map[]
  {
  }

  lemma FirstStart(f: Sched, c: Config)
    requires c == PAIR && f == Fresh(c) && Valid(Start(f, 1, 1, 0))
    ensures IsFirst(Start(f, 1, 1, 0))
  {
    FreshIsValid(c);
    FreshOwesNone(f, c);
    StartIsReady(f, 1, 1, 0);
    StartOfNone(f, 1, 1, 0);
  }

  lemma FirstStarted(c: Config) returns (s: Sched)
    requires c == PAIR
    ensures s == Started(c, 1, 1, 0) && IsFirst(s)
  {
    s := Started(c, 1, 1, 0);
    StartedIsValid(c, 1, 1, 0);
    FirstStart(Fresh(c), c);
  }

  lemma ReadyIsGranted(s: Sched, now: int)
    requires Shape(s) && s.config == PAIR && Ready(s, now)
    requires s.transportOutstanding <= 1 && s.ttl[1].counters.transportOutstanding <= 1
    ensures ReserveDue(s, now) == (Grant(Arm(s, now, 1), now, 1), Batch([Slot(NextToken(s, 1), now)], []))
  {
    SoleTtlGranted(s, now);
  }

  /** Reserve at time 0 and issue the probe. */
  function SendFirst(s: Sched): (s': Sched)
    requires Shape(s)
    ensures Shape(s')
  {
    MarkIssued(ReserveDue(s, 0).0, FIRST, 0)
  }

  lemma FirstIsSent(s: Sched)
    requires IsFirst(s)
    ensures SentOne(SendFirst(s))
  {
    ReadyIsGranted(s, 0);
    StepKeepsValid(s, ReservingDue(0));
    MarkIssuedKeepsValid(ReserveDue(s, 0).0, FIRST, 0);
  }

  lemma SentFirst(c: Config) returns (s: Sched)
    requires c == PAIR
    ensures s == SendFirst(Started(c, 1, 1, 0)) && SentOne(s)
  {
    var f := FirstStarted(c);
    FirstIsSent(f);
    s := SendFirst(f);
  }

  // ----- what can happen next

  /** Started again, the next grant reuses key 1: it is counted as held, and no record holds it. */
  lemma SecondStartCollides(c: Config)
    requires c == PAIR
    ensures
      var (r, b) := ReserveDue(Start(SendFirst(Started(c, 1, 1, 0)), 2, 2, 5), 5);
      && b.slots == [Slot(Token(2, 2, 1, 1), 5)]
      && !Census(r) && r.reserved == 1 && Count(r.records, Held, Anywhere) == 0
  {
    var s := SentFirst(c);
    StartCollides(s);
  }

  lemma StartCollides(s: Sched)
    requires SentOne(s)
    ensures
      var (r, b) := ReserveDue(Start(s, 2, 2, 5), 5);
      && b.slots == [Slot(Token(2, 2, 1, 1), 5)]
      && !Census(r) && r.reserved == 1 && Count(r.records, Held, Anywhere) == 0
  {
    StartIsReady(s, 2, 2, 5);
    StartKeepsOwed(s, 2, 2, 5, 1);
    NothingIsHeld(Start(s, 2, 2, 5));
  }

  lemma NothingIsHeld(s: Sched)
    requires Shape(s) && Census(s) && s.config == PAIR && Ready(s, 5) && s.session == s.epoch == 2 && 1 in s.records
    requires s.transportOutstanding <= 1 && s.ttl[1].counters.transportOutstanding <= 1
    ensures
      var (r, b) := ReserveDue(s, 5);
      && b.slots == [Slot(Token(2, 2, 1, 1), 5)]
      && !Census(r) && r.reserved == 1 && Count(r.records, Held, Anywhere) == 0
  {
    ReadyIsGranted(s, 5);
    ReserveDueKeepsCensusIff(s, 5);
  }

  /** A local error of the one probe sent spends the quota of two. */
  lemma ErrorSpendsTwo(c: Config, es: seq<Event>)
    requires c == PAIR
    requires es == [ReservingDue(0), MarkingIssued(FIRST, 0), Completion(FIRST, LocalError, 5)]
    ensures
      var s0 := Started(c, 1, 1, 0);
      var s, l := Exec(s0, es), PostAll(BLANK, s0, es, 1);
      && |s.ttl| == 2 && s.config.probesPerTtl == 2 && QuotaReached(s.config, s.ttl[1])
      && s.ttl[1].counters.sent == 1 && Used(s, l, 1) == Taken(s, l, 1) == 1
  {
    var s := FirstStarted(c);
    FirstIsSent(s);
    ErrorAfterSending(s, es);
  }

  lemma ErrorAfterSending(s: Sched, es: seq<Event>)
    requires IsFirst(s) && SentOne(SendFirst(s))
    requires es == [ReservingDue(0), MarkingIssued(FIRST, 0), Completion(FIRST, LocalError, 5)]
    ensures
      var s', l := Exec(s, es), PostAll(BLANK, s, es, 1);
      && |s'.ttl| == 2 && s'.config.probesPerTtl == 2 && QuotaReached(s'.config, s'.ttl[1])
      && s'.ttl[1].counters.sent == 1 && Used(s', l, 1) == Taken(s', l, 1) == 1
  {
    var r, i := Step(s, es[0]), SendFirst(s);
    assert Step(r, es[1]) == i;
    assert es[1..][1..][1..] == [];
    assert Exec(s, es) == Exec(i, es[1..][1..]) == Step(i, es[2]);
    assert PostAll(BLANK, s, es, 1) == PostAll(BLANK, i, es[1..][1..], 1) == Post(BLANK, i, es[2], 1);
    ErrorIsPosted(i);
  }

  lemma ErrorIsPosted(s: Sched)
    requires SentOne(s)
    ensures
      var e := Completion(FIRST, LocalError, 5);
      var s', l := Step(s, e), Post(BLANK, s, e, 1);
      && |s'.ttl| == 2 && s'.config.probesPerTtl == 2 && QuotaReached(s'.config, s'.ttl[1])
      && s'.ttl[1].counters.sent == 1 && Used(s', l, 1) == Taken(s', l, 1) == 1
  {
  }

  /** The probe answers at 5, in time; the answer is processed at 20, before or after the expiry. */
  lemma RaceHappens(c: Config)
    requires c == PAIR
    ensures
      var s := SendFirst(Started(c, 1, 1, 0));
      && Raced(s, FIRST, 5, 20)
      && Complete(Expire(s, 20), FIRST, Reply, 5) != Expire(Complete(s, FIRST, Reply, 5), 20)
  {
    var s := SentFirst(c);
    ExpireCompleteCommuteIff(s, FIRST, Reply, 5, 20);
  }

  // ----- a transport that does not answer

  /** A trace of one TTL whose interval is its timeout, with the caps that a trace asks for. */
  const LONE := Config(10, 10, 1, 1, 128, 1, 128, 2, 1000, 0)

  /** The TTL is due, all its probes in flight are overdue, and `k` requests have not completed. */
  predicate Waits(s: Sched, now: int, k: nat) {
    && Valid(s) && s.config == LONE && s.activeLastTtl == 1 && s.active
    && s.nextGlobalSendAt <= now && s.ttl[1].nextSendAt == now
    && s.ttl[1].reserved == 0 && s.reserved == 0
    && s.transportOutstanding == s.ttl[1].counters.transportOutstanding == k
    && Flying(s) <= Overdue(s, now)
  }

  lemma StillFlyingIff(s: Sched, now: int, j: nat)
    requires Shape(s)
    ensures j in Flying(Expire(s, now)) <==> j in Flying(s) && j !in Overdue(s, now)
  {
  }

  lemma ExpiredWaits(s: Sched, now: int, k: nat)
    requires Waits(s, now, k)
    ensures
      var e := Expire(s, now);
      Waits(e, now, k) && Flying(e) == {} && e.logicalInflight == 0 && e.ttl[1].counters.inFlight == 0
  {
    var e := Expire(s, now);
    SweepKeepsValid(s, s.records.Keys, Expiring(now));
    forall j ensures j !in Flying(e) { StillFlyingIff(s, now, j); }
    assert Members(e.records, InFlight, At(1)) <= Flying(e);
    assert Leavers(s.records, s.records.Keys, Expiring(now), Held, At(1)) == {};
    assert Leavers(s.records, s.records.Keys, Expiring(now), Held, Anywhere) == {};
  }

  lemma ServedWaits(e: Sched, now: int, k: nat)
    requires Waits(e, now, k) && k < 2
    requires Flying(e) == {} && e.logicalInflight == 0 && e.ttl[1].counters.inFlight == 0
    ensures Waits(Serve(e, now, WasSent), now + 10, k + 1)
  {
    SoleTtlGranted(e, now);
    ServeKeepsValid(e, now, WasSent);
    ServedRecords(e, now);
    var s', token := Serve(e, now, WasSent), NextToken(e, 1);
    assert forall j | j in Flying(s') :: j == token.sequence || j in Flying(e);
  }

  lemma TurnWaits(s: Sched, now: int, k: nat)
    requires Waits(s, now, k) && k < 2
    ensures Waits(Play(s, Tick(now, WasSent)), now + 10, k + 1)
  {
    ExpiredWaits(s, now, k);
    ServedWaits(Expire(s, now), now, k);
  }

  /** With two requests outstanding the transport is full, and the TTL is passed over. */
  lemma FullIsPassedOver(s: Sched, now: int)
    requires Waits(s, now, 2)
    ensures ReserveDue(Expire(s, now), now).1.skipped == [1]
  {
    ExpiredWaits(s, now, 2);
    SoleTtlPassedOver(Expire(s, now), now);
  }

  lemma LoneStart(f: Sched, c: Config)
    requires c == LONE && f == Fresh(c)
    ensures Waits(Start(f, 1, 1, 0), 0, 0)
  {
    FreshIsValid(c);
    FreshOwesNone(f, c);
    StartValidIff(f, 1, 1, 0);
    StartIsReady(f, 1, 1, 0);
    StartOfNone(f, 1, 1, 0);
  }

  lemma LoneStarted(c: Config) returns (s: Sched)
    requires c == LONE
    ensures s == Started(c, 1, 1, 0) && Waits(s, 0, 0)
  {
    LoneStart(Fresh(c), c);
    s := Start(Fresh(c), 1, 1, 0);
  }

  /** On time throughout, and passed over by the third turn. */
  predicate WaitsAtThird(s: Sched, rs: seq<Round>)
    requires Shape(s) && |rs| == 3 && rs[2].Tick?
  {
    && OnTime(s, rs, 1)
    && ReserveDue(Expire(Play(Play(s, rs[0]), rs[1]), rs[2].now), rs[2].now).1.skipped == [1]
  }

  lemma LoneIsTrace(c: Config)
    requires c == LONE
    ensures TraceCaps(c)
  {
  }

  /** If the first two probes never complete, the third turn finds the TTL on time and passes over it, for its
      transport is full. */
  lemma TransportMakesWait(c: Config, rs: seq<Round>)
    requires c == LONE && rs == [Tick(0, WasSent), Tick(10, WasSent), Tick(20, WasSent)]
    ensures TraceCaps(c) && WaitsAtThird(Started(c, 1, 1, 0), rs)
  {
    var s := LoneStarted(c);
    LoneRun(s, rs);
    LoneIsTrace(c);
  }

  lemma LoneRun(s: Sched, rs: seq<Round>)
    requires Waits(s, 0, 0) && rs == [Tick(0, WasSent), Tick(10, WasSent), Tick(20, WasSent)]
    ensures WaitsAtThird(s, rs)
  {
    var s1, s2 := Play(s, rs[0]), Play(Play(s, rs[0]), rs[1]);
    TurnWaits(s, 0, 0);
    TurnWaits(s1, 10, 1);
    FullIsPassedOver(s2, 20);
    LastTurnOnTime(s2, rs[2..]);
    assert rs[1..][1..] == rs[2..];
    assert OnTime(s1, rs[1..], 1);
  }

  lemma LastTurnOnTime(s: Sched, rs: seq<Round>)
    requires Waits(s, 20, 2) && rs == [Tick(20, WasSent)]
    ensures OnTime(s, rs, 1)
  {
    LastStaysActive(s, 20);
    assert rs[1..] == [];
  }

  lemma LastStaysActive(s: Sched, now: int)
    requires Waits(s, now, 2)
    ensures ActiveTtl(Play(s, Tick(now, WasSent)), 1)
  {
    ExpiredWaits(s, now, 2);
    ServeKeepsValid(Expire(s, now), now, WasSent);
  }
}
