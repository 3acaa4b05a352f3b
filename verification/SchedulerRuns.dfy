/** Whole runs of the scheduler: every sequence of calls, in any order and with any arguments. */
module SchedulerRuns {
  import opened Basics
  import opened SchedulerModel
  import opened SchedulerCensus

  datatype Event =
    | Restarting(epoch: nat, now: int)
    | Stopping
    | DrainBeginning
    | CancellingPending
    | SettingLastTtl(last: nat, now: int)
    | ReservingDue(now: int)
    | MarkingIssued(token: Token, at: int)
    | MarkingIssueFailed(token: Token)
    | MarkingCached(token: Token)
    | Expiry(now: int)
    | Completion(token: Token, kind: CompletionKind, at: int)

  function Step(s: Sched, e: Event): (s': Sched)
    requires Shape(s)
    ensures Shape(s')
  {
    match e
    case Restarting(epoch, now) => Restart(s, epoch, now)
    case Stopping => Stop(s)
    case DrainBeginning => BeginDrain(s)
    case CancellingPending => CancelPending(s)
    case SettingLastTtl(last, now) => SetLastTtl(s, last, now)
    case ReservingDue(now) => ReserveDue(s, now).0
    case MarkingIssued(token, at) => MarkIssued(s, token, at)
    case MarkingIssueFailed(token) => MarkIssueFailed(s, token)
    case MarkingCached(token) => MarkCached(s, token)
    case Expiry(now) => Expire(s, now)
    case Completion(token, kind, at) => Complete(s, token, kind, at)
  }

  function Exec(s: Sched, es: seq<Event>): (s': Sched)
    requires Shape(s)
    ensures Shape(s')
    decreases |es|
  {
    if es == [] then s else Exec(Step(s, es[0]), es[1..])
  }

  lemma {:induction false} ExecJoin(s: Sched, es: seq<Event>, fs: seq<Event>)
    requires Shape(s)
    ensures Exec(s, es + fs) == Exec(Exec(s, es), fs)
    decreases |es|
  {
    if es == [] {
      assert es + fs == fs;
    } else {
      assert (es + fs)[1..] == es[1..] + fs;
      ExecJoin(Step(s, es[0]), es[1..], fs);
    }
  }

  lemma ExecOne(s: Sched, e: Event)
    requires Shape(s)
    ensures Exec(s, [e]) == Step(s, e)
  {
  }

  lemma ExecTwo(s: Sched, e: Event, e': Event)
    requires Shape(s)
    ensures Exec(s, [e, e']) == Step(Step(s, e), e')
  {
    assert [e, e'] == [e] + [e'];
    ExecJoin(s, [e], [e']);
    ExecOne(s, e);
    ExecOne(Step(s, e), e');
  }

  /** The state in which a trace begins issuing probes. */
  function Started(c: Config, session: nat, epoch: nat, now: int): (s: Sched)
    ensures Shape(s)
  {
    Start(Fresh(c), session, epoch, now)
  }

  // ----- the census holds in every reachable state

  lemma CancelKeepsValid(s: Sched)
    requires Valid(s)
    ensures Valid(CancelPending(s)) && CancelPending(s).config == s.config
  {
    SweepKeepsValid(s.(active := false), s.records.Keys, Draining);
    SweepKeepsValid(BeginDrain(s), BeginDrain(s).records.Keys, Cancelling);
  }

  lemma StepKeepsValid(s: Sched, e: Event)
    requires Valid(s)
    ensures Valid(Step(s, e)) && Step(s, e).config == s.config
  {
    match e
    case Restarting(epoch, now) => RestartKeepsValid(s, epoch, now);
    case Stopping => SweepKeepsValid(s.(active := false), s.records.Keys, Retiring);
    case DrainBeginning => SweepKeepsValid(s.(active := false), s.records.Keys, Draining);
    case CancellingPending => CancelKeepsValid(s);
    case SettingLastTtl(last, now) => SetLastTtlKeepsValid(s, last, now);
    case ReservingDue(now) => ReserveLoopKeepsValid(s, now); ReserveKeepsConfig(s, now);
    case MarkingIssued(token, at) => MarkIssuedKeepsValid(s, token, at);
    case MarkingIssueFailed(token) => if HoldsSlot(s, token) { ReleaseKeepsValid(s, token, true); }
    case MarkingCached(token) => if HoldsSlot(s, token) { ReleaseKeepsValid(s, token, false); }
    case Expiry(now) => SweepKeepsValid(s, s.records.Keys, Expiring(now));
    case Completion(token, kind, at) => CompleteKeepsValid(s, token, kind, at);
  }

  lemma {:induction false} ReserveKeepsConfig(s: Sched, now: int)
    requires Shape(s)
    ensures var o := ReserveLoop(s, now).0;
      o.config == s.config && o.activeLastTtl == s.activeLastTtl && o.active == s.active
    decreases |DueSet(s, now)|
  {
    var t := LeastDue(s, now, s.activeLastTtl);
    if t != 0 {
      AttemptSettles(s, now, t);
      if Attempt(s, now, t).1.None? {
        AttemptLeavesDueSet(s, now, t);
        ReserveKeepsConfig(Attempt(s, now, t).0, now);
      }
    }
  }

  lemma StartedIsValid(c: Config, session: nat, epoch: nat, now: int)
    ensures Valid(Started(c, session, epoch, now))
  {
    FreshIsValid(c);
    StartValidIff(Fresh(c), session, epoch, now);
  }

  lemma {:induction false} RunKeepsValid(s: Sched, es: seq<Event>)
    requires Valid(s)
    ensures Valid(Exec(s, es)) && Exec(s, es).config == s.config
    decreases |es|
  {
    if es == [] {
    } else {
      StepKeepsValid(s, es[0]);
      RunKeepsValid(Step(s, es[0]), es[1..]);
    }
  }

  /** In every state of every run, each incrementally kept number equals a census of the table. */
  lemma CensusAlwaysHolds(c: Config, session: nat, epoch: nat, now: int, es: seq<Event>)
    ensures Valid(Exec(Started(c, session, epoch, now), es))
  {
    StartedIsValid(c, session, epoch, now);
    RunKeepsValid(Started(c, session, epoch, now), es);
  }

  // ----- what reserving can change

  /** One attempt turns the TTL away and holds nothing, or holds one slot on the next key. */
  lemma AttemptHolds(s: Sched, now: int, t: nat)
    requires Valid(s) && Due(s, now, t)
    ensures
      var (o, slot) := Attempt(s, now, t);
      && o.session == s.session && o.epoch == s.epoch && o.config == s.config && o.activeLastTtl == s.activeLastTtl
      && o.logicalInflight == s.logicalInflight && o.transportOutstanding == s.transportOutstanding
      && (slot.None? ==>
            && o.records == s.records && o.sequence == s.sequence
            && o.nextGlobalSendAt == s.nextGlobalSendAt && o.reserved == s.reserved)
      && (slot.Some? ==>
            && slot.value.token == NextToken(s, t)
            && o.sequence == s.sequence + 1 && o.sequence !in s.records
            && o.records == s.records[o.sequence := Record(slot.value.token, Reserved, 0)]
            && o.reserved == s.reserved + 1
            && o.nextGlobalSendAt == now + Spacing(s.config))
  {
    NextKeyIsFree(s);
  }

  /** Reserving either holds nothing, or holds one fresh slot on the next key. */
  lemma {:induction false} ReserveLoopHolds(s: Sched, now: int)
    requires Valid(s)
    ensures
      var (o, b) := ReserveLoop(s, now);
      && o.session == s.session && o.epoch == s.epoch
      && o.logicalInflight == s.logicalInflight && o.transportOutstanding == s.transportOutstanding
      && (b.slots == [] ==>
            && o.records == s.records && o.sequence == s.sequence
            && o.nextGlobalSendAt == s.nextGlobalSendAt && o.reserved == s.reserved)
      && (b.slots != [] ==>
            && |b.slots| == 1 && ActiveTtl(s, b.slots[0].token.ttl)
            && b.slots[0].token == NextToken(s, b.slots[0].token.ttl)
            && o.sequence == s.sequence + 1 && o.sequence !in s.records
            && o.records == s.records[o.sequence := Record(b.slots[0].token, Reserved, 0)]
            && o.reserved == s.reserved + 1
            && o.nextGlobalSendAt == now + Spacing(s.config))
    decreases |DueSet(s, now)|
  {
    var t := LeastDue(s, now, s.activeLastTtl);
    if t != 0 {
      AttemptHolds(s, now, t);
      if Attempt(s, now, t).1.None? {
        AttemptKeepsValid(s, now, t);
        AttemptLeavesDueSet(s, now, t);
        ReserveLoopHolds(Attempt(s, now, t).0, now);
      }
    }
  }

  /** What a reservation leaves in the table: a slot held on a fresh key, if any. */
  lemma ServedRecords(e: Sched, now: int)
    requires Valid(e)
    ensures
      var (r, b) := ReserveDue(e, now);
      && (b.slots == [] ==> r.records == e.records)
      && (b.slots != [] ==>
            var token := b.slots[0].token;
            && HoldsSlot(r, token) && token.sequence !in e.records
            && r.records == e.records[token.sequence := Record(token, Reserved, 0)])
  {
    if e.active && e.nextGlobalSendAt <= now { ReserveLoopHolds(e, now); }
  }

  /** A TTL on its own that is due and has room is granted a slot. */
  lemma SoleTtlGranted(s: Sched, now: int)
    requires Shape(s) && s.config.firstTtl == 1 == s.activeLastTtl
    requires s.active && s.nextGlobalSendAt <= now && Due(s, now, 1) && !Blocked(s, 1)
    ensures ReserveDue(s, now)
         == (Grant(Arm(s, now, 1), now, 1), Batch([Slot(NextToken(s, 1), s.ttl[1].nextSendAt)], []))
  {
    assert LeastDue(s, now, 0) == 0;
    assert LeastDue(s, now, 1) == 1;
    assert !Blocked(Arm(s, now, 1), 1);
  }

  /** And one that is due and has no room is passed over. */
  lemma SoleTtlPassedOver(s: Sched, now: int)
    requires Shape(s) && s.config.firstTtl == 1 == s.activeLastTtl
    requires s.active && s.nextGlobalSendAt <= now && Due(s, now, 1) && Blocked(s, 1)
    ensures ReserveDue(s, now).1 == Batch([], [1])
  {
    var s' := Attempt(s, now, 1).0;
    AttemptSettles(s, now, 1);
    assert LeastDue(s, now, 0) == 0 == LeastDue(s', now, 0);
    assert LeastDue(s, now, 1) == 1;
    assert Blocked(Arm(s, now, 1), 1);
    assert ReserveLoop(s', now) == (s', Batch([], []));
    assert [1] + [] == [1];
  }

  // ----- one life, and one verdict, per probe

  /** How far the probe with key `k` has come: not yet granted, held, in flight, judged, disowned by an
      epoch change, gone. */
  function Stage(s: Sched, k: nat): nat {
    if k > s.sequence then 0
    else if k !in s.records then 5
    else match s.records[k].state
      case Reserved => 1
      case Issued => 2
      case TimedOut => 3
      case Cancelled => 3
      case IgnoredEpoch => 4
  }

  const FLYING: nat := 2
  const GONE: nat := 5

  /** The step judges probe `k`: accepted, timed out, cancelled, or cut off by an epoch change or stop. */
  predicate Judges(s: Sched, e: Event, k: nat) {
    match e
    case Completion(token, kind, at) => token.sequence == k && EndsFlight(Verdict(s, token, kind, at))
    case Expiry(now) => k in Overdue(s, now)
    case CancellingPending => k in Flying(s)
    case Restarting(_, _) => k in Flying(s)
    case Stopping => k in Flying(s)
    case _ => false
  }

  /** Nothing goes back to an earlier stage, and leaving flight is being judged. */
  predicate MovesForward(before: Sched, after: Sched, judged: bool, k: nat) {
    && Stage(before, k) <= Stage(after, k)
    && (judged <==> Stage(before, k) == FLYING < Stage(after, k))
  }

  lemma SweepMovesForward(s: Sched, w: Sweep, k: nat)
    requires Valid(s)
    ensures MovesForward(s, SweepAll(s, w), k in s.records && Leaves(w, s.records[k], InFlight), k)
  {
    assert k in s.records ==> RecordOk(s, k);
  }

  lemma RestartMovesForward(s: Sched, epoch: nat, now: int, k: nat)
    requires Valid(s)
    ensures MovesForward(s, Restart(s, epoch, now), k in Flying(s), k)
  {
    SweepMovesForward(s, Retiring, k);
    assert Restart(s, epoch, now).records == SweepAll(s, Retiring).records;
  }

  lemma StopMovesForward(s: Sched, k: nat)
    requires Valid(s)
    ensures MovesForward(s, Stop(s), k in Flying(s), k)
  {
    SweepMovesForward(s.(active := false), Retiring, k);
  }

  lemma DrainMovesForward(s: Sched, k: nat)
    requires Valid(s)
    ensures MovesForward(s, BeginDrain(s), false, k)
  {
    SweepMovesForward(s.(active := false), Draining, k);
  }

  lemma ExpiryMovesForward(s: Sched, now: int, k: nat)
    requires Valid(s)
    ensures MovesForward(s, Expire(s, now), k in Overdue(s, now), k)
  {
    SweepMovesForward(s, Expiring(now), k);
  }

  lemma CancellingMovesForward(s: Sched, k: nat)
    requires Valid(s)
    ensures MovesForward(s, SweepAll(s, Cancelling), k in Flying(s), k)
  {
    SweepMovesForward(s, Cancelling, k);
  }

  /** Draining takes away the held slots, and leaves every other probe at its stage. */
  lemma DrainedStage(s: Sched, k: nat)
    requires Valid(s)
    ensures Stage(BeginDrain(s), k) == if Stage(s, k) == 1 then GONE else Stage(s, k)
    ensures k in Flying(BeginDrain(s)) <==> k in Flying(s)
  {
    assert k in s.records ==> RecordOk(s, k);
  }

  lemma CancelMovesForward(s: Sched, k: nat)
    requires Valid(s)
    ensures MovesForward(s, CancelPending(s), k in Flying(s), k)
  {
    var d := BeginDrain(s);
    SweepKeepsValid(s.(active := false), s.records.Keys, Draining);
    DrainedStage(s, k);
    CancellingMovesForward(d, k);
    FurtherForward(Stage(s, k), Stage(d, k), Stage(SweepAll(d, Cancelling), k), k in Flying(s));
  }

  lemma FurtherForward(before: nat, between: nat, after: nat, judged: bool)
    requires between == if before == 1 then GONE else before
    requires between <= after && (judged <==> between == FLYING < after)
    ensures before <= after && (judged <==> before == FLYING < after)
  {
  }

  lemma PassMovesForward(s: Sched, e: Event, k: nat)
    requires Valid(s) && (e.Restarting? || e.Stopping? || e.DrainBeginning? || e.Expiry?)
    ensures MovesForward(s, Step(s, e), Judges(s, e, k), k)
  {
    match e
    case Restarting(epoch, now) => RestartMovesForward(s, epoch, now, k);
    case Stopping => StopMovesForward(s, k);
    case DrainBeginning => DrainMovesForward(s, k);
    case Expiry(now) => ExpiryMovesForward(s, now, k);
  }

  lemma TokenMovesForward(s: Sched, e: Event, k: nat)
    requires Valid(s) && (e.MarkingIssued? || e.MarkingIssueFailed? || e.MarkingCached?)
    ensures MovesForward(s, Step(s, e), Judges(s, e, k), k)
  {
    assert k in s.records ==> RecordOk(s, k);
  }

  lemma CompletionMovesForward(s: Sched, e: Event, k: nat)
    requires Valid(s) && e.Completion?
    ensures MovesForward(s, Step(s, e), Judges(s, e, k), k)
  {
    assert k in s.records ==> RecordOk(s, k);
  }

  /** A key's stage never goes back, whatever is called; it leaves flight exactly when it is judged. */
  lemma StepMovesForward(s: Sched, e: Event, k: nat)
    requires Valid(s)
    ensures MovesForward(s, Step(s, e), Judges(s, e, k), k)
  {
    match e {
      case ReservingDue(now) =>
        assert k in s.records ==> RecordOk(s, k);
        ReserveLoopHolds(s, now);
      case SettingLastTtl(last, now) => assert k in s.records ==> RecordOk(s, k);
      case MarkingIssued(_, _) => TokenMovesForward(s, e, k);
      case MarkingIssueFailed(_) => TokenMovesForward(s, e, k);
      case MarkingCached(_) => TokenMovesForward(s, e, k);
      case Completion(_, _, _) => CompletionMovesForward(s, e, k);
      case CancellingPending => CancelMovesForward(s, k);
      case _ => PassMovesForward(s, e, k);
    }
  }

  lemma {:induction false} RunMovesForward(s: Sched, es: seq<Event>, k: nat)
    requires Valid(s)
    ensures Stage(s, k) <= Stage(Exec(s, es), k)
    decreases |es|
  {
    if es == [] {
    } else {
      StepKeepsValid(s, es[0]);
      StepMovesForward(s, es[0], k);
      RunMovesForward(Step(s, es[0]), es[1..], k);
    }
  }

  /** How often a run judges probe `k`. */
  function Verdicts(s: Sched, es: seq<Event>, k: nat): nat
    requires Shape(s)
    decreases |es|
  {
    if es == [] then 0 else One(Judges(s, es[0], k)) + Verdicts(Step(s, es[0]), es[1..], k)
  }

  /** Every probe gets at most one verdict in a run, and exactly one if it was in flight and is not. */
  lemma {:induction false} OneVerdict(s: Sched, es: seq<Event>, k: nat)
    requires Valid(s)
    ensures Verdicts(s, es, k) <= One(Stage(s, k) <= FLYING)
    ensures Stage(s, k) == FLYING ==> Verdicts(s, es, k) == One(Stage(Exec(s, es), k) > FLYING)
    decreases |es|
  {
    if es == [] {
    } else {
      var s' := Step(s, es[0]);
      StepKeepsValid(s, es[0]);
      StepMovesForward(s, es[0], k);
      OneVerdict(s', es[1..], k);
      RunMovesForward(s', es[1..], k);
    }
  }

  /** Once a completion has been recognised, every later one for the same token, whatever else happened
      in between, is unknown and changes nothing. */
  lemma SecondCompletionIsUnknown(s: Sched, token: Token, kind: CompletionKind, at: int,
                                  es: seq<Event>, kind': CompletionKind, at': int)
    requires Valid(s) && Verdict(s, token, kind, at) != UnknownToken
    ensures
      var later := Exec(Complete(s, token, kind, at), es);
      Verdict(later, token, kind', at') == UnknownToken && Complete(later, token, kind', at') == later
  {
    var s' := Complete(s, token, kind, at);
    assert RecordOk(s, token.sequence);
    CompleteKeepsValid(s, token, kind, at);
    assert Stage(s', token.sequence) == GONE;
    RunMovesForward(s', es, token.sequence);
  }
}
