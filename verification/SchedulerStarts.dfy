/** Starting a scheduler that has been used before: exactly when the census survives what follows. */
module SchedulerStarts {
  import opened SchedulerModel
  import opened SchedulerCensus
  import opened SchedulerRuns

  /** With nothing outstanding, every state of every run after a start is valid. */
  lemma CleanStartIsSafe(s: Sched, session: nat, epoch: nat, now: int, es: seq<Event>)
    requires Valid(s) && s.transportOutstanding == 0
    ensures Valid(Exec(Start(s, session, epoch, now), es))
  {
    StartValidIff(s, session, epoch, now);
    RunKeepsValid(Start(s, session, epoch, now), es);
  }

  // ----- otherwise

  /** The call grants a slot on a key that is still in the table. */
  predicate Collides(s: Sched, e: Event)
    requires Shape(s)
  {
    e.ReservingDue? && ReserveDue(s, e.now).1.slots != [] && s.sequence + 1 in s.records
  }

  lemma AttemptKeepsCensusIff(s: Sched, now: int, t: nat)
    requires Shape(s) && Census(s) && Due(s, now, t)
    ensures
      var (a, slot) := Attempt(s, now, t);
      && (Census(a) <==> !(slot.Some? && s.sequence + 1 in s.records))
      && (slot.None? ==> a.sequence == s.sequence && a.records == s.records)
  {
    var a := Arm(s, now, t);
    ArmKeepsCensus(s, now, t);
    if Blocked(a, t) { SkipKeepsCensus(a, t); } else { GrantKeepsCensusIff(a, now, t); }
  }

  lemma {:induction false} ReserveKeepsCensusIff(s: Sched, now: int)
    requires Shape(s) && Census(s)
    ensures
      var (o, b) := ReserveLoop(s, now);
      Census(o) <==> !(b.slots != [] && s.sequence + 1 in s.records)
    decreases |DueSet(s, now)|
  {
    var t := LeastDue(s, now, s.activeLastTtl);
    if t != 0 {
      AttemptKeepsCensusIff(s, now, t);
      if Attempt(s, now, t).1.None? {
        AttemptLeavesDueSet(s, now, t);
        ReserveKeepsCensusIff(Attempt(s, now, t).0, now);
      }
    }
  }

  lemma ReserveDueKeepsCensusIff(s: Sched, now: int)
    requires Shape(s) && Census(s)
    ensures
      var (o, b) := ReserveDue(s, now);
      Census(o) <==> !(b.slots != [] && s.sequence + 1 in s.records)
  {
    if s.active && s.nextGlobalSendAt <= now { ReserveKeepsCensusIff(s, now); }
  }

  lemma CancelKeepsCensus(s: Sched)
    requires Shape(s) && Census(s)
    ensures Census(CancelPending(s))
  {
    SweepKeepsCensus(s.(active := false), s.records.Keys, Draining);
    SweepKeepsCensus(BeginDrain(s), BeginDrain(s).records.Keys, Cancelling);
  }

  lemma TokenKeepsCensus(s: Sched, e: Event)
    requires Shape(s) && Census(s)
    requires e.MarkingIssued? || e.MarkingIssueFailed? || e.MarkingCached? || e.Completion?
    ensures Census(Step(s, e))
  {
    match e
    case MarkingIssued(token, at) => MarkIssuedKeepsCensus(s, token, at);
    case MarkingIssueFailed(token) => if HoldsSlot(s, token) { ReleaseKeepsCensus(s, token, true); }
    case MarkingCached(token) => if HoldsSlot(s, token) { ReleaseKeepsCensus(s, token, false); }
    case Completion(token, kind, at) => CompleteKeepsCensus(s, token, kind, at);
  }

  lemma PassKeepsCensus(s: Sched, e: Event)
    requires Shape(s) && Census(s)
    requires e.Stopping? || e.DrainBeginning? || e.CancellingPending? || e.Expiry?
    ensures Census(Step(s, e))
  {
    match e
    case Stopping => SweepKeepsCensus(s.(active := false), s.records.Keys, Retiring);
    case DrainBeginning => SweepKeepsCensus(s.(active := false), s.records.Keys, Draining);
    case CancellingPending => CancelKeepsCensus(s);
    case Expiry(now) => SweepKeepsCensus(s, s.records.Keys, Expiring(now));
  }

  /** Only a collision breaks the census. */
  lemma StepKeepsCensusIff(s: Sched, e: Event)
    requires Shape(s) && Census(s)
    ensures Census(Step(s, e)) <==> !Collides(s, e)
  {
    match e {
      case Restarting(epoch, now) => RestartKeepsCensus(s, epoch, now);
      case SettingLastTtl(last, now) => SetLastTtlKeepsCensus(s, last, now);
      case ReservingDue(now) => ReserveDueKeepsCensusIff(s, now);
      case MarkingIssued(_, _) => TokenKeepsCensus(s, e);
      case MarkingIssueFailed(_) => TokenKeepsCensus(s, e);
      case MarkingCached(_) => TokenKeepsCensus(s, e);
      case Completion(_, _, _) => TokenKeepsCensus(s, e);
      case _ => PassKeepsCensus(s, e);
    }
  }

  predicate CensusThroughout(s: Sched, es: seq<Event>)
    requires Shape(s)
    decreases |es|
  {
    Census(s) && (es != [] ==> CensusThroughout(Step(s, es[0]), es[1..]))
  }

  predicate NeverCollides(s: Sched, es: seq<Event>)
    requires Shape(s)
    decreases |es|
  {
    es != [] ==> !Collides(s, es[0]) && NeverCollides(Step(s, es[0]), es[1..])
  }

  lemma {:induction false} CensusThroughoutIff(s: Sched, es: seq<Event>)
    requires Shape(s) && Census(s)
    ensures CensusThroughout(s, es) <==> NeverCollides(s, es)
    decreases |es|
  {
    if es == [] {
    } else {
      StepKeepsCensusIff(s, es[0]);
      if !Collides(s, es[0]) { CensusThroughoutIff(Step(s, es[0]), es[1..]); }
    }
  }

  /** After any start the census holds throughout a run exactly if none of its grants meets a key that the
      transport still owes. */
  lemma RestartedCensusIff(s: Sched, session: nat, epoch: nat, now: int, es: seq<Event>)
    requires Shape(s) && Census(s)
    ensures CensusThroughout(Start(s, session, epoch, now), es) <==> NeverCollides(Start(s, session, epoch, now), es)
  {
    StartKeepsCensus(s, session, epoch, now);
    CensusThroughoutIff(Start(s, session, epoch, now), es);
  }

  predicate Owes(s: Sched, k: nat) { k in s.records && s.records[k].state != Reserved }

  lemma StartKeepsOwed(s: Sched, session: nat, epoch: nat, now: int, k: nat)
    requires Shape(s)
    ensures
      var s' := Start(s, session, epoch, now);
      s'.sequence == 0 && (k in s'.records <==> Owes(s, k))
  {
    RetiredAreIgnored(s.(session := session, sequence := 0, active := true), k);
  }

  /** The first grant after a start breaks the census exactly if key 1 is still owed. */
  lemma FirstGrantAfterStartIff(s: Sched, session: nat, epoch: nat, now: int, at: int)
    requires Shape(s) && Census(s)
    ensures
      var (r, b) := ReserveDue(Start(s, session, epoch, now), at);
      Census(r) <==> !(b.slots != [] && Owes(s, 1))
  {
    StartKeepsCensus(s, session, epoch, now);
    StartKeepsOwed(s, session, epoch, now, 1);
    NextGrantIff(Start(s, session, epoch, now), at, Owes(s, 1));
  }

  lemma NextGrantIff(s: Sched, at: int, taken: bool)
    requires Shape(s) && Census(s) && s.sequence == 0 && (1 in s.records <==> taken)
    ensures
      var (r, b) := ReserveDue(s, at);
      Census(r) <==> !(b.slots != [] && taken)
  {
    ReserveDueKeepsCensusIff(s, at);
  }
}
