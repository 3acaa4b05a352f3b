/** When a probe that has been sent times out, and what becomes of its completion. */
module SchedulerTimeouts {
  import opened Basics
  import opened SchedulerModel
  import opened SchedulerRuns

  /** The pass the step makes over the record table, if it makes one. */
  function PassOf(e: Event): Option<Sweep> {
    match e
    case Restarting(_, _) => Some(Retiring)
    case Stopping => Some(Retiring)
    case Expiry(now) => Some(Expiring(now))
    case _ => None
  }

  /** Some other call leaves a sent probe's record alone. */
  lemma CallLeavesRecord(s: Sched, e: Event, k: nat)
    requires Valid(s) && k in s.records && s.records[k].state != Reserved
    requires PassOf(e).None? && !e.CancellingPending? && !e.DrainBeginning?
    requires !(e.Completion? && e.token == s.records[k].token)
    ensures k in Step(s, e).records && Step(s, e).records[k] == s.records[k]
  {
    assert RecordOk(s, k);
    if e.ReservingDue? { ServedRecords(s, e.now); }
  }

  lemma SweepsRecord(s: Sched, w: Sweep, k: nat)
    requires Shape(s) && k in s.records && Fate(w, s.records[k]).Some?
    ensures k in SweepAll(s, w).records && SweepAll(s, w).records[k] == Fate(w, s.records[k]).value
  {
  }

  lemma DrainLeavesRecord(s: Sched, k: nat)
    requires Shape(s) && k in s.records && s.records[k].state != Reserved
    ensures k in BeginDrain(s).records && BeginDrain(s).records[k] == s.records[k]
  {
    SweepsRecord(s.(active := false), Draining, k);
  }

  /** What a step makes of a probe that has been sent: each pass by its own rule, and any other call nothing. */
  lemma StepOnRecord(s: Sched, e: Event, k: nat)
    requires Valid(s) && k in s.records && s.records[k].state != Reserved
    requires !(e.Completion? && e.token == s.records[k].token)
    ensures
      var r := s.records[k];
      && k in Step(s, e).records
      && Step(s, e).records[k]
         == (if e.CancellingPending? then Fate(Cancelling, r).value
             else if PassOf(e).Some? then Fate(PassOf(e).value, r).value else r)
  {
    match e {
      case Restarting(epoch, now) =>
        SweepsRecord(s, Retiring, k);
        assert Restart(s, epoch, now).records == SweepAll(s, Retiring).records;
      case Stopping => SweepsRecord(s.(active := false), Retiring, k);
      case DrainBeginning => DrainLeavesRecord(s, k);
      case CancellingPending =>
        DrainLeavesRecord(s, k);
        SweepsRecord(BeginDrain(s), Cancelling, k);
      case Expiry(now) => SweepsRecord(s, Expiring(now), k);
      case _ => CallLeavesRecord(s, e, k);
    }
  }

  // ----- the story of one probe, told from the calls alone

  /** What has become of a probe that is due back by `deadline`: nothing yet, or the answer that its completion will
      get whenever it comes. A pass that expires it too late counts as well as one in time; a cancellation comes too
      late for a probe that has expired; a restart or a stop disowns any. */
  function Judged(f: Option<Disposition>, deadline: int, e: Event): Option<Disposition> {
    match e
    case Restarting(_, _) => Some(WasIgnoredEpoch)
    case Stopping => Some(WasIgnoredEpoch)
    case CancellingPending => if f.None? then Some(WasCancelled) else f
    case Expiry(now) => if f.None? && deadline <= now then Some(LateDiscarded) else f
    case _ => f
  }

  function Story(f: Option<Disposition>, deadline: int, es: seq<Event>): Option<Disposition>
    decreases |es|
  {
    if es == [] then f else Story(Judged(f, deadline, es[0]), deadline, es[1..])
  }

  /** The record of a probe of which that is the story. */
  predicate IsIn(s: Sched, token: Token, deadline: int, f: Option<Disposition>) {
    var k := token.sequence;
    && k in s.records && s.records[k].token == token
    && match f
       case None => s.records[k].state == Issued && s.records[k].deadline == deadline
       case Some(d) =>
         || (d == LateDiscarded && s.records[k].state == TimedOut)
         || (d == WasCancelled && s.records[k].state == Cancelled)
         || (d == WasIgnoredEpoch && s.records[k].state == IgnoredEpoch)
  }

  lemma StepTells(s: Sched, e: Event, token: Token, deadline: int, f: Option<Disposition>)
    requires Valid(s) && IsIn(s, token, deadline, f) && !(e.Completion? && e.token == token)
    ensures IsIn(Step(s, e), token, deadline, Judged(f, deadline, e))
  {
    StepOnRecord(s, e, token.sequence);
  }

  predicate Uncompleted(es: seq<Event>, token: Token) {
    forall i | 0 <= i < |es| :: !(es[i].Completion? && es[i].token == token)
  }

  lemma {:induction false} RunTells(s: Sched, es: seq<Event>, token: Token, deadline: int, f: Option<Disposition>)
    requires Valid(s) && IsIn(s, token, deadline, f) && Uncompleted(es, token)
    ensures IsIn(Exec(s, es), token, deadline, Story(f, deadline, es))
    decreases |es|
  {
    if es == [] {
    } else {
      StepKeepsValid(s, es[0]);
      StepTells(s, es[0], token, deadline, f);
      RunTells(Step(s, es[0]), es[1..], token, deadline, Judged(f, deadline, es[0]));
    }
  }

  lemma IssuedIsIn(s: Sched, token: Token, at: int)
    requires Valid(s) && HoldsSlot(s, token)
    ensures Valid(MarkIssued(s, token, at)) && IsIn(MarkIssued(s, token, at), token, at + s.config.timeoutMs, None)
  {
    assert RecordOk(s, token.sequence);
    StepKeepsValid(s, MarkingIssued(token, at));
  }

  /** A probe sent at `at` is due back by `at + timeoutMs`, to the millisecond and over any run: unless it has been
      expired at that instant or later, cancelled, or disowned, what comes back by then is accepted as what it is, and
      what comes back later is late. */
  lemma TimeoutIsExact(s: Sched, token: Token, at: int, es: seq<Event>, kind: CompletionKind, arrival: int)
    requires Valid(s) && HoldsSlot(s, token) && Uncompleted(es, token)
    ensures
      var due := at + s.config.timeoutMs;
      var f := Story(None, due, es);
      Verdict(Exec(MarkIssued(s, token, at), es), token, kind, arrival)
      == if f.Some? then f.value
         else if due < arrival then LateDiscardedAfterTimeout
         else if kind == Reply then AcceptedReply
         else if kind == Timeout then AcceptedTimeout else AcceptedLocalError
  {
    IssuedIsIn(s, token, at);
    RunTells(MarkIssued(s, token, at), es, token, at + s.config.timeoutMs, None);
  }

  // ----- what is left after the loop has let go

  /** A drained scheduler holds no slot; a cancelled one has nothing in flight either; a stopped one has disowned what
      it had, and so has one that begins a new epoch. The first three grant nothing more. */
  lemma NothingIsLeft(s: Sched, epoch: nat, now: int)
    requires Valid(s)
    ensures
      && !BeginDrain(s).active && !CancelPending(s).active && !Stop(s).active
      && (forall k | k in BeginDrain(s).records :: BeginDrain(s).records[k].state != Reserved)
      && (forall k | k in CancelPending(s).records :: CancelPending(s).records[k].state !in {Reserved, Issued})
      && (forall k | k in Stop(s).records :: Stop(s).records[k].state == IgnoredEpoch)
      && (forall k | k in Restart(s, epoch, now).records :: Restart(s, epoch, now).records[k].state == IgnoredEpoch)
  {
    var d := BeginDrain(s);
    assert forall k | k in d.records :: d.records[k].state != Reserved;
    assert Restart(s, epoch, now).records == SweepAll(s, Retiring).records;
  }
}
