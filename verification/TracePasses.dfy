/** How the loop goes round: the order of a pass, when the loop stops, how long it then waits, and what each pass
    files. */
module TracePasses {
  import opened Basics
  import S = SchedulerModel
  import T = TableModel
  import R = RouteModel
  import opened TraceLoop
  import opened TraceTallies
  import opened TraceMirror
  import opened TraceRuns

  // ----- the order of a pass

  datatype Stage =
    | Beginning | EndingCompletions | ExpiringDue | CancellingDue | ReservingDue | SettlingSlot | RefreshingCycles
    | LeavingPass | NoStage

  /** The stage of a pass that an action is; completions, commits and what other threads do are none. */
  function StageOf(a: Action): Stage {
    match a
    case BeginPass(_) => Beginning
    case EndCompletions(_) => EndingCompletions
    case ExpireDue(_) => ExpiringDue
    case CancelDue(_) => CancellingDue
    case Reserve => ReservingDue
    case Settle(_) => SettlingSlot
    case Refresh(_) => RefreshingCycles
    case Leave => LeavingPass
    case _ => NoStage
  }

  /** The stage that comes after: a loop that is stopping reserves nothing. */
  function NextStage(g: Stage, stopping: bool): Stage {
    match g
    case Beginning => EndingCompletions
    case EndingCompletions => ExpiringDue
    case ExpiringDue => CancellingDue
    case CancellingDue => if stopping then LeavingPass else ReservingDue
    case ReservingDue => SettlingSlot
    case SettlingSlot => RefreshingCycles
    case RefreshingCycles => LeavingPass
    case LeavingPass => Beginning
    case NoStage => NoStage
  }

  /** The phase that a stage is waiting in. */
  function PhaseOf(g: Stage): Phase {
    match g
    case Beginning => Top
    case EndingCompletions => Completing
    case ExpiringDue => Expiring
    case CancellingDue => Cancelling
    case ReservingDue => Reserving
    case SettlingSlot => Settling
    case RefreshingCycles => Refreshing
    case LeavingPass => Leaving
    case NoStage => Exited
  }

  lemma StagePhases(st: State, a: Action)
    requires S.Shape(st.sched) && R.Normal(st.policy.config) && StageOf(a) != NoStage
    ensures Do(st, a).phase == PhaseOf(NextStage(StageOf(a), st.stopping)) || Do(st, a).phase == Exited
  {
    if a.Settle? {
      SettlePhases(st, a.choice);
    } else if a.Refresh? {
      RefreshPhases(st, a.later);
    } else if a.CancelDue? {
      CancelPhases(st, a.cancelled);
    } else {
      PlainPhases(st, a);
    }
  }

  lemma CancelPhases(st: State, tokens: seq<S.Token>)
    requires S.Shape(st.sched)
    ensures DoCancelDue(st, tokens).phase == if st.stopping then Leaving else Reserving
  {
  }

  lemma PlainPhases(st: State, a: Action)
    requires S.Shape(st.sched) && R.Normal(st.policy.config) && StageOf(a) != NoStage
    requires !a.Settle? && !a.Refresh? && !a.CancelDue?
    ensures Do(st, a).phase == PhaseOf(NextStage(StageOf(a), st.stopping)) || Do(st, a).phase == Exited
  {
  }

  lemma SettlePhases(st: State, choice: Choice)
    requires S.Shape(st.sched)
    ensures DoSettle(st, choice).phase == Refreshing
  {
  }

  lemma RefreshPhases(st: State, later: int)
    requires S.Shape(st.sched) && R.Normal(st.policy.config)
    ensures DoRefresh(st, later).phase == Leaving
  {
  }

  lemma FinishPhases(st: State, a: Action)
    requires S.Shape(st.sched) && a.Finish?
    ensures DoFinish(st, a).phase == st.phase
  {
  }

  lemma OthersKeepPhase(st: State, a: Action)
    requires S.Shape(st.sched) && R.Normal(st.policy.config) && StageOf(a) == NoStage
    ensures Do(st, a).phase == st.phase
  {
    if a.Finish? { FinishPhases(st, a); }
  }

  lemma {:induction false} QuietKeepsPhase(st: State, quiet: seq<Action>)
    requires Good(st) && Runnable(st, quiet) && forall i | 0 <= i < |quiet| :: StageOf(quiet[i]) == NoStage
    ensures Good(Final(st, quiet)) && Final(st, quiet).phase == st.phase
    decreases |quiet|
  {
    if quiet == [] {
    } else {
      StepKeepsGood(st, quiet[0]);
      OthersKeepPhase(st, quiet[0]);
      QuietKeepsPhase(Do(st, quiet[0]), quiet[1..]);
    }
  }

  lemma EnabledPhase(st: State, b: Action)
    requires Enabled(st, b) && StageOf(b) != NoStage
    ensures st.phase == PhaseOf(StageOf(b)) && st.phase != Exited
  {
  }

  lemma PhaseIsStage(g: Stage, g': Stage)
    requires PhaseOf(g) == PhaseOf(g')
    ensures g == g'
  {
  }

  /** In every interleaving, whatever comes between, the stage after `a` is the next one of a pass: none is left out,
      none repeated, and while the loop is not stopping every pass reserves, settles and refreshes. */
  lemma StagesAreInOrder(st: State, a: Action, quiet: seq<Action>, b: Action)
    requires Good(st) && Runnable(st, [a] + (quiet + [b])) && StageOf(a) != NoStage && StageOf(b) != NoStage
    requires forall i | 0 <= i < |quiet| :: StageOf(quiet[i]) == NoStage
    ensures StageOf(b) == NextStage(StageOf(a), st.stopping)
  {
    assert ([a] + (quiet + [b]))[1..] == quiet + [b];
    StepKeepsGood(st, a);
    RunJoin(Do(st, a), quiet, [b]);
    StagePhases(st, a);
    QuietKeepsPhase(Do(st, a), quiet);
    EnabledPhase(Final(Do(st, a), quiet), b);
    PhaseIsStage(StageOf(b), NextStage(StageOf(a), st.stopping));
  }

  // ----- when the loop stops

  /** Every TTL still probed has been sent, has failed or was answered from the cache as often as was asked for. */
  predicate AllSpent(s: S.Sched) {
    && s.config.probesPerTtl != 0
    && forall t: nat | s.config.firstTtl <= t <= s.activeLastTtl && t < |s.ttl| ::
         var k := s.ttl[t].counters;
         k.sent + k.localErrors + k.cacheSkipped >= s.config.probesPerTtl
  }

  lemma NothingHeld(s: S.Sched, t: nat)
    requires S.Valid(s) && HeldKeys(s) == {} && Traced(s, t)
    ensures s.ttl[t].reserved == 0
  {
    assert S.Members(s.records, S.Held, S.At(t)) == {};
  }

  lemma QuotasMeanSpent(s: S.Sched)
    requires S.Valid(s) && HeldKeys(s) == {}
    ensures S.QuotasReached(s) <==> AllSpent(s)
  {
    forall t: nat | s.config.firstTtl <= t <= s.activeLastTtl ensures s.ttl[t].reserved == 0 {
      NothingHeld(s, t);
    }
  }

  lemma DrainKeepsSpent(s: S.Sched)
    requires S.Shape(s)
    ensures AllSpent(S.BeginDrain(s)) <==> AllSpent(s)
  {
    forall t | 0 <= t < |s.ttl| ensures S.BeginDrain(s).ttl[t].counters == s.ttl[t].counters {
      DrainKeepsCounters(s, t);
    }
  }

  lemma RefreshStops(st: State, later: int)
    requires Good(st) && Enabled(st, Refresh(later)) && !st.stopping
    ensures DoRefresh(st, later).stopping <==> AllSpent(DoRefresh(st, later).sched)
  {
    var st1 := CountCycles(st, later);
    CountCyclesKeepsGood(st, later);
    QuotasMeanSpent(st1.sched);
    DrainKeepsSpent(st1.sched);
  }

  lemma OthersDoNotStop(st: State, a: Action)
    requires S.Shape(st.sched) && R.Normal(st.policy.config) && !a.Refresh? && !st.stopping
    ensures Do(st, a).stopping <==> a == EndCompletions(true)
  {
    if a.Finish? { FinishKeepsStopping(st, a); }
    if a.Settle? { SettleKeepsStopping(st, a.choice); }
  }

  lemma FinishKeepsStopping(st: State, a: Action)
    requires S.Shape(st.sched) && a.Finish?
    ensures DoFinish(st, a).stopping == st.stopping && DoFinish(st, a).deadline == st.deadline
  {
  }

  lemma SettleKeepsStopping(st: State, choice: Choice)
    requires S.Shape(st.sched)
    ensures DoSettle(st, choice).stopping == st.stopping && DoSettle(st, choice).deadline == st.deadline
  {
  }

  /** The loop starts to stop just when it is asked to, or when every TTL still probed has spent its probes. */
  lemma StopsIff(st: State, a: Action)
    requires Good(st) && Enabled(st, a) && !st.stopping
    ensures
      Do(st, a).stopping <==> a == EndCompletions(true) || (a.Refresh? && AllSpent(DoRefresh(st, a.later).sched))
  {
    if a.Refresh? { RefreshStops(st, a.later); } else { OthersDoNotStop(st, a); }
  }

  // ----- how long it waits for what is in flight

  /** When the loop began to stop, if it has. */
  function StopAfter(st: State, since: Option<int>, a: Action): Option<int>
    requires S.Shape(st.sched) && R.Normal(st.policy.config)
  {
    if !st.stopping && Do(st, a).stopping then Some(st.now) else since
  }

  function StoppedAt(st: State, since: Option<int>, run: seq<Action>): Option<int>
    requires S.Shape(st.sched) && R.Normal(st.policy.config)
    decreases |run|
  {
    if run == [] then since else
    var st' := Do(st, run[0]);
    if S.Shape(st'.sched) && R.Normal(st'.policy.config) then StoppedAt(st', StopAfter(st, since, run[0]), run[1..])
    else since
  }

  /** A loop that is stopping waits for the probes in flight until the grace is over, if there are any. */
  predicate Waits(st: State, since: Option<int>) {
    st.stopping ==>
      && since.Some?
      && (st.sched.logicalInflight != 0 ==> st.deadline == Some(since.value + st.options.graceMs))
  }

  /** An action that leaves the loop stopping, with no more flights than before and its deadline where it was, or gone
      with the last flight. */
  predicate WaitsOn(st: State, st': State) {
    && st'.stopping == st.stopping && st'.options == st.options
    && (st.stopping && st.sched.logicalInflight == 0 ==> st'.sched.logicalInflight == 0)
    && (st'.deadline == st.deadline || (st.stopping ==> st'.sched.logicalInflight == 0))
  }

  lemma WaitingOnKeeps(st: State, st': State, since: Option<int>)
    requires Waits(st, since) && WaitsOn(st, st')
    ensures Waits(st', since)
  {
  }

  lemma NoFlights(s: S.Sched)
    requires S.Valid(s)
    ensures s.logicalInflight == 0 <==> S.Flying(s) == {}
    ensures s.logicalInflight >= 0
  {
  }

  lemma SweepEndsFlights(s: S.Sched, w: S.Sweep)
    requires S.Shape(s)
    ensures S.Flying(S.SweepAll(s, w)) <= S.Flying(s)
  {
  }

  lemma FinishWaits(st: State, a: Action)
    requires Good(st) && Enabled(st, a) && a.Finish?
    ensures WaitsOn(st, DoFinish(st, a))
  {
    var s' := DoFinish(st, a).sched;
    FinishKeepsGood(st, a);
    FinishKeepsStopping(st, a);
    NoFlights(st.sched);
    NoFlights(s');
    FinishEndsFlights(st, a);
  }

  lemma FinishEndsFlights(st: State, a: Action)
    requires S.Shape(st.sched) && a.Finish?
    ensures S.Flying(DoFinish(st, a).sched) <= S.Flying(st.sched) && DoFinish(st, a).options == st.options
  {
  }

  lemma ExpireWaits(st: State, tokens: seq<S.Token>)
    requires Good(st) && Enabled(st, ExpireDue(tokens))
    ensures WaitsOn(st, Do(st, ExpireDue(tokens)))
  {
    ExpireKeepsGood(st, tokens);
    NoFlights(st.sched);
    NoFlights(S.Expire(st.sched, st.now));
    SweepEndsFlights(st.sched, S.Expiring(st.now));
  }

  lemma CancelledAll(s: S.Sched)
    requires S.Valid(s) && S.Valid(S.CancelPending(s))
    ensures S.CancelPending(s).logicalInflight == 0
  {
    NoFlights(S.CancelPending(s));
    assert S.Flying(S.CancelPending(s)) == {};
  }

  lemma CancelWaits(st: State, tokens: seq<S.Token>)
    requires Good(st) && Enabled(st, CancelDue(tokens))
    ensures WaitsOn(st, DoCancelDue(st, tokens))
  {
    if CancelsNow(st) {
      CancelKeepsGood(st, tokens);
      CancelledAll(st.sched);
    }
  }

  lemma StopWaits(st: State, since: Option<int>, a: Action)
    requires Good(st) && Enabled(st, a) && !st.stopping && Waits(st, since)
    ensures Waits(Do(st, a), StopAfter(st, since, a))
  {
    if a.Refresh? { RefreshWaits(st, a.later); } else { OthersDoNotStop(st, a); }
  }

  lemma RefreshWaits(st: State, later: int)
    requires Good(st) && Enabled(st, Refresh(later)) && !st.stopping
    ensures Waits(DoRefresh(st, later), Some(st.now)) && DoRefresh(st, later).options == st.options
  {
    CountingWaits(st, later);
    DrainingWaits(CountCycles(st, later).(phase := Leaving));
  }

  lemma CountingWaits(st: State, later: int)
    requires S.Shape(st.sched) && R.Normal(st.policy.config)
    ensures
      var st' := CountCycles(st, later);
      st'.now == st.now && st'.options == st.options && st'.stopping == st.stopping
  {
  }

  lemma DrainingWaits(st: State)
    requires S.Shape(st.sched)
    ensures Waits(Drain(st), Some(st.now)) && Drain(st).options == st.options
  {
  }

  lemma StepWaits(st: State, since: Option<int>, a: Action)
    requires Good(st) && Enabled(st, a) && Waits(st, since)
    ensures Waits(Do(st, a), StopAfter(st, since, a)) && Do(st, a).options == st.options
  {
    if !st.stopping {
      StopWaits(st, since, a);
      OptionsStay(st, a);
    } else {
      match a {
        case Finish(_, _, _, _, _) => FinishWaits(st, a);
        case ExpireDue(tokens) => ExpireWaits(st, tokens);
        case CancelDue(tokens) => CancelWaits(st, tokens);
        case _ =>
      }
      WaitingOnKeeps(st, Do(st, a), since);
    }
  }

  lemma OptionsStay(st: State, a: Action)
    requires Good(st) && Enabled(st, a)
    ensures Do(st, a).options == st.options
  {
    if a.Finish? { FinishEndsFlights(st, a); }
    if a.Settle? { SettleKeepsOptions(st, a.choice); }
    if a.Refresh? && !st.stopping { RefreshWaits(st, a.later); }
  }

  lemma SettleKeepsOptions(st: State, choice: Choice)
    requires S.Shape(st.sched)
    ensures DoSettle(st, choice).options == st.options
  {
  }

  lemma {:induction false} RunWaits(st: State, since: Option<int>, run: seq<Action>)
    requires Good(st) && Runnable(st, run) && Waits(st, since)
    ensures Waits(Final(st, run), StoppedAt(st, since, run)) && Final(st, run).options == st.options
    decreases |run|
  {
    if run == [] {
    } else {
      StepKeepsGood(st, run[0]);
      StepWaits(st, since, run[0]);
      RunWaits(Do(st, run[0]), StopAfter(st, since, run[0]), run[1..]);
    }
  }

  /** In every interleaving, the probes in flight are cancelled, all of them, at the first look at least a grace after
      the loop began to stop, and none before. */
  lemma GraceIsExact(c: S.Config, p: R.Config, o: Options, tb: T.Table, now: int, run: seq<Action>,
                     tokens: seq<S.Token>)
    requires Startable(c, p, tb) && Runnable(Begin(c, p, o, tb, now), run)
    requires Enabled(Final(Begin(c, p, o, tb, now), run), CancelDue(tokens))
    ensures
      var st, since := Final(Begin(c, p, o, tb, now), run), StoppedAt(Begin(c, p, o, tb, now), None, run);
      && (st.stopping ==> since.Some?)
      && if st.stopping && since.value + o.graceMs <= st.now
         then S.Lists(tokens, st.sched.records, S.Flying(st.sched)) else tokens == []
  {
    var st := Final(Begin(c, p, o, tb, now), run);
    BeginIsGood(c, p, o, tb, now);
    RunKeepsGood(Begin(c, p, o, tb, now), run);
    RunWaits(Begin(c, p, o, tb, now), None, run);
    NoFlights(st.sched);
  }

  // ----- what settling and counting come to

  /** A slot is filed as what was done about it: one answered from the cache as skipped for that, one that could not be
      sent as a failure without a flight, and one that was sent as issued, so many milliseconds after it was due. */
  lemma SettleFiles(st: State, choice: Choice)
    requires S.Shape(st.sched) && st.slot.Some?
    ensures
      var token, due := st.slot.value.token, st.slot.value.scheduledAt;
      DoSettle(st, choice).pending
      == [match choice
          case FromCache(_) => T.SkipByCache(token.ttl, token.epoch)
          case Fail(_, code) => T.Failure(token.ttl, token.epoch, false, code)
          case Send(_) => T.Issue(token.ttl, token.epoch, if due < st.now then st.now - due else 0)]
  {
  }

  /** How many probes of a TTL have come to an end, one way or another, short of being cancelled. */
  function Settled(s: S.Sched, t: nat): int
    requires t < |s.ttl|
  {
    s.ttl[t].counters.completed + s.ttl[t].counters.localErrors + s.ttl[t].counters.cacheSkipped
  }

  lemma {:induction false} LeastSettledIsLeast(s: S.Sched, hi: nat)
    requires S.Shape(s) && s.config.firstTtl <= hi <= s.activeLastTtl
    ensures forall t | s.config.firstTtl <= t <= hi :: LeastSettled(s, hi) <= Settled(s, t)
    ensures exists t: nat :: s.config.firstTtl <= t <= hi && LeastSettled(s, hi) == Settled(s, t)
    decreases hi
  {
    if hi == s.config.firstTtl {
      assert LeastSettled(s, hi) == Settled(s, hi);
    } else {
      LeastSettledIsLeast(s, hi - 1);
      if LeastSettled(s, hi) == LeastSettled(s, hi - 1) {
        var t: nat :| s.config.firstTtl <= t <= hi - 1 && LeastSettled(s, hi - 1) == Settled(s, t);
        assert s.config.firstTtl <= t <= hi && LeastSettled(s, hi) == Settled(s, t);
      } else {
        assert LeastSettled(s, hi) == Settled(s, hi);
      }
    }
  }

  lemma CountedCycles(st: State, later: int)
    requires S.Shape(st.sched) && R.Normal(st.policy.config)
    ensures DoRefresh(st, later).cycles == Max(st.cycles, LeastSettled(st.sched, st.sched.activeLastTtl))
  {
  }

  /** After a refresh the loop has counted `n` cycles or more exactly if it had before, or every TTL still probed has
      now settled `n` probes. */
  lemma CyclesAreCompleted(st: State, later: int, n: nat)
    requires S.Shape(st.sched) && R.Normal(st.policy.config)
    ensures
      n <= DoRefresh(st, later).cycles <==>
        n <= st.cycles || forall t | S.ActiveTtl(st.sched, t) :: n <= Settled(st.sched, t)
  {
    CountedCycles(st, later);
    LeastSettledIsLeast(st.sched, st.sched.activeLastTtl);
    var t: nat :| S.ActiveTtl(st.sched, t) && LeastSettled(st.sched, st.sched.activeLastTtl) == Settled(st.sched, t);
  }
}
