/** The scheduler of a trace goes through one of the runs that the scheduler's own theorems speak of: so its
    caps, accounts and pacing hold of every interleaving. */
module TraceCalls {
  import opened Basics
  import S = SchedulerModel
  import T = TableModel
  import R = RouteModel
  import A = SchedulerAccounts
  import P = SchedulerPacing
  import Z = Sizes
  import opened Runs = SchedulerRuns
  import opened TraceLoop
  import opened TraceRuns

  // ----- the scheduler calls of one action

  function LearnCalls(st: State, ttl: nat, isDestination: bool): seq<Event> {
    if isDestination then [SettingLastTtl(Max(MandatoryTtl(st), ttl), st.now)] else []
  }

  function FinishCalls(st: State, a: Action): seq<Event>
    requires a.Finish?
  {
    var d := S.Verdict(st.sched, a.token, a.kind, a.at);
    var learns := d == S.AcceptedReply && !Beyond(st.policy, a.token.ttl) && a.reply.isDestination;
    [Completion(a.token, a.kind, a.at)] + LearnCalls(st, a.token.ttl, learns)
  }

  function SettleCalls(st: State, choice: Choice): seq<Event> {
    if st.slot.None? then [] else
    var token := st.slot.value.token;
    match choice
    case FromCache(tick) =>
      [MarkingCached(token)]
      + LearnCalls(st, token.ttl, T.CachedReply(st.table, token.ttl, tick, st.options.cacheSeconds, token.epoch).1)
    case Fail(_, _) => [MarkingIssueFailed(token)]
    case Send(_) => [MarkingIssued(token, st.now)]
  }

  function CycleCalls(st: State, later: int): seq<Event>
    requires S.Shape(st.sched) && R.Normal(st.policy.config)
  {
    var n := LeastSettled(st.sched, st.sched.activeLastTtl);
    if n <= st.cycles then [] else
    var next := R.CompleteCycle(st.policy, n).1;
    if next.Some? then [SettingLastTtl(next.value, later)] else []
  }

  function RefreshCalls(st: State, later: int): seq<Event>
    requires S.Shape(st.sched) && R.Normal(st.policy.config)
  {
    CycleCalls(st, later) + (if S.QuotasReached(CountCycles(st, later).sched) then [DrainBeginning] else [])
  }

  predicate TakesOver(st: State) { !st.stopping && st.table.epoch != st.sched.epoch }

  function Calls(st: State, a: Action): seq<Event>
    requires S.Shape(st.sched) && R.Normal(st.policy.config)
  {
    match a
    case BeginPass(now) =>
      if TakesOver(st) then [Restarting(st.table.epoch, now), SettingLastTtl(st.policy.config.maxHops, now)] else []
    case Finish(_, _, _, _, _) => FinishCalls(st, a)
    case EndCompletions(stop) => if stop && !st.stopping then [DrainBeginning] else []
    case ExpireDue(_) => [Expiry(st.now)]
    case CancelDue(_) => if CancelsNow(st) then [CancellingPending] else []
    case Reserve => [ReservingDue(st.now)]
    case Settle(choice) => SettleCalls(st, choice)
    case Refresh(later) => RefreshCalls(st, later)
    case _ => []
  }

  // ----- they are what the action does to the scheduler

  lemma BeginPassIsCalls(st: State, now: int)
    requires S.Shape(st.sched) && R.Normal(st.policy.config)
    ensures DoBeginPass(st, now).sched == Exec(st.sched, Calls(st, BeginPass(now)))
  {
    ExecTwo(st.sched, Restarting(st.table.epoch, now), SettingLastTtl(st.policy.config.maxHops, now));
  }

  lemma FinishIsCalls(st: State, a: Action)
    requires S.Shape(st.sched) && R.Normal(st.policy.config) && a.Finish?
    ensures DoFinish(st, a).sched == Exec(st.sched, FinishCalls(st, a))
  {
    var e := Completion(a.token, a.kind, a.at);
    ExecOne(st.sched, e);
    ExecTwo(st.sched, e, SettingLastTtl(Max(MandatoryTtl(st), a.token.ttl), st.now));
  }

  lemma CacheIsCalls(st: State, tick: nat)
    requires S.Shape(st.sched) && R.Normal(st.policy.config) && st.slot.Some?
    ensures DoSettle(st, FromCache(tick)).sched == Exec(st.sched, SettleCalls(st, FromCache(tick)))
  {
    var token := st.slot.value.token;
    ExecOne(st.sched, MarkingCached(token));
    ExecTwo(st.sched, MarkingCached(token), SettingLastTtl(Max(MandatoryTtl(st), token.ttl), st.now));
  }

  lemma SettleIsCalls(st: State, choice: Choice)
    requires S.Shape(st.sched) && R.Normal(st.policy.config)
    ensures DoSettle(st, choice).sched == Exec(st.sched, SettleCalls(st, choice))
  {
    if st.slot.Some? {
      var token := st.slot.value.token;
      match choice {
        case FromCache(tick) => CacheIsCalls(st, tick);
        case Fail(_, _) => ExecOne(st.sched, MarkingIssueFailed(token));
        case Send(_) => ExecOne(st.sched, MarkingIssued(token, st.now));
      }
    }
  }

  lemma CycleIsCalls(st: State, later: int)
    requires S.Shape(st.sched) && R.Normal(st.policy.config)
    ensures CountCycles(st, later).sched == Exec(st.sched, CycleCalls(st, later))
  {
    var n := LeastSettled(st.sched, st.sched.activeLastTtl);
    if n > st.cycles {
      var next := R.CompleteCycle(st.policy, n).1;
      if next.Some? { ExecOne(st.sched, SettingLastTtl(next.value, later)); }
    }
  }

  lemma RefreshIsCalls(st: State, later: int)
    requires S.Shape(st.sched) && R.Normal(st.policy.config)
    ensures DoRefresh(st, later).sched == Exec(st.sched, RefreshCalls(st, later))
  {
    var s := CountCycles(st, later).sched;
    CycleIsCalls(st, later);
    if S.QuotasReached(s) {
      ExecJoin(st.sched, CycleCalls(st, later), [DrainBeginning]);
      ExecOne(s, DrainBeginning);
    }
  }

  lemma StepIsCalls(st: State, a: Action)
    requires S.Shape(st.sched) && R.Normal(st.policy.config)
    ensures Do(st, a).sched == Exec(st.sched, Calls(st, a))
  {
    match a {
      case BeginPass(now) => BeginPassIsCalls(st, now);
      case Finish(_, _, _, _, _) => FinishIsCalls(st, a);
      case CancelDue(tokens) => CancelIsCalls(st, tokens);
      case Settle(choice) => SettleIsCalls(st, choice);
      case Refresh(later) => RefreshIsCalls(st, later);
      case _ => OneCallAtMost(st, a);
    }
  }

  lemma OneCallAtMost(st: State, a: Action)
    requires S.Shape(st.sched) && R.Normal(st.policy.config)
    requires !a.BeginPass? && !a.Finish? && !a.CancelDue? && !a.Settle? && !a.Refresh?
    ensures Do(st, a).sched == Exec(st.sched, Calls(st, a))
  {
    match a {
      case EndCompletions(_) => ExecOne(st.sched, DrainBeginning);
      case ExpireDue(_) => ExecOne(st.sched, Expiry(st.now));
      case Reserve => ExecOne(st.sched, ReservingDue(st.now));
      case _ =>
    }
  }

  lemma CancelIsCalls(st: State, tokens: seq<S.Token>)
    requires S.Shape(st.sched) && R.Normal(st.policy.config)
    ensures DoCancelDue(st, tokens).sched == Exec(st.sched, Calls(st, CancelDue(tokens)))
  {
    ExecOne(st.sched, CancellingPending);
  }

  // ----- whole runs

  function AllCalls(st: State, run: seq<Action>): seq<Event>
    requires S.Shape(st.sched) && R.Normal(st.policy.config)
    decreases |run|
  {
    if run == [] then [] else
    var st' := Do(st, run[0]);
    Calls(st, run[0]) + (if S.Shape(st'.sched) && R.Normal(st'.policy.config) then AllCalls(st', run[1..]) else [])
  }

  lemma {:induction false} RunIsCalls(st: State, run: seq<Action>)
    requires Good(st) && Runnable(st, run)
    ensures Final(st, run).sched == Exec(st.sched, AllCalls(st, run))
    decreases |run|
  {
    if run == [] {
    } else {
      StepKeepsGood(st, run[0]);
      StepIsCalls(st, run[0]);
      RunIsCalls(Do(st, run[0]), run[1..]);
      ExecJoin(st.sched, Calls(st, run[0]), AllCalls(Do(st, run[0]), run[1..]));
    }
  }

  /** The calls of a trace, from the start of its scheduler on. */
  function TraceCallsOf(c: S.Config, p: R.Config, o: Options, tb: T.Table, now: int, run: seq<Action>): seq<Event>
    requires R.Normal(p)
  {
    [SettingLastTtl(p.maxHops, now)] + AllCalls(Begin(c, p, o, tb, now), run)
  }

  /** In every interleaving, what the trace thread does to its scheduler is one run of it, from its start. */
  lemma TraceIsRun(c: S.Config, p: R.Config, o: Options, tb: T.Table, now: int, run: seq<Action>)
    requires Startable(c, p, tb) && Runnable(Begin(c, p, o, tb, now), run)
    ensures Final(Begin(c, p, o, tb, now), run).sched
         == Exec(Started(c, tb.session, tb.epoch, now), TraceCallsOf(c, p, o, tb, now, run))
  {
    var st, s := Begin(c, p, o, tb, now), Started(c, tb.session, tb.epoch, now);
    BeginIsGood(c, p, o, tb, now);
    RunIsCalls(st, run);
    ExecOne(s, SettingLastTtl(p.maxHops, now));
    ExecJoin(s, [SettingLastTtl(p.maxHops, now)], AllCalls(st, run));
  }

  /** So in every state of every interleaving the four caps hold and the accounts balance, for each TTL. */
  lemma TraceKeepsCaps(c: S.Config, p: R.Config, o: Options, tb: T.Table, now: int, run: seq<Action>, t: nat)
    requires Startable(c, p, tb) && Runnable(Begin(c, p, o, tb, now), run) && c.firstTtl <= t <= c.lastTtl
    ensures
      var s := Final(Begin(c, p, o, tb, now), run).sched;
      var l := A.PostAll(A.BLANK, Started(c, tb.session, tb.epoch, now), TraceCallsOf(c, p, o, tb, now, run), t);
      t < |s.ttl| && A.WithinCaps(s, t) && A.Balanced(s, l, t) && A.WithinQuota(s, l, t)
  {
    var es := TraceCallsOf(c, p, o, tb, now, run);
    TraceIsRun(c, p, o, tb, now, run);
    A.CapsAlwaysHold(c, tb.session, tb.epoch, now, es, t);
    A.AccountsAlwaysBalance(c, tb.session, tb.epoch, now, es, t);
  }

  // ----- pacing

  /** The instants at which the loop is granted a slot. */
  function Slots(st: State, run: seq<Action>): seq<int>
    requires S.Shape(st.sched) && R.Normal(st.policy.config)
    decreases |run|
  {
    if run == [] then [] else
    var st' := Do(st, run[0]);
    (if run[0].Reserve? && st'.slot.Some? then [st.now] else [])
    + (if S.Shape(st'.sched) && R.Normal(st'.policy.config) then Slots(st', run[1..]) else [])
  }

  lemma {:induction false} GrantsJoin(s: S.Sched, es: seq<Event>, fs: seq<Event>)
    requires S.Shape(s)
    ensures P.Grants(s, es + fs) == P.Grants(s, es) + P.Grants(Exec(s, es), fs)
    decreases |es|
  {
    if es == [] {
      assert es + fs == fs;
    } else {
      assert (es + fs)[1..] == es[1..] + fs;
      GrantsJoin(Step(s, es[0]), es[1..], fs);
    }
  }

  lemma {:induction false} NoneReserved(s: S.Sched, es: seq<Event>)
    requires S.Shape(s) && forall i | 0 <= i < |es| :: !es[i].ReservingDue?
    ensures P.Grants(s, es) == []
    decreases |es|
  {
    if es != [] { NoneReserved(Step(s, es[0]), es[1..]); }
  }

  lemma StepGrants(st: State, a: Action)
    requires S.Shape(st.sched) && R.Normal(st.policy.config)
    ensures P.Grants(st.sched, Calls(st, a)) == if a.Reserve? && Do(st, a).slot.Some? then [st.now] else []
  {
    if !a.Reserve? { NoneReserved(st.sched, Calls(st, a)); }
  }

  lemma {:induction false} SlotsAreGrants(st: State, run: seq<Action>)
    requires Good(st) && Runnable(st, run)
    ensures Slots(st, run) == P.Grants(st.sched, AllCalls(st, run))
    decreases |run|
  {
    if run == [] {
    } else {
      var st' := Do(st, run[0]);
      StepKeepsGood(st, run[0]);
      StepGrants(st, run[0]);
      StepIsCalls(st, run[0]);
      SlotsAreGrants(st', run[1..]);
      GrantsJoin(st.sched, Calls(st, run[0]), AllCalls(st', run[1..]));
    }
  }

  /** No pass of the run takes over a new epoch. */
  predicate OneEpoch(st: State, run: seq<Action>)
    requires S.Shape(st.sched) && R.Normal(st.policy.config)
    decreases |run|
  {
    run == [] ||
    (var st' := Do(st, run[0]);
     !(run[0].BeginPass? && TakesOver(st))
     && S.Shape(st'.sched) && R.Normal(st'.policy.config) && OneEpoch(st', run[1..]))
  }

  lemma StepInEpoch(st: State, a: Action)
    requires S.Shape(st.sched) && R.Normal(st.policy.config) && !(a.BeginPass? && TakesOver(st))
    ensures P.SameEpoch(Calls(st, a))
  {
  }

  lemma SameEpochJoin(es: seq<Event>, fs: seq<Event>)
    requires P.SameEpoch(es) && P.SameEpoch(fs)
    ensures P.SameEpoch(es + fs)
  {
  }

  lemma {:induction false} OneEpochCalls(st: State, run: seq<Action>)
    requires Good(st) && Runnable(st, run) && OneEpoch(st, run)
    ensures P.SameEpoch(AllCalls(st, run))
    decreases |run|
  {
    if run == [] {
    } else {
      StepKeepsGood(st, run[0]);
      StepInEpoch(st, run[0]);
      OneEpochCalls(Do(st, run[0]), run[1..]);
      SameEpochJoin(Calls(st, run[0]), AllCalls(Do(st, run[0]), run[1..]));
    }
  }

  /** In every interleaving, between two epochs taken over, no window of a second holds more than
      `maxGlobalPps` slots granted to the loop. */
  lemma TraceIsPaced(st: State, run: seq<Action>, from: int)
    requires Good(st) && Runnable(st, run) && OneEpoch(st, run)
    ensures |Z.InWindow(Slots(st, run), from, 1000)| <= st.sched.config.maxGlobalPps
  {
    SlotsAreGrants(st, run);
    OneEpochCalls(st, run);
    P.PacingHolds(st.sched, AllCalls(st, run), from);
  }
}
