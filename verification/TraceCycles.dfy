/** The number of completed cycles that the table shows is the trace loop's own. */
module TraceCycles {
  import S = SchedulerModel
  import R = RouteModel
  import T = TableModel
  import Runs = SchedulerRuns
  import opened TraceLoop
  import opened TraceRuns

  /** What the table's count becomes once the pending commits, all decided in its epoch, are made. */
  function Published(n: nat, cs: seq<T.Commit>): nat
    decreases |cs|
  {
    if cs == [] then n else Published(if cs[0].Cycles? && n < cs[0].count then cs[0].count else n, cs[1..])
  }

  predicate NoCycles(cs: seq<T.Commit>) { forall i | 0 <= i < |cs| :: !cs[i].Cycles? }

  lemma {:induction false} NothingPublished(n: nat, cs: seq<T.Commit>)
    requires NoCycles(cs)
    ensures Published(n, cs) == n
    decreases |cs|
  {
    if cs == [] {
    } else {
      assert forall i | 0 <= i < |cs[1..]| :: cs[1..][i] == cs[i + 1];
      NothingPublished(n, cs[1..]);
    }
  }

  /** In the scheduler's epoch the table's count will be the loop's; in a newer one it starts from zero. */
  predicate InStepWithCycles(st: State) {
    if st.table.epoch == st.sched.epoch then Published(st.table.completedCycles, st.pending) == st.cycles
    else st.table.completedCycles == 0
  }

  // ----- only a refresh publishes cycles

  lemma {:induction false} ExpiryHasNone(p: R.Policy, tokens: seq<S.Token>)
    ensures NoCycles(ExpireCommits(p, tokens))
  {
    if tokens == [] {
    } else {
      ExpiryHasNone(p, tokens[1..]);
      OneMoreHasNone(ExpireCommits(p, tokens)[0], ExpireCommits(p, tokens[1..]));
    }
  }

  lemma {:induction false} CancelHasNone(tokens: seq<S.Token>)
    ensures NoCycles(CancelCommits(tokens))
  {
    if tokens == [] {
    } else {
      CancelHasNone(tokens[1..]);
      OneMoreHasNone(CancelCommits(tokens)[0], CancelCommits(tokens[1..]));
    }
  }

  lemma {:induction false} SkipHasNone(ttls: seq<nat>, epoch: nat)
    ensures NoCycles(SkipCommits(ttls, epoch))
  {
    if ttls == [] {
    } else {
      SkipHasNone(ttls[1..], epoch);
      OneMoreHasNone(SkipCommits(ttls, epoch)[0], SkipCommits(ttls[1..], epoch));
    }
  }

  lemma OneMoreHasNone(c: T.Commit, cs: seq<T.Commit>)
    requires !c.Cycles? && NoCycles(cs)
    ensures NoCycles([c] + cs)
  {
  }

  lemma VerdictHasNone(d: S.Disposition, beyond: bool, token: S.Token, session: nat, r: T.ReplyData, code: nat)
    ensures NoCycles(VerdictCommits(d, beyond, token, session, r, code))
  {
  }

  /** What the other steps of the loop leave: no cycles pending, the count and the table as they were. */
  predicate LeavesCycles(st: State, st': State) {
    && NoCycles(st'.pending) && st'.cycles == st.cycles && st'.table == st.table
    && st'.sched.epoch == st.sched.epoch
  }

  lemma FinishLeavesCycles(st: State, a: Action)
    requires S.Shape(st.sched) && a.Finish?
    ensures LeavesCycles(st, DoFinish(st, a))
  {
    VerdictHasNone(S.Verdict(st.sched, a.token, a.kind, a.at), Beyond(st.policy, a.token.ttl), a.token,
                   st.sched.session, a.reply, a.code);
  }

  lemma CancelLeavesCycles(st: State, tokens: seq<S.Token>)
    requires S.Shape(st.sched) && Quiet(st)
    ensures LeavesCycles(st, DoCancelDue(st, tokens))
  {
    CancelHasNone(tokens);
  }

  lemma CachingLeavesCycles(st: State, tick: nat)
    requires S.Shape(st.sched) && Quiet(st)
    ensures LeavesCycles(st, DoSettle(st, FromCache(tick)))
  {
  }

  lemma FailingLeavesCycles(st: State, tick: nat, code: nat)
    requires S.Shape(st.sched) && Quiet(st)
    ensures LeavesCycles(st, DoSettle(st, Fail(tick, code)))
  {
  }

  lemma SendingLeavesCycles(st: State, tick: nat)
    requires S.Shape(st.sched) && Quiet(st)
    ensures LeavesCycles(st, DoSettle(st, Send(tick)))
  {
  }

  lemma SettleLeavesCycles(st: State, choice: Choice)
    requires S.Shape(st.sched) && Quiet(st)
    ensures LeavesCycles(st, DoSettle(st, choice))
  {
    match choice
    case FromCache(tick) => CachingLeavesCycles(st, tick);
    case Fail(tick, code) => FailingLeavesCycles(st, tick, code);
    case Send(tick) => SendingLeavesCycles(st, tick);
  }

  lemma ReserveLeavesCycles(st: State)
    requires Good(st)
    ensures LeavesCycles(st, DoReserve(st))
  {
    var b := S.ReserveDue(st.sched, st.now).1;
    if st.sched.active && st.sched.nextGlobalSendAt <= st.now { Runs.ReserveLoopHolds(st.sched, st.now); }
    SkipHasNone(b.skipped, st.sched.epoch);
  }

  lemma LeavingKeepsStep(st: State, st': State)
    requires Quiet(st) && InStepWithCycles(st) && LeavesCycles(st, st')
    ensures InStepWithCycles(st')
  {
    NothingPublished(st.table.completedCycles, st'.pending);
  }

  // ----- the steps that matter

  lemma BeginPassKeepsStep(st: State, now: int)
    requires Good(st) && Quiet(st) && InStepWithCycles(st)
    ensures InStepWithCycles(DoBeginPass(st, now))
  {
  }

  lemma OnePublished(before: nat, n: nat, epoch: nat)
    ensures Published(before, [T.Cycles(n, epoch)]) == if before < n then n else before
  {
  }

  lemma CountingKeepsStep(st: State, later: int)
    requires Good(st) && Quiet(st) && InStepWithCycles(st)
    ensures InStepWithCycles(CountCycles(st, later))
  {
    var n := LeastSettled(st.sched, st.sched.activeLastTtl);
    if n > st.cycles { OnePublished(st.table.completedCycles, n, st.sched.epoch); }
  }

  lemma RefreshKeepsStep(st: State, later: int)
    requires Good(st) && Quiet(st) && InStepWithCycles(st)
    ensures InStepWithCycles(DoRefresh(st, later))
  {
    CountingKeepsStep(st, later);
    DrainKeepsStep(CountCycles(st, later).(phase := Leaving));
  }

  lemma DrainKeepsStep(st: State)
    requires S.Shape(st.sched) && InStepWithCycles(st)
    ensures InStepWithCycles(Drain(st))
  {
  }

  lemma CommitKeepsStep(st: State)
    requires Good(st) && st.pending != [] && InStepWithCycles(st)
    ensures InStepWithCycles(Do(st, CommitNext))
  {
    CountAfterCommit(st.table, st.pending[0]);
  }

  lemma CountAfterCommit(t: T.Table, c: T.Commit)
    ensures T.Apply(t, c).epoch == t.epoch
    ensures T.Apply(t, c).completedCycles
         == if c.epoch == t.epoch && c.Cycles? && t.completedCycles < c.count then c.count else t.completedCycles
  {
  }

  lemma OthersKeepStep(st: State, a: Action)
    requires Good(st) && Enabled(st, a) && InStepWithCycles(st)
    requires a.Finish? || a.ExpireDue? || a.CancelDue? || a.Reserve? || a.Settle?
    ensures InStepWithCycles(Do(st, a))
  {
    OthersLeaveCycles(st, a);
    LeavingKeepsStep(st, Do(st, a));
  }

  lemma TableKeepsStep(st: State, a: Action)
    requires Good(st) && ByOthers(a) && InStepWithCycles(st)
    ensures InStepWithCycles(Do(st, a))
  {
  }

  lemma StepKeepsCycles(st: State, a: Action)
    requires Good(st) && Enabled(st, a) && InStepWithCycles(st)
    ensures InStepWithCycles(Do(st, a))
  {
    match a {
      case BeginPass(now) => BeginPassKeepsStep(st, now);
      case EndCompletions(_) => DrainKeepsStep(st);
      case Refresh(later) => RefreshKeepsStep(st, later);
      case Leave =>
      case CommitNext => CommitKeepsStep(st);
      case ResetByUser => TableKeepsStep(st, a);
      case Learned(_, _, _, _, _) => TableKeepsStep(st, a);
      case _ => OthersKeepStep(st, a);
    }
  }

  lemma OthersLeaveCycles(st: State, a: Action)
    requires Good(st) && Enabled(st, a)
    requires a.Finish? || a.ExpireDue? || a.CancelDue? || a.Reserve? || a.Settle?
    ensures LeavesCycles(st, Do(st, a))
  {
    match a
    case Finish(_, _, _, _, _) => FinishLeavesCycles(st, a);
    case ExpireDue(tokens) => ExpiryHasNone(st.policy, tokens);
    case CancelDue(tokens) => CancelLeavesCycles(st, tokens);
    case Reserve => ReserveLeavesCycles(st);
    case Settle(choice) => SettleLeavesCycles(st, choice);
  }

  lemma {:induction false} RunKeepsCycles(st: State, run: seq<Action>)
    requires Good(st) && Runnable(st, run) && InStepWithCycles(st)
    ensures InStepWithCycles(Final(st, run))
    decreases |run|
  {
    if run == [] {
    } else {
      StepKeepsGood(st, run[0]);
      StepKeepsCycles(st, run[0]);
      RunKeepsCycles(Do(st, run[0]), run[1..]);
    }
  }

  /** In every state of every interleaving, once the pending commits are made the table shows the loop's number
      of completed cycles, if it is in the scheduler's epoch, and else none. */
  lemma CyclesAreShown(c: S.Config, p: R.Config, o: Options, tb: T.Table, now: int, run: seq<Action>)
    requires Startable(c, p, tb) && tb.completedCycles == 0 && Runnable(Begin(c, p, o, tb, now), run)
    ensures
      var st := Final(Begin(c, p, o, tb, now), run);
      && InStepWithCycles(st)
      && (Quiet(st) && st.table.epoch == st.sched.epoch ==> st.table.completedCycles == st.cycles)
  {
    BeginIsGood(c, p, o, tb, now);
    RunKeepsCycles(Begin(c, p, o, tb, now), run);
  }
}
