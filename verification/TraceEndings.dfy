/** The trace loop never gets stuck: from every state it can still come to its end. */
module TraceEndings {
  import opened Basics
  import S = SchedulerModel
  import H = HopModel
  import T = TableModel
  import R = RouteModel
  import V = SchedulerReserve
  import opened TraceLoop
  import opened TraceRuns

  /** A pass that has nothing more to do than to stop, or once stopping to complete what is owed. */
  function PhasesLeft(st: State): nat {
    if !st.stopping then
      match st.phase
      case Completing => 1 case Top => 2 case Leaving => 3 case Refreshing => 4 case Settling => 5
      case Reserving => 6 case Cancelling => 7 case Expiring => 8 case Exited => 0
    else if st.requests != map[] then
      match st.phase
      case Completing => 1 case Top => 2 case Leaving => 3 case Cancelling => 4 case Expiring => 5
      case _ => 0
    else
      match st.phase
      case Leaving => 1 case Cancelling => 2 case Expiring => 3 case Completing => 4 case Top => 5
      case _ => 0
  }

  function Owing(st: State): nat { if st.stopping then |st.requests| else 0 }

  /** `st'` is nearer to the end than `st`. */
  predicate Nearer(st': State, st: State) {
    || One(!st'.stopping) < One(!st.stopping)
    || (st'.stopping == st.stopping && Owing(st') < Owing(st))
    || (st'.stopping == st.stopping && Owing(st') == Owing(st) && PhasesLeft(st') < PhasesLeft(st))
    || (st'.stopping == st.stopping && Owing(st') == Owing(st) && PhasesLeft(st') == PhasesLeft(st)
        && |st'.pending| < |st.pending|)
  }

  /** Any set of records can be listed. */
  lemma {:induction false} CanBeListed(s: S.Sched, d: set<nat>) returns (tokens: seq<S.Token>)
    requires S.Valid(s) && d <= s.records.Keys
    ensures S.Lists(tokens, s.records, d)
    decreases d
  {
    if d == {} {
      tokens := [];
    } else {
      var k :| k in d;
      var rest := CanBeListed(s, d - {k});
      assert S.RecordOk(s, k);
      V.ListsOneMore(rest, s.records, d - {k}, k);
      assert d - {k} + {k} == d;
      tokens := rest + [s.records[k].token];
    }
  }

  const NO_REPLY := T.ReplyData(H.Unspecified, 0, 0, H.NoOutcome, 0, false, H.NOTHING)

  lemma CanFinish(st: State) returns (a: Action)
    requires Good(st) && Quiet(st) && st.phase == Completing && st.stopping && st.requests != map[]
    ensures Enabled(st, a) && Nearer(Do(st, a), st)
  {
    var k :| k in st.requests;
    var token := st.requests[k];
    assert S.RecordOk(st.sched, k);
    a := Finish(token, S.LocalError, st.now, NO_REPLY, 0);
    FinishedRequests(st, a);
    FinishKeepsSent(st, a, st.sched.config.firstTtl);
  }

  lemma CanExpire(st: State) returns (a: Action)
    requires Good(st) && Quiet(st) && st.phase == Expiring
    ensures Enabled(st, a) && Nearer(Do(st, a), st)
  {
    var tokens := CanBeListed(st.sched, S.Overdue(st.sched, st.now));
    a := ExpireDue(tokens);
  }

  lemma CancelIsNearer(st: State, tokens: seq<S.Token>)
    requires S.Shape(st.sched) && st.phase == Cancelling
    ensures Nearer(DoCancelDue(st, tokens), st)
  {
    CancelLeavesRequests(st, tokens);
  }

  lemma CanCancel(st: State) returns (a: Action)
    requires Good(st) && Quiet(st) && st.phase == Cancelling
    ensures Enabled(st, a) && Nearer(Do(st, a), st)
  {
    if CancelsNow(st) {
      var tokens := CanBeListed(st.sched, S.Flying(st.sched));
      a := CancelDue(tokens);
    } else {
      a := CancelDue([]);
    }
    CancelIsNearer(st, a.cancelled);
  }

  lemma CanSettle(st: State) returns (a: Action)
    requires Good(st) && Quiet(st) && st.phase == Settling
    ensures Enabled(st, a) && Nearer(Do(st, a), st)
  {
    a := Settle(Send(0));
  }

  lemma CanRefresh(st: State) returns (a: Action)
    requires Good(st) && Quiet(st) && st.phase == Refreshing
    ensures Enabled(st, a) && Nearer(Do(st, a), st)
  {
    a := Refresh(st.now);
    CountCyclesKeepsGood(st, st.now);
  }

  lemma CanBegin(st: State) returns (a: Action)
    requires Good(st) && Quiet(st) && st.phase == Top
    ensures Enabled(st, a) && Nearer(Do(st, a), st)
  {
    a := BeginPass(st.now);
  }

  lemma CanComplete(st: State) returns (a: Action)
    requires Good(st) && Quiet(st) && st.phase == Completing
    ensures Enabled(st, a) && Nearer(Do(st, a), st)
  {
    if st.stopping && st.requests != map[] { a := CanFinish(st); } else { a := EndCompletions(true); }
  }

  lemma CanReserve(st: State) returns (a: Action)
    requires Good(st) && Quiet(st) && st.phase == Reserving
    ensures Enabled(st, a) && Nearer(Do(st, a), st)
  {
    a := Reserve;
  }

  lemma CanLeave(st: State) returns (a: Action)
    requires Good(st) && Quiet(st) && st.phase == Leaving
    ensures Enabled(st, a) && (Do(st, a).phase == Exited || Nearer(Do(st, a), st))
  {
    a := Leave;
    RequestsAreOwed(st);
  }

  /** In every state short of the end some action leads nearer to it. */
  lemma CanAdvance(st: State) returns (a: Action)
    requires Good(st) && st.phase != Exited
    ensures Enabled(st, a) && (Do(st, a).phase == Exited || Nearer(Do(st, a), st))
  {
    if st.pending != [] { a := CommitNext; } else {
      match st.phase {
        case Top => a := CanBegin(st);
        case Completing => a := CanComplete(st);
        case Expiring => a := CanExpire(st);
        case Cancelling => a := CanCancel(st);
        case Reserving => a := CanReserve(st);
        case Settling => a := CanSettle(st);
        case Refreshing => a := CanRefresh(st);
        case Leaving => a := CanLeave(st);
      }
    }
  }

  lemma FirstOfRun(st: State, a: Action, run: seq<Action>)
    requires Good(st) && Enabled(st, a) && Good(Do(st, a)) && Runnable(Do(st, a), run)
    ensures Runnable(st, [a] + run) && Final(st, [a] + run) == Final(Do(st, a), run)
  {
    assert ([a] + run)[1..] == run;
  }

  /** From every state the loop can be brought to its end. */
  lemma {:induction false} CanBeLeft(st: State) returns (run: seq<Action>)
    requires Good(st)
    ensures Runnable(st, run) && Final(st, run).phase == Exited
    decreases One(!st.stopping), Owing(st), PhasesLeft(st), |st.pending|
  {
    if st.phase == Exited {
      run := [];
    } else {
      var a := CanAdvance(st);
      StepKeepsGood(st, a);
      var rest := [];
      if Do(st, a).phase != Exited { rest := CanBeLeft(Do(st, a)); }
      FirstOfRun(st, a, rest);
      run := [a] + rest;
    }
  }

  /** In every state of every interleaving there is a way to the end of the loop. */
  lemma EndIsReachable(c: S.Config, p: R.Config, o: Options, tb: T.Table, now: int, run: seq<Action>)
    returns (rest: seq<Action>)
    requires Startable(c, p, tb) && Runnable(Begin(c, p, o, tb, now), run)
    ensures
      var st := Final(Begin(c, p, o, tb, now), run);
      S.Shape(st.sched) && R.Normal(st.policy.config) && Runnable(st, rest) && Final(st, rest).phase == Exited
  {
    BeginIsGood(c, p, o, tb, now);
    RunKeepsGood(Begin(c, p, o, tb, now), run);
    rest := CanBeLeft(Final(Begin(c, p, o, tb, now), run));
  }
}
