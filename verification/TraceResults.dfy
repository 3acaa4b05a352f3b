/** What a trace reports at its end: whether the destination has answered, or anybody. */
module TraceResults {
  import opened Basics
  import S = SchedulerModel
  import T = TableModel
  import R = RouteModel
  import RH = RouteHistories
  import opened TraceLoop
  import opened TraceRuns
  import opened TraceDestinations

  predicate IsReply(e: RH.Event, fromDestination: bool) { e.Reply? && (fromDestination ==> e.destination) }

  /** Among what the epoch has logged there is a reply; one from the destination. */
  predicate HasReply(h: seq<RH.Event>, fromDestination: bool) {
    exists i :: 0 <= i < |h| && IsReply(h[i], fromDestination)
  }

  lemma OneMoreHas(h: seq<RH.Event>, e: RH.Event, fromDestination: bool)
    ensures HasReply(h + [e], fromDestination) <==> HasReply(h, fromDestination) || IsReply(e, fromDestination)
  {
    var w := h + [e];
    assert w[|h|] == e;
    if HasReply(h, fromDestination) {
      var i :| 0 <= i < |h| && IsReply(h[i], fromDestination);
      assert w[i] == h[i];
    }
  }

  /** The three flags that the loop keeps, against that. A destination the policy knows of has answered. */
  predicate Told(destination: nat, reached: bool, replied: bool, h: seq<RH.Event>) {
    && (reached <==> HasReply(h, true)) && (HasReply(h, false) <==> reached || replied)
    && (destination != 0 ==> reached)
  }

  predicate Tells(st: State, h: seq<RH.Event>) { Told(st.policy.destination, st.reached, st.replied, h) }

  lemma OneMoreTold(destination: nat, reached: bool, replied: bool, h: seq<RH.Event>, e: RH.Event, destination': nat,
                    reached': bool, replied': bool)
    requires Told(destination, reached, replied, h)
    requires reached' <==> reached || IsReply(e, true)
    requires reached' || replied' <==> reached || replied || IsReply(e, false)
    requires destination' != 0 ==> destination != 0 || reached'
    ensures Told(destination', reached', replied', h + [e])
  {
    OneMoreHas(h, e, true);
    OneMoreHas(h, e, false);
  }

  lemma FinishTells(st: State, h: seq<RH.Event>, a: Action)
    requires S.Shape(st.sched) && Tells(st, h) && a.Finish?
    ensures Tells(DoFinish(st, a), Logged(st, h, a))
  {
    var st' := DoFinish(st, a);
    FinishedPolicy(st, a);
    FinishedFlags(st, a);
    if Accepts(st, a) {
      OneMoreTold(st.policy.destination, st.reached, st.replied, h, RH.Reply(a.token.ttl, a.reply.isDestination),
                  st'.policy.destination, st'.reached, st'.replied);
    }
  }

  lemma FinishedFlags(st: State, a: Action)
    requires S.Shape(st.sched) && a.Finish?
    ensures
      var st', notes := DoFinish(st, a), Accepts(st, a) && !Beyond(st.policy, a.token.ttl);
      && (st'.replied <==> st.replied || notes)
      && (st'.reached <==> st.reached || (notes && a.reply.isDestination))
  {
  }

  lemma SettledFlags(st: State, choice: Choice)
    requires S.Shape(st.sched)
    ensures
      var st' := DoSettle(st, choice);
      && st'.replied == st.replied
      && (st'.reached <==> st.reached || SettlesDestination(st, Settle(choice)))
  {
  }

  lemma SettleTells(st: State, h: seq<RH.Event>, choice: Choice)
    requires S.Shape(st.sched) && Tells(st, h)
    ensures Tells(DoSettle(st, choice), Logged(st, h, Settle(choice)))
  {
    var st' := DoSettle(st, choice);
    SettledPolicy(st, choice);
    SettledFlags(st, choice);
    if SettlesDestination(st, Settle(choice)) {
      OneMoreTold(st.policy.destination, st.reached, st.replied, h, RH.Reply(st.slot.value.token.ttl, true),
                  st'.policy.destination, st'.reached, st'.replied);
    }
  }

  lemma RefreshedFlags(st: State, later: int)
    requires S.Shape(st.sched) && R.Normal(st.policy.config)
    ensures DoRefresh(st, later).replied == st.replied && DoRefresh(st, later).reached == st.reached
  {
  }

  lemma CompletingForgets(p: R.Policy, n: nat)
    requires R.Normal(p.config)
    ensures R.CompleteCycle(p, n).0.destination != 0 ==> p.destination != 0
  {
  }

  lemma RefreshTells(st: State, h: seq<RH.Event>, later: int)
    requires S.Shape(st.sched) && R.Normal(st.policy.config) && Tells(st, h)
    ensures Tells(DoRefresh(st, later), Logged(st, h, Refresh(later)))
  {
    var n, st' := LeastSettled(st.sched, st.sched.activeLastTtl), DoRefresh(st, later);
    RefreshedPolicy(st, later);
    RefreshedFlags(st, later);
    if n > st.cycles {
      CompletingForgets(st.policy, n);
      OneMoreTold(st.policy.destination, st.reached, st.replied, h, RH.Cycle(n), st'.policy.destination, st'.reached,
                  st'.replied);
    }
  }

  lemma OthersKeepFlags(st: State, a: Action)
    requires S.Shape(st.sched) && R.Normal(st.policy.config)
    requires !a.BeginPass? && !a.Finish? && !a.Settle? && !a.Refresh?
    ensures Do(st, a).replied == st.replied && Do(st, a).reached == st.reached
  {
  }

  lemma StepTells(st: State, h: seq<RH.Event>, a: Action)
    requires S.Shape(st.sched) && R.Normal(st.policy.config) && Tells(st, h)
    ensures Tells(Do(st, a), Logged(st, h, a))
  {
    match a {
      case BeginPass(_) =>
      case Finish(_, _, _, _, _) => FinishTells(st, h, a);
      case Settle(choice) => SettleTells(st, h, choice);
      case Refresh(later) => RefreshTells(st, h, later);
      case _ =>
        OthersKeepPolicy(st, a);
        OthersKeepFlags(st, a);
    }
  }

  lemma {:induction false} RunTells(st: State, h: seq<RH.Event>, run: seq<Action>)
    requires Good(st) && Runnable(st, run) && Tells(st, h)
    ensures Tells(Final(st, run), History(st, h, run))
    decreases |run|
  {
    if run == [] {
    } else {
      StepKeepsGood(st, run[0]);
      StepTells(st, h, run[0]);
      RunTells(Do(st, run[0]), Logged(st, h, run[0]), run[1..]);
    }
  }

  /** In every state of every interleaving, the trace would report the destination just if one of the replies of its
      epoch, in time or out of the cache, was from there, wherever its hop lay; some reply, if there was any; and none
      otherwise. */
  lemma ResultIsByHistory(c: S.Config, p: R.Config, o: Options, tb: T.Table, now: int, run: seq<Action>)
    requires Startable(c, p, tb) && Runnable(Begin(c, p, o, tb, now), run)
    ensures
      var h := TraceHistory(c, p, o, tb, now, run);
      ResultOf(Final(Begin(c, p, o, tb, now), run))
      == if HasReply(h, true) then Destination else if HasReply(h, false) then SomeReply else NoReply
  {
    BeginIsGood(c, p, o, tb, now);
    RunTells(Begin(c, p, o, tb, now), [], run);
  }
}
