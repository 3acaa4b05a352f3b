/** How the loop files what comes back, told from the replies of the trace alone: what a hop past the
    destination gets is discarded, what any other hop gets is counted, and the policy probes as far as those
    replies call for. */
module TraceDestinations {
  import opened Basics
  import S = SchedulerModel
  import H = HopModel
  import T = TableModel
  import R = RouteModel
  import RH = RouteHistories
  import Calls = TraceCalls
  import opened TraceLoop
  import opened TraceRuns

  // ----- what the trace has heard

  predicate Accepts(st: State, a: Action) {
    a.Finish? && S.Verdict(st.sched, a.token, a.kind, a.at) == S.AcceptedReply
  }

  /** The slot is settled from the cache, and the cached reply is the destination's. */
  predicate SettlesDestination(st: State, a: Action) {
    && a.Settle? && a.choice.FromCache? && st.slot.Some?
    && var token := st.slot.value.token;
       T.CachedReply(st.table, token.ttl, a.choice.tick, st.options.cacheSeconds, token.epoch).1
  }

  /** The history of the epoch after `a`, `h` being that before: every reply accepted in time, wherever it is
      from; every cached reply of the destination; every cycle completed. Taking over an epoch starts it anew. */
  function Logged(st: State, h: seq<RH.Event>, a: Action): seq<RH.Event>
    requires S.Shape(st.sched)
  {
    match a
    case BeginPass(_) => if Calls.TakesOver(st) then [] else h
    case Finish(token, _, _, reply, _) =>
      if Accepts(st, a) then h + [RH.Reply(token.ttl, reply.isDestination)] else h
    case Settle(_) => if SettlesDestination(st, a) then h + [RH.Reply(st.slot.value.token.ttl, true)] else h
    case Refresh(_) =>
      var n := LeastSettled(st.sched, st.sched.activeLastTtl);
      if n > st.cycles then h + [RH.Cycle(n)] else h
    case _ => h
  }

  function History(st: State, h: seq<RH.Event>, run: seq<Action>): seq<RH.Event>
    requires S.Shape(st.sched) && R.Normal(st.policy.config)
    decreases |run|
  {
    if run == [] then h else
    var st' := Do(st, run[0]);
    if S.Shape(st'.sched) && R.Normal(st'.policy.config) then History(st', Logged(st, h, run[0]), run[1..]) else h
  }

  /** Past the mandatory TTLs, and past one where the destination has answered since the window was opened. */
  predicate Past(c: R.Config, heard: seq<RH.Event>, ttl: nat) {
    && c.startTtl < ttl && c.minimumTtl < ttl
    && exists i :: 0 <= i < |heard| && RH.Counted(c, heard[i]) && heard[i].destination && heard[i].ttl < ttl
  }

  // ----- the policy follows that history

  predicate Follows(p: R.Policy, h: seq<RH.Event>) {
    R.Normal(p.config) && RH.Agrees(p, RH.AccountOf(p.config, h))
  }

  lemma BeyondIsPast(p: R.Policy, a: RH.Account, ttl: nat)
    requires R.Normal(p.config) && RH.Agrees(p, a)
    ensures Beyond(p, ttl) <==> Past(p.config, a.heard, ttl)
  {
    RH.ExtremesAreRemembered(p.config, a.heard);
  }

  lemma OneMoreReply(p: R.Policy, h: seq<RH.Event>, ttl: nat, isDestination: bool)
    requires Follows(p, h)
    ensures
      Follows(if Beyond(p, ttl) then p else R.NoteReply(p, ttl, isDestination), h + [RH.Reply(ttl, isDestination)])
  {
    RH.OneMoreCall(p.config, h, RH.Reply(ttl, isDestination));
    if Beyond(p, ttl) {
      RH.IgnoringAgrees(p, RH.AccountOf(p.config, h), ttl, isDestination);
    } else {
      RH.ReplyAgrees(p, RH.AccountOf(p.config, h), ttl, isDestination);
    }
  }

  lemma CachedReplyFollows(p: R.Policy, h: seq<RH.Event>, ttl: nat)
    requires Follows(p, h)
    ensures Follows(R.NoteReply(p, ttl, true), h + [RH.Reply(ttl, true)])
  {
    RH.OneMoreCall(p.config, h, RH.Reply(ttl, true));
    RH.ReplyAgrees(p, RH.AccountOf(p.config, h), ttl, true);
  }

  lemma OneMoreCycle(p: R.Policy, h: seq<RH.Event>, n: nat)
    requires Follows(p, h)
    ensures Follows(R.CompleteCycle(p, n).0, h + [RH.Cycle(n)])
  {
    RH.OneMoreCall(p.config, h, RH.Cycle(n));
    RH.CycleAgrees(p, RH.AccountOf(p.config, h), n);
  }

  lemma FreshFollows(c: R.Config)
    requires R.Normal(c)
    ensures Follows(R.Reset(c), [])
  {
  }

  lemma FinishedPolicy(st: State, a: Action)
    requires S.Shape(st.sched) && a.Finish?
    ensures
      DoFinish(st, a).policy
      == if Accepts(st, a) && !Beyond(st.policy, a.token.ttl)
         then R.NoteReply(st.policy, a.token.ttl, a.reply.isDestination) else st.policy
  {
  }

  lemma SettledPolicy(st: State, choice: Choice)
    requires S.Shape(st.sched)
    ensures
      DoSettle(st, choice).policy
      == if SettlesDestination(st, Settle(choice)) then R.NoteReply(st.policy, st.slot.value.token.ttl, true)
         else st.policy
  {
  }

  lemma RefreshedPolicy(st: State, later: int)
    requires S.Shape(st.sched) && R.Normal(st.policy.config)
    ensures
      var n := LeastSettled(st.sched, st.sched.activeLastTtl);
      DoRefresh(st, later).policy == if n > st.cycles then R.CompleteCycle(st.policy, n).0 else st.policy
  {
    DrainingKeepsRange(CountCycles(st, later).(phase := Leaving));
  }

  lemma OthersKeepPolicy(st: State, a: Action)
    requires S.Shape(st.sched) && R.Normal(st.policy.config)
    requires !a.BeginPass? && !a.Finish? && !a.Settle? && !a.Refresh?
    ensures Do(st, a).policy == st.policy
  {
  }

  lemma StepFollows(st: State, h: seq<RH.Event>, a: Action)
    requires S.Shape(st.sched) && Follows(st.policy, h)
    ensures Follows(Do(st, a).policy, Logged(st, h, a))
  {
    match a {
      case BeginPass(_) => FreshFollows(st.policy.config);
      case Finish(token, _, _, reply, _) =>
        FinishedPolicy(st, a);
        OneMoreReply(st.policy, h, token.ttl, reply.isDestination);
      case Settle(choice) =>
        SettledPolicy(st, choice);
        if SettlesDestination(st, a) { CachedReplyFollows(st.policy, h, st.slot.value.token.ttl); }
      case Refresh(later) =>
        var n := LeastSettled(st.sched, st.sched.activeLastTtl);
        RefreshedPolicy(st, later);
        if n > st.cycles { OneMoreCycle(st.policy, h, n); }
      case _ => OthersKeepPolicy(st, a);
    }
  }

  lemma {:induction false} RunFollows(st: State, h: seq<RH.Event>, run: seq<Action>)
    requires Good(st) && Runnable(st, run) && Follows(st.policy, h)
    ensures Follows(Final(st, run).policy, History(st, h, run))
    decreases |run|
  {
    if run == [] {
    } else {
      StepKeepsGood(st, run[0]);
      StepFollows(st, h, run[0]);
      RunFollows(Do(st, run[0]), Logged(st, h, run[0]), run[1..]);
    }
  }

  /** Of a trace just begun. */
  function TraceHistory(c: S.Config, p: R.Config, o: Options, tb: T.Table, now: int, run: seq<Action>)
    : seq<RH.Event>
    requires R.Normal(p)
  {
    History(Begin(c, p, o, tb, now), [], run)
  }

  /** What the replies of a trace amount to, by the account that is kept apart from the policy. */
  function TraceAccount(c: S.Config, p: R.Config, o: Options, tb: T.Table, now: int, run: seq<Action>): RH.Account
    requires R.Normal(p)
  {
    RH.AccountOf(p, TraceHistory(c, p, o, tb, now, run))
  }

  /** In every state of every interleaving the policy of the loop is where all the replies accepted, whether
      from past the destination or not, would have it. */
  lemma TraceFollows(c: S.Config, p: R.Config, o: Options, tb: T.Table, now: int, run: seq<Action>)
    requires Startable(c, p, tb) && Runnable(Begin(c, p, o, tb, now), run)
    ensures
      var st := Final(Begin(c, p, o, tb, now), run);
      Good(st) && st.policy.config == p && RH.Agrees(st.policy, TraceAccount(c, p, o, tb, now, run))
  {
    var st := Begin(c, p, o, tb, now);
    BeginIsGood(c, p, o, tb, now);
    RunKeepsGood(st, run);
    RunKeepsRange(st, run);
    FreshFollows(p);
    RunFollows(st, [], run);
  }

  // ----- filing

  /** How a completion is to be filed: a probe whose flight it ends, as discarded when it is from past the
      destination, and as what it is when it is not; a late one is noted as late besides. */
  predicate Filed(cs: seq<T.Commit>, d: S.Disposition, past: bool, a: Action, session: nat)
    requires a.Finish?
  {
    var ttl, epoch := a.token.ttl, a.token.epoch;
    match d
    case AcceptedReply =>
      cs == [if past then T.PostDestination(ttl, epoch) else T.Reply(ttl, epoch, session, a.reply, a.token.sequence)]
    case AcceptedTimeout => cs == [if past then T.PostDestination(ttl, epoch) else T.Timeout(ttl, epoch)]
    case AcceptedLocalError =>
      cs == [if past then T.PostDestination(ttl, epoch) else T.Failure(ttl, epoch, true, a.code)]
    case LateDiscardedAfterTimeout =>
      cs == [if past then T.PostDestination(ttl, epoch) else T.Timeout(ttl, epoch), T.LateCompletion(ttl, epoch)]
    case LateDiscarded => cs == [T.LateCompletion(ttl, epoch)]
    case _ => cs == []
  }

  lemma FinishFiles(st: State, a: Action, past: bool)
    requires S.Shape(st.sched) && a.Finish? && (past <==> Beyond(st.policy, a.token.ttl))
    ensures
      Filed(DoFinish(st, a).pending, S.Verdict(st.sched, a.token, a.kind, a.at), past, a, st.sched.session)
  {
  }

  lemma {:induction false} ExpireFiles(p: R.Policy, tokens: seq<S.Token>, i: nat)
    requires i < |tokens|
    ensures |ExpireCommits(p, tokens)| == |tokens|
    ensures
      var (ttl, epoch) := (tokens[i].ttl, tokens[i].epoch);
      ExpireCommits(p, tokens)[i] == if Beyond(p, ttl) then T.PostDestination(ttl, epoch) else T.Timeout(ttl, epoch)
    decreases |tokens|
  {
    if |tokens| == 1 {
      assert tokens[1..] == [];
    } else {
      ExpireFiles(p, tokens[1..], if i == 0 then 0 else i - 1);
    }
  }

  /** In every interleaving, a completion is discarded as past the destination exactly when its TTL lies past
      the mandatory TTLs and past one where the destination has answered in the current window. */
  lemma FiledByHistory(c: S.Config, p: R.Config, o: Options, tb: T.Table, now: int, run: seq<Action>, a: Action)
    requires Startable(c, p, tb) && Runnable(Begin(c, p, o, tb, now), run)
    requires a.Finish? && Enabled(Final(Begin(c, p, o, tb, now), run), a)
    ensures
      var st := Final(Begin(c, p, o, tb, now), run);
      S.Shape(st.sched)
      && Filed(DoFinish(st, a).pending, S.Verdict(st.sched, a.token, a.kind, a.at),
               Past(p, TraceAccount(c, p, o, tb, now, run).heard, a.token.ttl), a, st.sched.session)
  {
    var st := Final(Begin(c, p, o, tb, now), run);
    var past := Past(p, TraceAccount(c, p, o, tb, now, run).heard, a.token.ttl);
    TraceFollows(c, p, o, tb, now, run);
    BeyondIsPast(st.policy, TraceAccount(c, p, o, tb, now, run), a.token.ttl);
    FinishFiles(st, a, past);
  }

  /** And so is each probe that expires; any other is a timeout of its hop. */
  lemma ExpiredByHistory(c: S.Config, p: R.Config, o: Options, tb: T.Table, now: int, run: seq<Action>,
                         tokens: seq<S.Token>, i: nat)
    requires Startable(c, p, tb) && Runnable(Begin(c, p, o, tb, now), run)
    requires Enabled(Final(Begin(c, p, o, tb, now), run), ExpireDue(tokens)) && i < |tokens|
    ensures
      var st := Final(Begin(c, p, o, tb, now), run);
      var (ttl, epoch) := (tokens[i].ttl, tokens[i].epoch);
      && S.Shape(st.sched) && R.Normal(st.policy.config)
      && |Do(st, ExpireDue(tokens)).pending| == |tokens|
      && Do(st, ExpireDue(tokens)).pending[i]
         == if Past(p, TraceAccount(c, p, o, tb, now, run).heard, ttl) then T.PostDestination(ttl, epoch)
            else T.Timeout(ttl, epoch)
  {
    var st := Final(Begin(c, p, o, tb, now), run);
    TraceFollows(c, p, o, tb, now, run);
    BeyondIsPast(st.policy, TraceAccount(c, p, o, tb, now, run), tokens[i].ttl);
    ExpireFiles(st.policy, tokens, i);
  }

  // ----- a reply that is not past the destination reaches its hop

  lemma OtherLeavesPending(st: State, a: Action)
    requires S.Shape(st.sched) && R.Normal(st.policy.config) && ByOthers(a)
    ensures Do(st, a).pending == st.pending
  {
  }

  lemma {:induction false} OthersLeavePending(st: State, others: seq<Action>)
    requires Good(st) && Runnable(st, others) && forall i | 0 <= i < |others| :: ByOthers(others[i])
    ensures Final(st, others).pending == st.pending && Good(Final(st, others))
    decreases |others|
  {
    if others == [] {
    } else {
      StepKeepsGood(st, others[0]);
      OtherLeavesPending(st, others[0]);
      OthersLeavePending(Do(st, others[0]), others[1..]);
    }
  }

  /** One reply more at the hop of this TTL, and none at any other. */
  predicate CountsOnly(before: seq<H.Hop>, after: seq<H.Hop>, ttl: nat) {
    && |after| == |before|
    && forall i | 0 <= i < |before| :: after[i].stats.count == before[i].stats.count + One(i + 1 == ttl)
  }

  lemma AnswerCounts(h: H.Hop, c: T.Commit, sequence: nat)
    requires c.Reply?
    ensures T.Noted(h, c, sequence).stats.count == h.stats.count + 1
  {
  }

  lemma OneHopCounts(before: seq<H.Hop>, i: nat, hop: H.Hop)
    requires i < |before| && hop.stats.count == before[i].stats.count + 1
    ensures CountsOnly(before, before[i := hop], i + 1)
  {
  }

  lemma AppliedHops(tb: T.Table, c: T.Commit)
    requires c.Reply? && T.Effective(tb, c)
    ensures T.Apply(tb, c).hops == tb.hops[c.ttl - 1 := T.Noted(tb.hops[c.ttl - 1], c, tb.replySequence)]
  {
  }

  lemma ReplyCounts(tb: T.Table, c: T.Commit)
    requires c.Reply? && T.Effective(tb, c)
    ensures CountsOnly(tb.hops, T.Apply(tb, c).hops, c.ttl)
  {
    AnswerCounts(tb.hops[c.ttl - 1], c, tb.replySequence);
    AppliedHops(tb, c);
    OneHopCounts(tb.hops, c.ttl - 1, T.Noted(tb.hops[c.ttl - 1], c, tb.replySequence));
  }

  lemma PendingReplyCounts(st: State)
    requires Good(st) && st.pending != [] && st.pending[0].Reply? && st.pending[0].epoch == st.table.epoch
    ensures CountsOnly(st.table.hops, Do(st, CommitNext).table.hops, st.pending[0].ttl)
  {
    ReplyCounts(st.table, st.pending[0]);
  }

  /** In every interleaving, a reply accepted in time from a hop not past the destination counts there: when its
      commit is made, with whatever other threads have done to the table meanwhile, unless they have moved it to
      another epoch. */
  lemma LowRepliesCount(c: S.Config, p: R.Config, o: Options, tb: T.Table, now: int, run: seq<Action>, a: Action,
                        others: seq<Action>)
    requires Startable(c, p, tb) && Runnable(Begin(c, p, o, tb, now), run + ([a] + others))
    requires Accepts(Final(Begin(c, p, o, tb, now), run), a)
    requires !Past(p, TraceAccount(c, p, o, tb, now, run).heard, a.token.ttl)
    requires forall i | 0 <= i < |others| :: ByOthers(others[i])
    ensures
      var st := Final(Begin(c, p, o, tb, now), run + ([a] + others));
      && Good(st) && Enabled(st, CommitNext)
      && (st.table.epoch == a.token.epoch ==>
            CountsOnly(st.table.hops, Do(st, CommitNext).table.hops, a.token.ttl))
  {
    var st0 := Begin(c, p, o, tb, now);
    BeginIsGood(c, p, o, tb, now);
    RunJoin(st0, run, [a] + others);
    var st1 := Final(st0, run);
    assert ([a] + others)[1..] == others;
    StepKeepsGood(st1, a);
    FiledByHistory(c, p, o, tb, now, run, a);
    OthersLeavePending(Do(st1, a), others);
    var st := Final(st0, run + ([a] + others));
    if st.table.epoch == a.token.epoch { PendingReplyCounts(st); }
  }

  // ----- the range probed

  lemma RefreshedRange(st: State, later: int)
    requires S.Shape(st.sched) && R.Normal(st.policy.config)
    ensures
      var n := LeastSettled(st.sched, st.sched.activeLastTtl);
      var next := if n > st.cycles then R.CompleteCycle(st.policy, n).1 else None;
      DoRefresh(st, later).sched.activeLastTtl
      == if next.Some? then S.Clamp(next.value, st.sched.config.firstTtl, st.sched.config.lastTtl)
         else st.sched.activeLastTtl
  {
  }

  /** How far a cycle calls for probing: where it opens a window, to the adopted ceiling and the frontier beyond it,
      short of the last hop; where it only closes one, to the ceiling adopted with what that found; where it does
      neither, as far as before. */
  function CalledFor(p: R.Config, a: RH.Account, n: nat, before: nat): nat
    requires R.Normal(p)
  {
    var a' := RH.Note(p, a, RH.Cycle(n));
    var adopted := RH.Adopted(a'.found, p.shrinkConfirmations, p.maxHops);
    if a'.open then Min(p.maxHops, adopted + p.frontierTtls) else if a.open then adopted else before
  }

  lemma AnnouncedIsCalledFor(p: R.Policy, a: RH.Account, n: nat, before: nat)
    requires RH.InBounds(p) && RH.Agrees(p, a)
    ensures
      var next := R.CompleteCycle(p, n).1;
      && CalledFor(p.config, a, n, before) == (if next.Some? then next.value else before)
      && (next.Some? ==> p.config.startTtl <= next.value <= p.config.maxHops)
  {
    RH.CycleAnnounces(p, a, n);
    RH.StepInBounds(p, RH.Cycle(n));
  }

  lemma RangeAfterCycle(st: State, a: RH.Account, later: int)
    requires Good(st) && RH.Agrees(st.policy, a)
    ensures
      var n, before := LeastSettled(st.sched, st.sched.activeLastTtl), st.sched.activeLastTtl;
      DoRefresh(st, later).sched.activeLastTtl
      == if n > st.cycles then CalledFor(st.policy.config, a, n, before) else before
  {
    var n := LeastSettled(st.sched, st.sched.activeLastTtl);
    RefreshedRange(st, later);
    if n > st.cycles { AnnouncedIsCalledFor(st.policy, a, n, st.sched.activeLastTtl); }
  }

  /** In every interleaving, the loop probes after a cycle as far as the replies it has accepted call for. */
  lemma CeilingIsProbed(c: S.Config, p: R.Config, o: Options, tb: T.Table, now: int, run: seq<Action>, later: int)
    requires Startable(c, p, tb) && Runnable(Begin(c, p, o, tb, now), run)
    requires Enabled(Final(Begin(c, p, o, tb, now), run), Refresh(later))
    ensures
      var st := Final(Begin(c, p, o, tb, now), run);
      S.Shape(st.sched) && R.Normal(st.policy.config)
      && var n, before := LeastSettled(st.sched, st.sched.activeLastTtl), st.sched.activeLastTtl;
         DoRefresh(st, later).sched.activeLastTtl
         == if n > st.cycles then CalledFor(p, TraceAccount(c, p, o, tb, now, run), n, before) else before
  {
    TraceFollows(c, p, o, tb, now, run);
    RangeAfterCycle(Final(Begin(c, p, o, tb, now), run), TraceAccount(c, p, o, tb, now, run), later);
  }

  lemma FinishedRange(st: State, a: Action)
    requires Good(st) && Accepts(st, a) && a.reply.isDestination && !Beyond(st.policy, a.token.ttl)
    ensures DoFinish(st, a).sched.activeLastTtl == Max(a.token.ttl, MandatoryTtl(st))
  {
  }

  lemma SettledRange(st: State, choice: Choice)
    requires Good(st) && SettlesDestination(st, Settle(choice))
    ensures DoSettle(st, choice).sched.activeLastTtl == Max(st.slot.value.token.ttl, MandatoryTtl(st))
  {
  }

  /** In every interleaving, an answer of the destination, out of the cache or from a hop not past it, ends the
      probed range there, or at the last mandatory TTL. */
  lemma DestinationBounds(c: S.Config, p: R.Config, o: Options, tb: T.Table, now: int, run: seq<Action>, a: Action)
    requires Startable(c, p, tb) && Runnable(Begin(c, p, o, tb, now), run)
    requires Enabled(Final(Begin(c, p, o, tb, now), run), a)
    requires
      || SettlesDestination(Final(Begin(c, p, o, tb, now), run), a)
      || (Accepts(Final(Begin(c, p, o, tb, now), run), a) && a.reply.isDestination
          && !Past(p, TraceAccount(c, p, o, tb, now, run).heard, a.token.ttl))
    ensures
      var st := Final(Begin(c, p, o, tb, now), run);
      var ttl := if a.Finish? then a.token.ttl else st.slot.value.token.ttl;
      && S.Shape(st.sched) && R.Normal(st.policy.config)
      && Do(st, a).sched.activeLastTtl == Max(ttl, Max(p.startTtl, p.minimumTtl))
  {
    var st := Final(Begin(c, p, o, tb, now), run);
    TraceFollows(c, p, o, tb, now, run);
    if a.Finish? {
      BeyondIsPast(st.policy, TraceAccount(c, p, o, tb, now, run), a.token.ttl);
      FinishedRange(st, a);
    } else {
      SettledRange(st, a.choice);
    }
  }
}
