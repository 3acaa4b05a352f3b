/** Every interleaving of the trace thread with resets by the user and with lookups: what holds in each state
    reached. */
module TraceRuns {
  import opened Basics
  import S = SchedulerModel
  import H = HopModel
  import T = TableModel
  import R = RouteModel
  import RH = RouteHistories
  import C = SchedulerCensus
  import Runs = SchedulerRuns
  import opened TraceLoop
  import opened TraceTallies
  import opened TraceMirror

  // ----- what the thread keeps true of its own state

  /** Keys of the probes the transport still owes. */
  function Owed(s: S.Sched): set<nat> { S.Members(s.records, S.Transport, S.Anywhere) }

  function HeldKeys(s: S.Sched): set<nat> { S.Members(s.records, S.Held, S.Anywhere) }

  /** The request map holds exactly the probes the transport owes. */
  predicate RequestsMatch(s: S.Sched, requests: map<nat, S.Token>) {
    requests.Keys == Owed(s) && forall k | k in requests :: k in s.records && s.records[k].token == requests[k]
  }

  /** The only slot ever held is the one the loop is about to settle. */
  predicate SlotMatches(s: S.Sched, slot: Option<S.Slot>) {
    match slot
    case None => HeldKeys(s) == {}
    case Some(sl) => HeldKeys(s) == {sl.token.sequence} && S.HoldsSlot(s, sl.token)
  }

  /** Scheduler and policy probe the same range, and the mandatory TTLs stay active. */
  predicate Linked(s: S.Sched, p: R.Policy) {
    && RH.InBounds(p)
    && s.config.firstTtl == p.config.startTtl && s.config.lastTtl == p.config.maxHops
    && R.Mandatory(p.config) <= s.activeLastTtl
  }

  predicate Sound(st: State) {
    && S.Valid(st.sched) && Linked(st.sched, st.policy)
    && RequestsMatch(st.sched, st.requests) && SlotMatches(st.sched, st.slot)
    && (st.slot.Some? ==> st.phase == Settling)
    && (st.stopping ==> !st.sched.active && st.phase !in {Reserving, Settling, Refreshing})
  }

  predicate Good(st: State) { Sound(st) && Mirrored(st.sched, st.pending, st.table) }

  // ----- calls that leave the owed probes and the slot alone

  lemma SweepOwes(s: S.Sched, w: S.Sweep)
    requires S.Shape(s)
    ensures Owed(S.SweepAll(s, w)) == Owed(s)
    ensures forall k | k in Owed(s) :: S.SweepAll(s, w).records[k].token == s.records[k].token
    ensures HeldKeys(S.SweepAll(s, w)) == if w.Draining? || w.Retiring? then {} else HeldKeys(s)
  {
  }

  lemma RestartOwes(s: S.Sched, epoch: nat, now: int, requests: map<nat, S.Token>)
    requires S.Shape(s) && RequestsMatch(s, requests)
    ensures RequestsMatch(S.Restart(s, epoch, now), requests) && HeldKeys(S.Restart(s, epoch, now)) == {}
  {
    SweepOwes(s, S.Retiring);
    assert S.Restart(s, epoch, now).records == S.SweepAll(s, S.Retiring).records;
  }

  lemma DrainOwes(s: S.Sched, requests: map<nat, S.Token>)
    requires S.Shape(s) && RequestsMatch(s, requests)
    ensures RequestsMatch(S.BeginDrain(s), requests) && HeldKeys(S.BeginDrain(s)) == {}
  {
    SweepOwes(s.(active := false), S.Draining);
  }

  lemma SetLastKeepsLink(s: S.Sched, p: R.Policy, last: nat, now: int)
    requires S.Valid(s) && Linked(s, p) && R.Mandatory(p.config) <= last
    ensures S.Valid(S.SetLastTtl(s, last, now)) && Linked(S.SetLastTtl(s, last, now), p)
  {
    C.SetLastTtlKeepsValid(s, last, now);
  }

  // ----- each action keeps what is good

  lemma BeginPassKeepsGood(st: State, now: int)
    requires Good(st) && Enabled(st, BeginPass(now))
    ensures Good(DoBeginPass(st, now))
  {
    if !st.stopping && st.table.epoch != st.sched.epoch {
      var s1 := S.Restart(st.sched, st.table.epoch, now);
      var p1 := R.Reset(st.policy.config);
      C.RestartKeepsValid(st.sched, st.table.epoch, now);
      RestartOwes(st.sched, st.table.epoch, now, st.requests);
      RestartKeepsMirror(st.sched, now, st.table);
      SetLastKeepsLink(s1, p1, st.policy.config.maxHops, now);
      SilentCallKeepsMirror(s1, S.SetLastTtl(s1, st.policy.config.maxHops, now), [], st.table);
    }
  }

  /** Noting a reply with the policy and bounding the probed range. */
  lemma LearnKeepsGood(st: State, ttl: nat, isDestination: bool)
    requires Good(st)
    ensures Good(Learn(st, ttl, isDestination))
  {
    RH.StepInBounds(st.policy, RH.Reply(ttl, isDestination));
    if isDestination {
      var last := Max(MandatoryTtl(st), ttl);
      SetLastKeepsLink(st.sched, st.policy, last, st.now);
      SilentCallKeepsMirror(st.sched, S.SetLastTtl(st.sched, last, st.now), st.pending, st.table);
    }
  }

  lemma RequestIsKnown(st: State, a: Action)
    requires Sound(st) && Enabled(st, a) && a.Finish?
    ensures S.Verdict(st.sched, a.token, a.kind, a.at) != S.UnknownToken
  {
    assert a.token.sequence in Owed(st.sched);
  }

  lemma FinishKeepsGood(st: State, a: Action)
    requires Good(st) && Enabled(st, a) && a.Finish?
    ensures Good(DoFinish(st, a))
  {
    var s, s', k := st.sched, S.Complete(st.sched, a.token, a.kind, a.at), a.token.sequence;
    RequestIsKnown(st, a);
    C.CompleteKeepsValid(s, a.token, a.kind, a.at);
    FinishKeepsMirror(st, a);
    assert Owed(s') == Owed(s) - {k} && HeldKeys(s') == HeldKeys(s);
    var st1 := st.(sched := s', requests := st.requests - {k}, pending := FinishCommits(st, a));
    assert Good(st1);
    LearnKeepsGood(st1.(replied := true), a.token.ttl, a.reply.isDestination);
  }

  lemma DrainKeepsGood(st: State)
    requires S.Valid(st.sched) && Linked(st.sched, st.policy) && RequestsMatch(st.sched, st.requests)
    requires Mirrored(st.sched, st.pending, st.table)
    requires st.slot.None? && st.phase !in {Reserving, Settling, Refreshing}
    ensures Good(Drain(st))
  {
    C.SweepKeepsValid(st.sched.(active := false), st.sched.records.Keys, S.Draining);
    DrainOwes(st.sched, st.requests);
    DrainKeepsMirror(st.sched, st.pending, st.table);
  }

  lemma ExpireKeepsGood(st: State, tokens: seq<S.Token>)
    requires Good(st) && Enabled(st, ExpireDue(tokens))
    ensures Good(Do(st, ExpireDue(tokens)))
  {
    C.SweepKeepsValid(st.sched, st.sched.records.Keys, S.Expiring(st.now));
    SweepOwes(st.sched, S.Expiring(st.now));
    ExpireKeepsMirror(st.sched, st.now, st.policy, tokens, st.table);
  }

  lemma CancelKeepsGood(st: State, tokens: seq<S.Token>)
    requires Good(st) && Enabled(st, CancelDue(tokens))
    ensures Good(DoCancelDue(st, tokens))
  {
    if CancelsNow(st) {
      var d := S.BeginDrain(st.sched);
      C.SweepKeepsValid(st.sched.(active := false), st.sched.records.Keys, S.Draining);
      DrainOwes(st.sched, st.requests);
      C.SweepKeepsValid(d, d.records.Keys, S.Cancelling);
      SweepOwes(d, S.Cancelling);
      CancelKeepsMirror(st.sched, tokens, st.table);
    }
  }

  lemma ReserveKeepsLink(s: S.Sched, p: R.Policy, now: int)
    requires S.Valid(s) && Linked(s, p)
    ensures S.Valid(S.ReserveDue(s, now).0) && Linked(S.ReserveDue(s, now).0, p)
    ensures S.ReserveDue(s, now).0.active == s.active
  {
    C.ReserveLoopKeepsValid(s, now);
    Runs.ReserveKeepsConfig(s, now);
  }

  lemma ReserveKeepsMatches(s: S.Sched, now: int, requests: map<nat, S.Token>)
    requires S.Valid(s) && RequestsMatch(s, requests) && HeldKeys(s) == {}
    ensures
      var (o, b) := S.ReserveDue(s, now);
      RequestsMatch(o, requests) && SlotMatches(o, if b.slots == [] then None else Some(b.slots[0]))
  {
    var (o, b) := S.ReserveDue(s, now);
    Runs.ServedRecords(s, now);
    ReservedMatches(s, o, b, requests);
  }

  lemma ReserveKeepsGood(st: State)
    requires Good(st) && Enabled(st, Reserve)
    ensures Good(DoReserve(st))
  {
    ReserveKeepsLink(st.sched, st.policy, st.now);
    ReserveKeepsMirror(st.sched, st.now, st.table);
    ReserveKeepsMatches(st.sched, st.now, st.requests);
  }

  lemma ReservedMatches(s: S.Sched, o: S.Sched, b: S.Batch, requests: map<nat, S.Token>)
    requires RequestsMatch(s, requests) && HeldKeys(s) == {}
    requires b.slots == [] ==> o.records == s.records
    requires b.slots != [] ==>
      var token := b.slots[0].token;
      token.sequence !in s.records && o.records == s.records[token.sequence := S.Record(token, S.Reserved, 0)]
    ensures RequestsMatch(o, requests) && SlotMatches(o, if b.slots == [] then None else Some(b.slots[0]))
  {
    if b.slots != [] {
      assert Owed(o) == Owed(s);
      assert HeldKeys(o) == HeldKeys(s) + {b.slots[0].token.sequence};
    }
  }

  lemma ReleasedMatches(s: S.Sched, s': S.Sched, token: S.Token, requests: map<nat, S.Token>)
    requires RequestsMatch(s, requests) && HeldKeys(s) == {token.sequence} && S.HoldsSlot(s, token)
    requires s'.records == s.records - {token.sequence}
    ensures RequestsMatch(s', requests) && HeldKeys(s') == {}
  {
    assert token.sequence !in Owed(s);
    assert Owed(s') == Owed(s);
  }

  lemma IssuedMatches(s: S.Sched, s': S.Sched, token: S.Token, at: int, requests: map<nat, S.Token>,
                      requests': map<nat, S.Token>)
    requires RequestsMatch(s, requests) && HeldKeys(s) == {token.sequence} && S.HoldsSlot(s, token) && S.Shape(s)
    requires s' == S.MarkIssued(s, token, at) && requests' == requests[token.sequence := token]
    ensures RequestsMatch(s', requests') && HeldKeys(s') == {}
  {
    assert token.sequence !in Owed(s);
    assert Owed(s') == Owed(s) + {token.sequence};
  }

  lemma ReleaseKeepsGood(st: State, token: S.Token, c: T.Commit)
    requires Good(st) && Quiet(st) && st.phase == Settling && st.slot.Some? && token == st.slot.value.token
    requires c.epoch == token.epoch && (c.SkipByCache? || (c.Failure? && !c.wasIssued)) && c.ttl == token.ttl
    ensures
      Good(st.(phase := Refreshing, slot := None, sched := S.Release(st.sched, token, c.Failure?), pending := [c]))
  {
    var s' := S.Release(st.sched, token, c.Failure?);
    C.ReleaseKeepsValid(st.sched, token, c.Failure?);
    SettleKeepsMirror(st.sched, s', token, c, st.table);
    ReleasedMatches(st.sched, s', token, st.requests);
  }

  /** What sending the slot's probe leaves. */
  function Sending(st: State): State
    requires S.Shape(st.sched) && st.slot.Some?
  {
    var token := st.slot.value.token;
    st.(phase := Refreshing, slot := None, sched := S.MarkIssued(st.sched, token, st.now),
        requests := st.requests[token.sequence := token],
        pending := [T.Issue(token.ttl, token.epoch, Max(0, st.now - st.slot.value.scheduledAt))])
  }

  lemma IssueKeepsLink(s: S.Sched, p: R.Policy, token: S.Token, at: int)
    requires S.Valid(s) && Linked(s, p)
    ensures S.Valid(S.MarkIssued(s, token, at)) && Linked(S.MarkIssued(s, token, at), p)
  {
    C.MarkIssuedKeepsValid(s, token, at);
  }

  lemma SendingIsGood(st: State)
    requires Good(st) && Quiet(st) && st.phase == Settling && st.slot.Some?
    ensures Good(Sending(st))
  {
    var token, st' := st.slot.value.token, Sending(st);
    IssueKeepsLink(st.sched, st.policy, token, st.now);
    SettleKeepsMirror(st.sched, st'.sched, token, st'.pending[0], st.table);
    IssuedMatches(st.sched, st'.sched, token, st.now, st.requests, st'.requests);
  }

  lemma CacheKeepsGood(st: State, tick: nat)
    requires Good(st) && Quiet(st) && st.phase == Settling && st.slot.Some?
    ensures Good(DoSettle(st, FromCache(tick)))
  {
    var token := st.slot.value.token;
    var c := T.SkipByCache(token.ttl, token.epoch);
    ReleaseKeepsGood(st, token, c);
    LearnKeepsGood(st.(phase := Refreshing, slot := None, sched := S.Release(st.sched, token, false), pending := [c]),
                   token.ttl, true);
  }

  lemma SettleKeepsGood(st: State, choice: Choice)
    requires Good(st) && Enabled(st, Settle(choice))
    ensures Good(DoSettle(st, choice))
  {
    if st.slot.Some? {
      match choice
      case FromCache(tick) => CacheKeepsGood(st, tick);
      case Fail(_, code) =>
        var token := st.slot.value.token;
        ReleaseKeepsGood(st, token, T.Failure(token.ttl, token.epoch, false, code));
      case Send(_) => SendingIsGood(st);
    }
  }

  lemma AdoptCeilingKeepsGood(st: State, n: nat, later: int)
    requires Good(st)
    ensures
      var (p, next) := R.CompleteCycle(st.policy, n);
      Good(st.(cycles := n, policy := p,
               sched := if next.Some? then S.SetLastTtl(st.sched, next.value, later) else st.sched))
  {
    var (p, next) := R.CompleteCycle(st.policy, n);
    RH.StepInBounds(st.policy, RH.Cycle(n));
    if next.Some? {
      SetLastKeepsLink(st.sched, p, next.value, later);
      SilentCallKeepsMirror(st.sched, S.SetLastTtl(st.sched, next.value, later), st.pending, st.table);
    }
  }

  lemma CountCyclesKeepsGood(st: State, later: int)
    requires Good(st) && Quiet(st)
    ensures Good(CountCycles(st, later)) && CountCycles(st, later).slot == st.slot
    ensures CountCycles(st, later).stopping == st.stopping
  {
    var n := LeastSettled(st.sched, st.sched.activeLastTtl);
    if n > st.cycles {
      AdoptCeilingKeepsGood(st, n, later);
      PublishKeepsMirror(CountCycles(st, later).sched, n, st.table);
    }
  }

  lemma PublishKeepsMirror(s: S.Sched, n: nat, tb: T.Table)
    requires Mirrored(s, [], tb)
    ensures Mirrored(s, [T.Cycles(n, s.epoch)], tb)
  {
    forall t | s.config.firstTtl <= t <= s.config.lastTtl
      ensures InStep(s, [], tb.hops, t) ==> InStep(s, [T.Cycles(n, s.epoch)], tb.hops, t)
    {
      BookOne(TallyOf(tb.hops[t - 1]), [T.Cycles(n, s.epoch)], t);
    }
  }

  lemma RefreshKeepsGood(st: State, later: int)
    requires Good(st) && Enabled(st, Refresh(later))
    ensures Good(DoRefresh(st, later))
  {
    CountCyclesKeepsGood(st, later);
    var st1 := CountCycles(st, later).(phase := Leaving);
    if S.QuotasReached(st1.sched) { DrainKeepsGood(st1); }
  }

  lemma StepKeepsGood(st: State, a: Action)
    requires Good(st) && Enabled(st, a)
    ensures Good(Do(st, a))
  {
    match a {
      case BeginPass(now) => BeginPassKeepsGood(st, now);
      case Finish(_, _, _, _, _) => FinishKeepsGood(st, a);
      case EndCompletions(stop) => if stop && !st.stopping { DrainKeepsGood(st); }
      case ExpireDue(tokens) => ExpireKeepsGood(st, tokens);
      case CancelDue(tokens) => CancelKeepsGood(st, tokens);
      case Reserve => ReserveKeepsGood(st);
      case Settle(choice) => SettleKeepsGood(st, choice);
      case Refresh(later) => RefreshKeepsGood(st, later);
      case Leave =>
      case CommitNext => CommitKeepsMirror(st.sched, st.pending, st.table);
      case ResetByUser => ResetKeepsMirror(st.sched, st.pending, st.table);
      case Learned(session, epoch, addr, news, finished) =>
        LearnKeepsMirror(st.sched, st.pending, st.table, session, epoch, addr, news, finished);
    }
  }

  // ----- runs

  ghost predicate Runnable(st: State, run: seq<Action>)
    requires S.Shape(st.sched) && R.Normal(st.policy.config)
    decreases |run|
  {
    run == [] ||
    (Enabled(st, run[0])
     && var st' := Do(st, run[0]);
        S.Shape(st'.sched) && R.Normal(st'.policy.config) && Runnable(st', run[1..]))
  }

  function Final(st: State, run: seq<Action>): State
    requires S.Shape(st.sched) && R.Normal(st.policy.config)
    decreases |run|
  {
    if run == [] then st else
    var st' := Do(st, run[0]);
    if S.Shape(st'.sched) && R.Normal(st'.policy.config) then Final(st', run[1..]) else st'
  }

  lemma {:induction false} RunKeepsGood(st: State, run: seq<Action>)
    requires Good(st) && Runnable(st, run)
    ensures Good(Final(st, run))
    decreases |run|
  {
    if run == [] {
    } else {
      StepKeepsGood(st, run[0]);
      RunKeepsGood(Do(st, run[0]), run[1..]);
    }
  }

  lemma {:induction false} RunJoin(st: State, run: seq<Action>, more: seq<Action>)
    requires Good(st) && Runnable(st, run + more)
    ensures Runnable(st, run) && Good(Final(st, run))
    ensures Runnable(Final(st, run), more) && Final(st, run + more) == Final(Final(st, run), more)
    decreases |run|
  {
    if run == [] {
      assert run + more == more;
    } else {
      assert (run + more)[1..] == run[1..] + more;
      StepKeepsGood(st, run[0]);
      RunJoin(Do(st, run[0]), run[1..], more);
    }
  }

  /** What `DoTrace` is given: options already clamped to the table, and a table just begun. */
  predicate Startable(c: S.Config, p: R.Config, tb: T.Table) {
    && R.Normal(p) && S.Normal(c) && c.firstTtl == p.startTtl && c.lastTtl == p.maxHops
    && c.lastTtl <= |tb.hops| && tb.hops == T.BlankHops(|tb.hops|)
  }

  lemma BeginIsGood(c: S.Config, p: R.Config, o: Options, tb: T.Table, now: int)
    requires Startable(c, p, tb)
    ensures Good(Begin(c, p, o, tb, now))
  {
    var s := Runs.Started(c, tb.session, tb.epoch, now);
    Runs.StartedIsValid(c, tb.session, tb.epoch, now);
    assert s.records == map[];
    SetLastKeepsLink(s, R.Reset(p), p.maxHops, now);
    StartedIsMirrored(c, p, tb, now);
    SilentCallKeepsMirror(s, S.SetLastTtl(s, p.maxHops, now), [], tb);
    assert HeldKeys(s) == {} && Owed(s) == {};
  }

  lemma StartedIsMirrored(c: S.Config, p: R.Config, tb: T.Table, now: int)
    requires Startable(c, p, tb)
    ensures
      var s := Runs.Started(c, tb.session, tb.epoch, now);
      S.Valid(s) && Mirrored(s, [], tb)
  {
    Runs.StartedIsValid(c, tb.session, tb.epoch, now);
    assert forall t | c.firstTtl <= t <= c.lastTtl :: tb.hops[t - 1] == H.Blank(t);
  }

  // ----- the range probed

  lemma FinishKeepsRange(st: State, a: Action)
    requires S.Shape(st.sched) && a.Finish?
    ensures DoFinish(st, a).policy.config == st.policy.config
  {
  }

  lemma SettleKeepsRange(st: State, choice: Choice)
    requires S.Shape(st.sched)
    ensures DoSettle(st, choice).policy.config == st.policy.config
  {
  }

  lemma CountingKeepsRange(st: State, later: int)
    requires S.Shape(st.sched) && R.Normal(st.policy.config)
    ensures CountCycles(st, later).policy.config == st.policy.config
  {
  }

  lemma RefreshKeepsRange(st: State, later: int)
    requires S.Shape(st.sched) && R.Normal(st.policy.config)
    ensures DoRefresh(st, later).policy.config == st.policy.config
  {
    CountingKeepsRange(st, later);
    DrainingKeepsRange(CountCycles(st, later).(phase := Leaving));
  }

  lemma DrainingKeepsRange(st: State)
    requires S.Shape(st.sched)
    ensures Drain(st).policy == st.policy
  {
  }

  /** The options a policy was given never change, nor, in step with them, the range the scheduler traces. */
  lemma StepKeepsRange(st: State, a: Action)
    requires Good(st) && Enabled(st, a)
    ensures Do(st, a).policy.config == st.policy.config
  {
    match a
    case Finish(_, _, _, _, _) => FinishKeepsRange(st, a);
    case Settle(choice) => SettleKeepsRange(st, choice);
    case Refresh(later) => RefreshKeepsRange(st, later);
    case _ =>
  }

  lemma {:induction false} RunKeepsRange(st: State, run: seq<Action>)
    requires Good(st) && Runnable(st, run)
    ensures Final(st, run).policy.config == st.policy.config
    decreases |run|
  {
    if run == [] {
    } else {
      StepKeepsGood(st, run[0]);
      StepKeepsRange(st, run[0]);
      RunKeepsRange(Do(st, run[0]), run[1..]);
    }
  }

  /** The mandatory TTLs are active in every state of every interleaving. */
  lemma MandatoryStaysActive(c: S.Config, p: R.Config, o: Options, tb: T.Table, now: int, run: seq<Action>, t: nat)
    requires Startable(c, p, tb) && Runnable(Begin(c, p, o, tb, now), run)
    requires p.startTtl <= t <= R.Mandatory(p)
    ensures S.ActiveTtl(Final(Begin(c, p, o, tb, now), run).sched, t)
  {
    BeginIsGood(c, p, o, tb, now);
    RunKeepsGood(Begin(c, p, o, tb, now), run);
    RunKeepsRange(Begin(c, p, o, tb, now), run);
  }

  // ----- the main results

  /** Mirror or blank, in every state of every interleaving: if the table is in the scheduler's epoch, each
      hop agrees with the scheduler once the pending commits are booked; if not, every hop is blank. */
  lemma MirrorOrBlank(c: S.Config, p: R.Config, o: Options, tb: T.Table, now: int, run: seq<Action>)
    requires Startable(c, p, tb) && Runnable(Begin(c, p, o, tb, now), run)
    ensures
      var st := Final(Begin(c, p, o, tb, now), run);
      && Good(st)
      && (st.table.epoch == st.sched.epoch ==>
            forall t | st.sched.config.firstTtl <= t <= st.sched.config.lastTtl ::
              Agrees(BookAll(TallyOf(st.table.hops[t - 1]), st.pending, t), st.sched.ttl[t].counters))
      && (st.table.epoch != st.sched.epoch ==> st.table.hops == T.BlankHops(|st.table.hops|))
  {
    BeginIsGood(c, p, o, tb, now);
    RunKeepsGood(Begin(c, p, o, tb, now), run);
    GoodMeansMirrored(Final(Begin(c, p, o, tb, now), run));
  }

  lemma GoodMeansMirrored(st: State)
    requires Good(st)
    ensures st.table.epoch == st.sched.epoch ==>
      forall t | st.sched.config.firstTtl <= t <= st.sched.config.lastTtl ::
        Agrees(BookAll(TallyOf(st.table.hops[t - 1]), st.pending, t), st.sched.ttl[t].counters)
    ensures st.table.epoch != st.sched.epoch ==> st.table.hops == T.BlankHops(|st.table.hops|)
  {
    if st.table.epoch == st.sched.epoch {
      forall t | st.sched.config.firstTtl <= t <= st.sched.config.lastTtl
        ensures Agrees(BookAll(TallyOf(st.table.hops[t - 1]), st.pending, t), st.sched.ttl[t].counters)
      {
        assert InStep(st.sched, st.pending, st.table.hops, t);
      }
    }
  }

  /** With nothing pending, in the same epoch, the numbers simply agree. */
  lemma SettledHopsAgree(st: State, t: nat)
    requires Good(st) && Quiet(st) && st.table.epoch == st.sched.epoch && Traced(st.sched, t)
    ensures
      var h, k := st.table.hops[t - 1].counters, st.sched.ttl[t].counters;
      && h.xmit == k.sent && h.inFlight == k.inFlight && h.cancelled == k.cancelled
      && h.schedulerSkipped == k.schedulerSkipped && h.cacheSkipped == k.cacheSkipped
      && h.lateCompletions == k.lateCompletions
  {
    assert InStep(st.sched, [], st.table.hops, t);
  }

  /** The guards of the hop's decrements never act, in any state a commit is made in. */
  lemma GuardsNeverAct(st: State)
    requires Good(st) && Enabled(st, CommitNext) && st.table.epoch == st.sched.epoch
    requires EndsFlight(st.pending[0])
    ensures st.table.hops[st.pending[0].ttl - 1].counters.inFlight > 0
  {
    FlightToEnd(st.sched, st.pending, st.table);
  }

  /** In every state of every interleaving the request map holds exactly the probes the transport owes, so that
      whatever completes next is known to the scheduler. */
  lemma RequestsAreKnown(c: S.Config, p: R.Config, o: Options, tb: T.Table, now: int, run: seq<Action>, a: Action)
    requires Startable(c, p, tb) && Runnable(Begin(c, p, o, tb, now), run)
    ensures
      var st := Final(Begin(c, p, o, tb, now), run);
      && RequestsMatch(st.sched, st.requests)
      && (Enabled(st, a) && a.Finish? ==> S.Verdict(st.sched, a.token, a.kind, a.at) != S.UnknownToken)
  {
    var st := Final(Begin(c, p, o, tb, now), run);
    BeginIsGood(c, p, o, tb, now);
    RunKeepsGood(Begin(c, p, o, tb, now), run);
    if Enabled(st, a) && a.Finish? { RequestIsKnown(st, a); }
  }

  /** There are as many requests as the transport owes, so the loop's two exit conditions are one. */
  lemma RequestsAreOwed(st: State)
    requires Good(st)
    ensures |st.requests| == st.sched.transportOutstanding
    ensures st.requests == map[] <==> st.sched.transportOutstanding == 0
  {
    assert |st.requests| == |st.requests.Keys|;
  }

  /** The loop is left only with every request completed, no record left, and every flight ended. */
  lemma ExitIsClean(st: State)
    requires Good(st) && Enabled(st, Leave) && Do(st, Leave).phase == Exited
    ensures st.requests == map[] && st.sched.records == map[] && st.sched.logicalInflight == 0
    ensures st.table.epoch == st.sched.epoch ==>
      forall t | Traced(st.sched, t) :: st.table.hops[t - 1].counters.inFlight == 0
  {
    assert forall k | k in st.sched.records :: k in Owed(st.sched) || k in HeldKeys(st.sched);
    assert st.sched.records == map[];
    assert S.Members(st.sched.records, S.InFlight, S.Anywhere) == {};
    if st.table.epoch == st.sched.epoch {
      forall t | Traced(st.sched, t) ensures st.table.hops[t - 1].counters.inFlight == 0 {
        SettledHopsAgree(st, t);
        assert S.Members(st.sched.records, S.InFlight, S.At(t)) == {};
      }
    }
  }

  function Sent(s: S.Sched, t: nat): int
    requires t < |s.ttl|
  {
    s.ttl[t].counters.sent
  }

  lemma SweepKeepsSent(s: S.Sched, w: S.Sweep, t: nat)
    requires S.Shape(s) && Traced(s, t)
    ensures t < |S.SweepAll(s, w).ttl| && Sent(S.SweepAll(s, w), t) == Sent(s, t)
  {
  }

  lemma FinishKeepsSent(st: State, a: Action, t: nat)
    requires S.Shape(st.sched) && Traced(st.sched, t) && a.Finish?
    ensures t < |DoFinish(st, a).sched.ttl| && Sent(DoFinish(st, a).sched, t) == Sent(st.sched, t)
    ensures DoFinish(st, a).stopping == st.stopping && DoFinish(st, a).slot == st.slot
  {
    CompleteKeepsSent(st.sched, a, t);
  }

  lemma CompleteKeepsSent(s: S.Sched, a: Action, t: nat)
    requires S.Shape(s) && Traced(s, t) && a.Finish?
    ensures
      var s' := S.Complete(s, a.token, a.kind, a.at);
      t < |s'.ttl| && Sent(s', t) == Sent(s, t)
  {
  }

  lemma CancelKeepsSent(st: State, tokens: seq<S.Token>, t: nat)
    requires S.Shape(st.sched) && Traced(st.sched, t)
    ensures
      var st' := DoCancelDue(st, tokens);
      && t < |st'.sched.ttl| && Sent(st'.sched, t) == Sent(st.sched, t)
      && st'.stopping == st.stopping && st'.slot == st.slot
  {
    SweepKeepsSent(st.sched.(active := false), S.Draining, t);
    SweepKeepsSent(S.BeginDrain(st.sched), S.Cancelling, t);
  }

  // ----- draining

  lemma StoppingStep(st: State, a: Action, t: nat)
    requires Good(st) && Enabled(st, a) && st.stopping && Traced(st.sched, t)
    ensures Do(st, a).stopping && Do(st, a).slot == None
    ensures t < |Do(st, a).sched.ttl| && Sent(Do(st, a).sched, t) == Sent(st.sched, t)
  {
    match a {
      case Finish(_, _, _, _, _) => FinishKeepsSent(st, a, t);
      case ExpireDue(tokens) => SweepKeepsSent(st.sched, S.Expiring(st.now), t);
      case CancelDue(tokens) => CancelKeepsSent(st, tokens, t);
      case _ =>
    }
  }

  /** Once the loop is stopping it stays so over the whole rest of the run, and holds and sends nothing more. */
  lemma {:induction false} StoppingSendsNothing(st: State, run: seq<Action>, t: nat)
    requires Good(st) && Runnable(st, run) && st.stopping && Traced(st.sched, t)
    ensures
      var end := Final(st, run);
      end.stopping && end.slot == None && t < |end.sched.ttl| && Sent(end.sched, t) == Sent(st.sched, t)
    decreases |run|
  {
    if run == [] {
    } else {
      StepKeepsGood(st, run[0]);
      StepKeepsRange(st, run[0]);
      StoppingStep(st, run[0], t);
      StoppingSendsNothing(Do(st, run[0]), run[1..], t);
    }
  }

  /** How many requests a run completes. */
  function Finishes(run: seq<Action>): nat {
    if run == [] then 0 else One(run[0].Finish?) + Finishes(run[1..])
  }

  lemma FinishedRequests(st: State, a: Action)
    requires S.Shape(st.sched) && a.Finish? && a.token.sequence in st.requests
    ensures
      var left := DoFinish(st, a).requests;
      |left| == |st.requests| - 1 && left.Keys <= st.requests.Keys
  {
    var k := a.token.sequence;
    assert DoFinish(st, a).requests == st.requests - {k};
    assert st.requests.Keys == (st.requests - {k}).Keys + {k};
  }

  lemma CancelLeavesRequests(st: State, tokens: seq<S.Token>)
    requires S.Shape(st.sched)
    ensures DoCancelDue(st, tokens).requests == st.requests
  {
  }

  lemma OthersLeaveRequests(st: State, a: Action)
    requires S.Shape(st.sched) && R.Normal(st.policy.config)
    requires !a.Finish? && !a.Reserve? && !a.Settle? && !a.Refresh?
    ensures Do(st, a).requests == st.requests
  {
    match a
    case CancelDue(tokens) => CancelLeavesRequests(st, tokens);
    case _ =>
  }

  lemma StoppingRequests(st: State, a: Action)
    requires Good(st) && Enabled(st, a) && st.stopping
    ensures |Do(st, a).requests| == |st.requests| - One(a.Finish?)
    ensures Do(st, a).requests.Keys <= st.requests.Keys
  {
    if a.Finish? { FinishedRequests(st, a); } else { OthersLeaveRequests(st, a); }
  }

  /** Draining makes progress: from a stopping state on no request is added, each completion takes one away,
      and the loop may be left exactly when as many have completed as there were. */
  lemma {:induction false} DrainCountsDown(st: State, run: seq<Action>)
    requires Good(st) && Runnable(st, run) && st.stopping
    ensures
      var end := Final(st, run);
      && end.requests.Keys <= st.requests.Keys
      && |end.requests| == |st.requests| - Finishes(run)
      && (MayExit(end) <==> Finishes(run) == |st.requests|)
    decreases |run|
  {
    if run == [] {
      RequestsAreOwed(st);
    } else {
      StepKeepsGood(st, run[0]);
      StoppingRequests(st, run[0]);
      StoppingStep(st, run[0], st.sched.config.firstTtl);
      DrainCountsDown(Do(st, run[0]), run[1..]);
    }
  }
}

/** The table's own invariant, through every interleaving. */
module TraceTables {
  import S = SchedulerModel
  import R = RouteModel
  import T = TableModel
  import TI = TableInvariants
  import H = HopModel
  import opened TraceLoop
  import opened TraceRuns

  /** Only commits, resets and lookups touch the table. */
  lemma OthersLeaveTable(st: State, a: Action)
    requires S.Shape(st.sched) && R.Normal(st.policy.config) && !a.CommitNext? && !ByOthers(a)
    ensures Do(st, a).table == st.table
  {
    match a
    case Finish(_, _, _, _, _) => FinishLeavesTable(st, a);
    case Settle(choice) => SettleLeavesTable(st, choice);
    case Refresh(later) => RefreshLeavesTable(st, later);
    case _ =>
  }

  lemma FinishLeavesTable(st: State, a: Action)
    requires S.Shape(st.sched) && a.Finish?
    ensures DoFinish(st, a).table == st.table
  {
  }

  lemma SettleLeavesTable(st: State, choice: Choice)
    requires S.Shape(st.sched)
    ensures DoSettle(st, choice).table == st.table
  {
  }

  lemma RefreshLeavesTable(st: State, later: int)
    requires S.Shape(st.sched) && R.Normal(st.policy.config)
    ensures DoRefresh(st, later).table == st.table
  {
  }

  /** The hops of the table keep their own invariants too: among them that the reply numbers increase
      along each list of responders, and that a hop's completions are its replies and timeouts. */
  lemma StepKeepsTable(st: State, a: Action)
    requires S.Shape(st.sched) && R.Normal(st.policy.config) && TI.TableOk(st.table)
    ensures TI.TableOk(Do(st, a).table)
  {
    match a {
      case CommitNext => if st.pending != [] { TI.CommitKeepsTable(st.table, st.pending[0]); }
      case ResetByUser => TI.ResetMakesTable(st.table);
      case Learned(session, epoch, addr, news, finished) =>
        TI.LearnKeepsTable(st.table, session, epoch, addr, news, finished);
      case _ => OthersLeaveTable(st, a);
    }
  }

  lemma {:induction false} RunKeepsTable(st: State, run: seq<Action>)
    requires Good(st) && Runnable(st, run) && TI.TableOk(st.table)
    ensures TI.TableOk(Final(st, run).table)
    decreases |run|
  {
    if run == [] {
    } else {
      StepKeepsTable(st, run[0]);
      StepKeepsGood(st, run[0]);
      RunKeepsTable(Do(st, run[0]), run[1..]);
    }
  }

  /** In every state of every interleaving each hop's completions are its replies and timeouts, and its
      responders are distinct, in order, and mirrored by the hop. */
  lemma TableAlwaysOk(c: S.Config, p: R.Config, o: Options, tb: T.Table, now: int, run: seq<Action>)
    requires Startable(c, p, tb) && Runnable(Begin(c, p, o, tb, now), run)
    ensures TI.TableOk(Final(Begin(c, p, o, tb, now), run).table)
  {
    assert forall i | 0 <= i < |tb.hops| :: tb.hops[i] == H.Blank(i + 1);
    BeginIsGood(c, p, o, tb, now);
    RunKeepsTable(Begin(c, p, o, tb, now), run);
  }
}
