/** The trace thread as a machine of atomic steps. Its scheduler and policy are its own; the hop table is
    shared: between any two steps the user interface may reset it, and a lookup may fill in what it has
    learned about an address. What a scheduler call decides is queued in `pending` and reaches the table one
    locked commit at a time. */
module TraceLoop {
  import opened Basics
  import S = SchedulerModel
  import H = HopModel
  import T = TableModel
  import R = RouteModel

  datatype Phase =
    | Top | Completing | Expiring | Cancelling | Reserving | Settling | Refreshing | Leaving | Exited

  datatype Options = Options(graceMs: nat, cacheSeconds: nat)

  datatype State = State(
    phase: Phase, now: int, options: Options,
    sched: S.Sched, policy: R.Policy, requests: map<nat, S.Token>,
    stopping: bool, deadline: Option<int>, cycles: nat, reached: bool, replied: bool,
    slot: Option<S.Slot>, pending: seq<T.Commit>,
    table: T.Table)

  /** How the loop disposes of a reserved slot. `tick` is when it looks for a cached reply. */
  datatype Choice = FromCache(tick: nat) | Fail(tick: nat, code: nat) | Send(tick: nat)

  datatype Action =
    | BeginPass(now: int)
    | Finish(token: S.Token, kind: S.CompletionKind, at: int, reply: T.ReplyData, code: nat)
    | EndCompletions(stopRequested: bool)
    | ExpireDue(expired: seq<S.Token>)
    | CancelDue(cancelled: seq<S.Token>)
    | Reserve
    | Settle(choice: Choice)
    | Refresh(later: int)
    | Leave
    | CommitNext
    | ResetByUser
    | Learned(session: nat, epoch: nat, addr: H.Address, news: H.Info, finished: bool)

  /** Steps that other threads take; they do not wait for the commits. */
  predicate ByOthers(a: Action) { a.ResetByUser? || a.Learned? }

  // ----- what the thread decides

  function MandatoryTtl(st: State): nat { R.Mandatory(st.policy.config) }

  /** Past the destination, so that nothing learned there counts. */
  predicate Beyond(p: R.Policy, ttl: nat) {
    p.destination != 0 && ttl > Max(R.Mandatory(p.config), p.destination)
  }

  function FinishCommits(st: State, a: Action): seq<T.Commit>
    requires a.Finish?
  {
    VerdictCommits(S.Verdict(st.sched, a.token, a.kind, a.at), Beyond(st.policy, a.token.ttl),
                   a.token, st.sched.session, a.reply, a.code)
  }

  /** The commits a verdict leads to, in order. */
  function VerdictCommits(d: S.Disposition, beyond: bool, token: S.Token, session: nat, r: T.ReplyData, code: nat)
    : seq<T.Commit>
  {
    var ttl, epoch := token.ttl, token.epoch;
    if beyond && S.EndsFlight(d) then
      [T.PostDestination(ttl, epoch)]
      + (if d == S.LateDiscardedAfterTimeout then [T.LateCompletion(ttl, epoch)] else [])
    else match d
      case AcceptedReply => [T.Reply(ttl, epoch, session, r, token.sequence)]
      case AcceptedTimeout => [T.Timeout(ttl, epoch)]
      case AcceptedLocalError => [T.Failure(ttl, epoch, true, code)]
      case LateDiscarded => [T.LateCompletion(ttl, epoch)]
      case LateDiscardedAfterTimeout => [T.Timeout(ttl, epoch), T.LateCompletion(ttl, epoch)]
      case _ => []
  }

  function ExpireCommits(p: R.Policy, tokens: seq<S.Token>): seq<T.Commit> {
    if tokens == [] then [] else
    [if Beyond(p, tokens[0].ttl) then T.PostDestination(tokens[0].ttl, tokens[0].epoch)
     else T.Timeout(tokens[0].ttl, tokens[0].epoch)]
    + ExpireCommits(p, tokens[1..])
  }

  function CancelCommits(tokens: seq<S.Token>): seq<T.Commit> {
    if tokens == [] then [] else [T.Cancel(tokens[0].ttl, tokens[0].epoch)] + CancelCommits(tokens[1..])
  }

  function SkipCommits(ttls: seq<nat>, epoch: nat): seq<T.Commit> {
    if ttls == [] then [] else [T.SkipBySchedule(ttls[0], epoch)] + SkipCommits(ttls[1..], epoch)
  }

  /** The least number of probes any TTL up to `hi` has settled. */
  function LeastSettled(s: S.Sched, hi: nat): int
    requires S.Shape(s) && s.config.firstTtl <= hi <= s.activeLastTtl
  {
    var k := s.ttl[hi].counters;
    var n := k.completed + k.localErrors + k.cacheSkipped;
    if hi == s.config.firstTtl then n else Min(LeastSettled(s, hi - 1), n)
  }

  // ----- steps

  predicate Quiet(st: State) { st.pending == [] }

  predicate CancelsNow(st: State) {
    st.stopping && st.sched.logicalInflight != 0 && st.deadline.Some? && st.deadline.value <= st.now
  }

  predicate IsCached(st: State, ttl: nat, tick: nat, epoch: nat) {
    T.CachedReply(st.table, ttl, tick, st.options.cacheSeconds, epoch).0
  }

  ghost predicate Enabled(st: State, a: Action) {
    && (!a.CommitNext? && !ByOthers(a) ==> Quiet(st))
    && match a
      case BeginPass(_) => st.phase == Top
      case Finish(token, kind, _, reply, _) =>
        && st.phase == Completing
        && token.sequence in st.requests && st.requests[token.sequence] == token
        && (kind == S.Reply ==> reply.addr != H.Unspecified)
      case EndCompletions(_) => st.phase == Completing
      case ExpireDue(tokens) =>
        st.phase == Expiring && S.Lists(tokens, st.sched.records, S.Overdue(st.sched, st.now))
      case CancelDue(tokens) =>
        && st.phase == Cancelling
        && (if CancelsNow(st) then S.Lists(tokens, st.sched.records, S.Flying(st.sched)) else tokens == [])
      case Reserve => st.phase == Reserving
      case Settle(choice) =>
        && st.phase == Settling
        && (st.slot.Some? ==>
              (choice.FromCache? <==> IsCached(st, st.slot.value.token.ttl, choice.tick, st.slot.value.token.epoch)))
      case Refresh(_) => st.phase == Refreshing
      case Leave => st.phase == Leaving
      case CommitNext => st.pending != []
      case ResetByUser => true
      case Learned(_, _, _, _, _) => true
  }

  function DoBeginPass(st: State, now: int): State
    requires S.Shape(st.sched)
  {
    var st1 := st.(phase := Completing, now := now);
    if st.stopping || st.table.epoch == st.sched.epoch then st1 else
    st1.(sched := S.SetLastTtl(S.Restart(st.sched, st.table.epoch, now), st.policy.config.maxHops, now),
         policy := R.Reset(st.policy.config), cycles := 0, reached := false, replied := false)
  }

  /** Note a reply with the policy; the destination bounds what is probed from now on. */
  function Learn(st: State, ttl: nat, isDestination: bool): State
    requires S.Shape(st.sched)
  {
    var st1 := st.(policy := R.NoteReply(st.policy, ttl, isDestination));
    if !isDestination then st1 else
    st1.(reached := true, sched := S.SetLastTtl(st.sched, Max(MandatoryTtl(st), ttl), st.now))
  }

  function DoFinish(st: State, a: Action): State
    requires S.Shape(st.sched) && a.Finish?
  {
    var d := S.Verdict(st.sched, a.token, a.kind, a.at);
    var st1 := st.(
      sched := S.Complete(st.sched, a.token, a.kind, a.at),
      requests := st.requests - {a.token.sequence},
      pending := FinishCommits(st, a));
    if d == S.AcceptedReply && !Beyond(st.policy, a.token.ttl)
    then Learn(st1.(replied := true), a.token.ttl, a.reply.isDestination)
    else st1
  }

  function Drain(st: State): State
    requires S.Shape(st.sched)
  {
    st.(stopping := true, sched := S.BeginDrain(st.sched), deadline := Some(st.now + st.options.graceMs))
  }

  function DoCancelDue(st: State, tokens: seq<S.Token>): State
    requires S.Shape(st.sched)
  {
    var st1 := st.(
      phase := if st.stopping then Leaving else Reserving,
      deadline := if st.stopping && st.sched.logicalInflight == 0 then None else st.deadline);
    if !CancelsNow(st) then st1 else
    st1.(sched := S.CancelPending(st.sched), deadline := None, pending := CancelCommits(tokens))
  }

  function DoReserve(st: State): State
    requires S.Shape(st.sched)
  {
    var (s, b) := S.ReserveDue(st.sched, st.now);
    st.(phase := Settling, sched := s, pending := SkipCommits(b.skipped, st.sched.epoch),
        slot := if b.slots == [] then None else Some(b.slots[0]))
  }

  function DoSettle(st: State, choice: Choice): State
    requires S.Shape(st.sched)
  {
    var st1 := st.(phase := Refreshing, slot := None);
    if st.slot.None? then st1 else
    var token := st.slot.value.token;
    match choice
    case FromCache(tick) =>
      var st2 := st1.(sched := S.MarkCached(st.sched, token), pending := [T.SkipByCache(token.ttl, token.epoch)]);
      if T.CachedReply(st.table, token.ttl, tick, st.options.cacheSeconds, token.epoch).1
      then Learn(st2, token.ttl, true) else st2
    case Fail(_, code) =>
      st1.(sched := S.MarkIssueFailed(st.sched, token), pending := [T.Failure(token.ttl, token.epoch, false, code)])
    case Send(_) =>
      st1.(sched := S.MarkIssued(st.sched, token, st.now), requests := st.requests[token.sequence := token],
           pending := [T.Issue(token.ttl, token.epoch, Max(0, st.now - st.slot.value.scheduledAt))])
  }

  /** A completed cycle is published and may change the ceiling. */
  function CountCycles(st: State, later: int): State
    requires S.Shape(st.sched) && R.Normal(st.policy.config)
  {
    var n := LeastSettled(st.sched, st.sched.activeLastTtl);
    if n <= st.cycles then st else
    var (p, next) := R.CompleteCycle(st.policy, n);
    st.(cycles := n, policy := p, pending := [T.Cycles(n, st.sched.epoch)],
        sched := if next.Some? then S.SetLastTtl(st.sched, next.value, later) else st.sched)
  }

  function DoRefresh(st: State, later: int): State
    requires S.Shape(st.sched) && R.Normal(st.policy.config)
  {
    var st1 := CountCycles(st, later).(phase := Leaving);
    if !S.QuotasReached(st1.sched) then st1 else
    var st2 := Drain(st1);
    if st2.sched.logicalInflight == 0 then st2.(deadline := None) else st2
  }

  predicate MayExit(st: State) {
    st.stopping && st.sched.transportOutstanding == 0 && st.requests == map[]
  }

  function Do(st: State, a: Action): State
    requires S.Shape(st.sched) && R.Normal(st.policy.config)
  {
    match a
    case BeginPass(now) => DoBeginPass(st, now)
    case Finish(_, _, _, _, _) => DoFinish(st, a)
    case EndCompletions(stop) =>
      if stop && !st.stopping then Drain(st).(phase := Expiring) else st.(phase := Expiring)
    case ExpireDue(tokens) =>
      st.(phase := Cancelling, sched := S.Expire(st.sched, st.now), pending := ExpireCommits(st.policy, tokens))
    case CancelDue(tokens) => DoCancelDue(st, tokens)
    case Reserve => DoReserve(st)
    case Settle(choice) => DoSettle(st, choice)
    case Refresh(later) => DoRefresh(st, later)
    case Leave => st.(phase := if MayExit(st) then Exited else Top)
    case CommitNext =>
      if st.pending == [] then st
      else st.(table := T.Apply(st.table, st.pending[0]), pending := st.pending[1..])
    case ResetByUser => st.(table := T.ResetHops(st.table))
    case Learned(session, epoch, addr, news, finished) =>
      st.(table := T.Learn(st.table, session, epoch, addr, news, finished))
  }

  /** What a trace comes to, once it has ended. */
  datatype Result = Destination | SomeReply | NoReply

  function ResultOf(st: State): Result {
    if st.reached then Destination else if st.replied then SomeReply else NoReply
  }

  /** Where a trace begins: a fresh scheduler and policy for the table's session and epoch. */
  function Begin(c: S.Config, p: R.Config, o: Options, table: T.Table, now: int): State
  {
    var s := S.Start(S.Fresh(c), table.session, table.epoch, now);
    State(Top, now, o, S.SetLastTtl(s, p.maxHops, now), R.Reset(p), map[], false, None, 0, false, false, None, [],
          table)
  }
}
