/** What the counters of one TTL add up to over a run, and what the caps and the quota bound. */
module SchedulerAccounts {
  import opened Basics
  import opened SchedulerModel
  import opened SchedulerCensus
  import opened SchedulerRuns

  /** What a run has done to the probes of one TTL since its last restart and no counter records: local
      errors of issued probes, and how many of them came while the TTL had slots of its quota left to take;
      timeouts the transport itself reported; the probes in flight and the late probes that a stop disowned;
      and the held slots that a drain dropped. */
  datatype Ledger = Ledger(
    issuedErrors: nat, earlyErrors: nat, reportedTimeouts: nat,
    droppedFlights: nat, droppedLate: nat, droppedHeld: nat)

  const BLANK := Ledger(0, 0, 0, 0, 0, 0)

  /** Slots held, and slots that were cached, sent, or failed to be sent: each spends quota once. */
  function Used(s: Sched, l: Ledger, t: nat): int
    requires t < |s.ttl|
  {
    var k := s.ttl[t].counters;
    k.sent + k.cacheSkipped + s.ttl[t].reserved + k.localErrors - l.issuedErrors
  }

  /** All slots granted since the last restart. */
  function Taken(s: Sched, l: Ledger, t: nat): int
    requires t < |s.ttl|
  {
    Used(s, l, t) + l.droppedHeld
  }

  function Post(l: Ledger, s: Sched, e: Event, t: nat): Ledger
    requires t < |s.ttl|
  {
    match e
    case Restarting(_, _) => BLANK
    case DrainBeginning => l.(droppedHeld := l.droppedHeld + Count(s.records, Held, At(t)))
    case CancellingPending => l.(droppedHeld := l.droppedHeld + Count(s.records, Held, At(t)))
    case Stopping =>
      l.(droppedFlights := l.droppedFlights + Count(s.records, InFlight, At(t)),
         droppedLate := l.droppedLate + Count(s.records, Late, At(t)),
         droppedHeld := l.droppedHeld + Count(s.records, Held, At(t)))
    case Completion(token, kind, at) =>
      if token.ttl != t then l else
      var d := Verdict(s, token, kind, at);
      if d == AcceptedLocalError then
        l.(issuedErrors := l.issuedErrors + 1,
           earlyErrors := l.earlyErrors + One(Taken(s, l, t) < s.config.probesPerTtl))
      else if d == AcceptedTimeout then l.(reportedTimeouts := l.reportedTimeouts + 1)
      else l
    case _ => l
  }

  function PostAll(l: Ledger, s: Sched, es: seq<Event>, t: nat): Ledger
    requires Shape(s)
    decreases |es|
  {
    if es == [] || t >= |s.ttl| then l else PostAll(Post(l, s, es[0], t), Step(s, es[0]), es[1..], t)
  }

  /** Every probe sent is accounted for, every completion is a reply or a timeout, and every timeout is
      reported, has been followed by its late completion, or is still owed one. */
  predicate Balanced(s: Sched, l: Ledger, t: nat)
    requires t < |s.ttl|
  {
    AddUp(s.ttl[t].counters, Count(s.records, Late, At(t)), l)
  }

  predicate AddUp(k: Counters, late: int, l: Ledger) {
    && k.sent == k.completed + k.cancelled + k.inFlight + l.issuedErrors + l.droppedFlights
    && k.completed == k.received + k.timedOut
    && k.timedOut == k.lateCompletions + late + l.reportedTimeouts + l.droppedLate
    && l.issuedErrors <= k.localErrors
  }

  predicate Traced(s: Sched, t: nat) { s.config.firstTtl <= t <= s.config.lastTtl }

  // ----- passes

  lemma SweepKeepsBalance(s: Sched, w: Sweep, l: Ledger, t: nat)
    requires Shape(s) && Traced(s, t) && Balanced(s, l, t)
    requires !w.Retiring?
    ensures Balanced(SweepAll(s, w), l, t)
  {
    if w.Expiring? {
      CountLateExpired(s.records, w.now, At(t));
    } else {
      CountLateOtherwise(s.records, w, At(t));
      if w.Draining? { assert Leavers(s.records, s.records.Keys, w, InFlight, At(t)) == {}; }
    }
  }

  lemma StopKeepsBalance(s: Sched, l: Ledger, t: nat)
    requires Valid(s) && Traced(s, t) && Balanced(s, l, t)
    ensures Balanced(Stop(s), Post(l, s, Stopping, t), t)
  {
    CountLateOtherwise(s.records, Retiring, At(t));
    assert Leavers(s.records, s.records.Keys, Retiring, InFlight, At(t)) == Members(s.records, InFlight, At(t));
  }

  lemma RestartKeepsBalance(s: Sched, epoch: nat, now: int, l: Ledger, t: nat)
    requires Valid(s) && Traced(s, t)
    ensures Balanced(Restart(s, epoch, now), BLANK, t)
  {
    CountLateOtherwise(s.records, Retiring, At(t));
  }

  // ----- reserving

  lemma GrantKeepsBalance(s: Sched, now: int, u: nat, l: Ledger, t: nat)
    requires Valid(s) && Traced(s, t) && Balanced(s, l, t) && ActiveTtl(s, u) && !QuotaReached(s.config, s.ttl[u])
    ensures Balanced(Grant(s, now, u), l, t)
  {
    NextKeyIsFree(s);
    CountPut(s.records, s.sequence + 1, Record(NextToken(s, u), Reserved, 0), Late, At(t));
  }

  lemma ArmKeepsBalance(s: Sched, now: int, u: nat, l: Ledger, t: nat)
    requires Valid(s) && Traced(s, t) && Balanced(s, l, t) && Due(s, now, u)
    ensures
      var a := Arm(s, now, u);
      Balanced(a, l, t) && ActiveTtl(a, u) && !QuotaReached(a.config, a.ttl[u])
  {
  }

  lemma AttemptKeepsBalance(s: Sched, now: int, u: nat, l: Ledger, t: nat)
    requires Valid(s) && Traced(s, t) && Balanced(s, l, t) && Due(s, now, u)
    ensures Balanced(Attempt(s, now, u).0, l, t)
  {
    var a := Arm(s, now, u);
    ArmKeepsValid(s, now, u);
    ArmKeepsBalance(s, now, u, l, t);
    if !Blocked(a, u) { GrantKeepsBalance(a, now, u, l, t); }
  }

  lemma {:induction false} ReserveKeepsBalance(s: Sched, now: int, l: Ledger, t: nat)
    requires Valid(s) && Traced(s, t) && Balanced(s, l, t)
    ensures t < |ReserveLoop(s, now).0.ttl| && Balanced(ReserveLoop(s, now).0, l, t)
    decreases |DueSet(s, now)|
  {
    var u := LeastDue(s, now, s.activeLastTtl);
    if u != 0 {
      AttemptSettles(s, now, u);
      AttemptKeepsValid(s, now, u);
      AttemptKeepsBalance(s, now, u, l, t);
      if Attempt(s, now, u).1.None? {
        AttemptLeavesDueSet(s, now, u);
        ReserveKeepsBalance(Attempt(s, now, u).0, now, l, t);
      }
    }
  }

  // ----- one probe

  lemma TokenKeepsBalance(s: Sched, e: Event, l: Ledger, t: nat)
    requires Valid(s) && Traced(s, t) && Balanced(s, l, t)
    requires e.MarkingIssued? || e.MarkingIssueFailed? || e.MarkingCached?
    ensures Balanced(Step(s, e), Post(l, s, e, t), t)
  {
    var k := e.token.sequence;
    if HoldsSlot(s, e.token) {
      if e.MarkingIssued? {
        CountPut(s.records, k, Record(e.token, Issued, e.at + s.config.timeoutMs), Late, At(t));
      } else {
        CountDrop(s.records, k, Late, At(t));
      }
    }
  }

  lemma ScoreAddsUp(k: Counters, late: int, l: Ledger, d: Disposition, l': Ledger)
    requires AddUp(k, late, l)
    requires l'.droppedFlights == l.droppedFlights && l'.droppedLate == l.droppedLate
    requires l'.issuedErrors == l.issuedErrors + One(d == AcceptedLocalError)
    requires l'.reportedTimeouts == l.reportedTimeouts + One(d == AcceptedTimeout)
    ensures AddUp(Score(k, d), late - One(d == LateDiscarded), l')
  {
  }

  lemma CompletionKeepsBalance(s: Sched, token: Token, kind: CompletionKind, at: int, l: Ledger, t: nat)
    requires Valid(s) && Traced(s, t) && Balanced(s, l, t)
    ensures Balanced(Complete(s, token, kind, at), Post(l, s, Completion(token, kind, at), t), t)
  {
    var d := Verdict(s, token, kind, at);
    if d != UnknownToken {
      CountDrop(s.records, token.sequence, Late, At(t));
      if token.ttl == t {
        ScoreAddsUp(s.ttl[t].counters, Count(s.records, Late, At(t)), l, d, Post(l, s, Completion(token, kind, at), t));
      }
    }
  }

  // ----- runs

  lemma CancelKeepsBalance(s: Sched, l: Ledger, t: nat)
    requires Shape(s) && Traced(s, t) && Balanced(s, l, t)
    ensures Balanced(CancelPending(s), l, t)
  {
    SweepKeepsBalance(s.(active := false), Draining, l, t);
    SweepKeepsBalance(BeginDrain(s), Cancelling, l, t);
  }

  lemma SetLastKeepsBalance(s: Sched, last: nat, now: int, l: Ledger, t: nat)
    requires Shape(s) && Traced(s, t) && Balanced(s, l, t)
    ensures Balanced(SetLastTtl(s, last, now), l, t)
  {
  }

  lemma StepKeepsBalance(s: Sched, e: Event, l: Ledger, t: nat)
    requires Valid(s) && Traced(s, t) && Balanced(s, l, t)
    ensures t < |Step(s, e).ttl| && Balanced(Step(s, e), Post(l, s, e, t), t)
  {
    match e {
      case Restarting(epoch, now) => RestartKeepsBalance(s, epoch, now, l, t);
      case Stopping => StopKeepsBalance(s, l, t);
      case DrainBeginning => SweepKeepsBalance(s.(active := false), Draining, l, t);
      case CancellingPending => CancelKeepsBalance(s, l, t);
      case SettingLastTtl(last, now) => SetLastKeepsBalance(s, last, now, l, t);
      case ReservingDue(now) => ReserveKeepsBalance(s, now, l, t);
      case Expiry(now) => SweepKeepsBalance(s, Expiring(now), l, t);
      case Completion(token, kind, at) => CompletionKeepsBalance(s, token, kind, at, l, t);
      case _ => TokenKeepsBalance(s, e, l, t);
    }
  }

  lemma {:induction false} RunKeepsBalance(s: Sched, es: seq<Event>, l: Ledger, t: nat)
    requires Valid(s) && Traced(s, t) && Balanced(s, l, t)
    ensures Traced(Exec(s, es), t) && Balanced(Exec(s, es), PostAll(l, s, es, t), t)
    decreases |es|
  {
    if es == [] {
    } else {
      StepKeepsValid(s, es[0]);
      StepKeepsBalance(s, es[0], l, t);
      RunKeepsBalance(Step(s, es[0]), es[1..], Post(l, s, es[0], t), t);
    }
  }

  // ----- the quota

  /** A local error of an issued probe spends quota a second time. So a TTL takes no more slots than its
      quota, and it takes fewer as soon as such an error comes while there are slots left to take. */
  predicate WithinQuota(s: Sched, l: Ledger, t: nat)
    requires t < |s.ttl|
  {
    var quota, taken := s.config.probesPerTtl, Taken(s, l, t);
    && l.earlyErrors <= l.issuedErrors <= s.ttl[t].counters.localErrors
    && (l.droppedHeld > 0 ==> !s.active)
    && (quota != 0 ==>
          && taken <= quota
          && (l.earlyErrors == 0 ==> l.issuedErrors == 0 || taken == quota)
          && (l.earlyErrors > 0 ==> taken < quota))
  }

  lemma AttemptKeepsQuota(s: Sched, now: int, u: nat, l: Ledger, t: nat)
    requires Shape(s) && Traced(s, t) && WithinQuota(s, l, t) && s.active && Due(s, now, u)
    ensures WithinQuota(Attempt(s, now, u).0, l, t)
  {
  }

  lemma {:induction false} ReserveKeepsQuota(s: Sched, now: int, l: Ledger, t: nat)
    requires Shape(s) && Traced(s, t) && WithinQuota(s, l, t) && s.active
    ensures t < |ReserveLoop(s, now).0.ttl| && WithinQuota(ReserveLoop(s, now).0, l, t)
    decreases |DueSet(s, now)|
  {
    var u := LeastDue(s, now, s.activeLastTtl);
    if u != 0 {
      AttemptSettles(s, now, u);
      AttemptKeepsQuota(s, now, u, l, t);
      if Attempt(s, now, u).1.None? {
        AttemptLeavesDueSet(s, now, u);
        ReserveKeepsQuota(Attempt(s, now, u).0, now, l, t);
      }
    }
  }

  /** What a pass that drops the held slots takes out of a TTL's reservations. */
  lemma DroppedAreHeld(s: Sched, w: Sweep, t: nat)
    requires Shape(s) && Traced(s, t) && !w.Cancelling? && !w.Expiring?
    ensures SweepAll(s, w).ttl[t].reserved == s.ttl[t].reserved - Count(s.records, Held, At(t))
    ensures SweepAll(s, w).ttl[t].counters
         == s.ttl[t].counters.(inFlight := SweepAll(s, w).ttl[t].counters.inFlight)
  {
    assert Leavers(s.records, s.records.Keys, w, Held, At(t)) == Members(s.records, Held, At(t));
  }

  /** The other passes drop none. */
  lemma NoneAreDropped(s: Sched, w: Sweep, t: nat)
    requires Shape(s) && Traced(s, t) && (w.Cancelling? || w.Expiring?)
    ensures
      var k, k' := s.ttl[t].counters, SweepAll(s, w).ttl[t].counters;
      && SweepAll(s, w).ttl[t].reserved == s.ttl[t].reserved
      && k'.sent == k.sent && k'.cacheSkipped == k.cacheSkipped && k'.localErrors == k.localErrors
  {
    assert Leavers(s.records, s.records.Keys, w, Held, At(t)) == {};
  }

  lemma DropKeepsQuota(s: Sched, e: Event, l: Ledger, t: nat)
    requires Shape(s) && Traced(s, t) && WithinQuota(s, l, t)
    requires e.Stopping? || e.DrainBeginning? || e.CancellingPending?
    ensures t < |Step(s, e).ttl| && WithinQuota(Step(s, e), Post(l, s, e, t), t)
  {
    DroppedAreHeld(s.(active := false), if e.Stopping? then Retiring else Draining, t);
    if e.CancellingPending? { NoneAreDropped(BeginDrain(s), Cancelling, t); }
  }

  lemma TokenKeepsQuota(s: Sched, e: Event, l: Ledger, t: nat)
    requires Shape(s) && Traced(s, t) && WithinQuota(s, l, t)
    requires e.MarkingIssued? || e.MarkingIssueFailed? || e.MarkingCached? || e.Completion?
    ensures t < |Step(s, e).ttl| && WithinQuota(Step(s, e), Post(l, s, e, t), t)
  {
  }

  lemma StepKeepsQuota(s: Sched, e: Event, l: Ledger, t: nat)
    requires Shape(s) && Traced(s, t) && WithinQuota(s, l, t)
    ensures t < |Step(s, e).ttl| && WithinQuota(Step(s, e), Post(l, s, e, t), t)
  {
    match e {
      case Restarting(epoch, now) =>
      case Stopping => DropKeepsQuota(s, e, l, t);
      case DrainBeginning => DropKeepsQuota(s, e, l, t);
      case CancellingPending => DropKeepsQuota(s, e, l, t);
      case SettingLastTtl(last, now) =>
      case ReservingDue(now) => if s.active { ReserveKeepsQuota(s, now, l, t); }
      case Expiry(now) => NoneAreDropped(s, Expiring(now), t);
      case _ => TokenKeepsQuota(s, e, l, t);
    }
  }

  lemma {:induction false} RunKeepsQuota(s: Sched, es: seq<Event>, l: Ledger, t: nat)
    requires Valid(s) && Traced(s, t) && WithinQuota(s, l, t)
    ensures Traced(Exec(s, es), t) && WithinQuota(Exec(s, es), PostAll(l, s, es, t), t)
    decreases |es|
  {
    if es == [] {
    } else {
      StepKeepsValid(s, es[0]);
      StepKeepsQuota(s, es[0], l, t);
      RunKeepsQuota(Step(s, es[0]), es[1..], Post(l, s, es[0], t), t);
    }
  }

  /** The accounts of every TTL balance in every state of every run. */
  lemma AccountsAlwaysBalance(c: Config, session: nat, epoch: nat, now: int, es: seq<Event>, t: nat)
    requires Normalize(c).firstTtl <= t <= Normalize(c).lastTtl
    ensures
      var s := Started(c, session, epoch, now);
      t < |Exec(s, es).ttl| && Balanced(Exec(s, es), PostAll(BLANK, s, es, t), t)
      && WithinQuota(Exec(s, es), PostAll(BLANK, s, es, t), t)
  {
    var s := Started(c, session, epoch, now);
    StartedIsValid(c, session, epoch, now);
    FreshIsValid(c);
    RestartKeepsBalance(Fresh(c).(session := session, sequence := 0, active := true), epoch, now, BLANK, t);
    RunKeepsBalance(s, es, BLANK, t);
    RunKeepsQuota(s, es, BLANK, t);
  }

  /** What a TTL at its quota has used, in every run: never more than the quota, and less by no more than
      the local errors of issued probes. It has taken exactly as many slots as the quota says if and only
      if none of those errors came while it had taken fewer. */
  lemma QuotaIsSpentIff(c: Config, session: nat, epoch: nat, now: int, es: seq<Event>, t: nat)
    requires Normalize(c).firstTtl <= t <= Normalize(c).lastTtl
    ensures
      var s0 := Started(c, session, epoch, now);
      var s, l := Exec(s0, es), PostAll(BLANK, s0, es, t);
      t < |s.ttl| && (QuotaReached(s.config, s.ttl[t]) ==>
        var quota := s.config.probesPerTtl;
        && quota - l.issuedErrors <= Used(s, l, t) <= Taken(s, l, t) <= quota
        && (Taken(s, l, t) == quota <==> l.earlyErrors == 0))
  {
    AccountsAlwaysBalance(c, session, epoch, now, es, t);
  }

  // ----- caps

  predicate WithinCaps(s: Sched, t: nat)
    requires t < |s.ttl|
  {
    && s.ttl[t].counters.inFlight + s.ttl[t].reserved <= s.config.maxInflightPerTtl
    && s.ttl[t].counters.transportOutstanding + s.ttl[t].reserved <= s.config.maxTransportPerTtl
    && s.logicalInflight + s.reserved <= s.config.maxInflight
    && s.transportOutstanding + s.reserved <= s.config.maxTransport
  }

  lemma AttemptKeepsCaps(s: Sched, now: int, u: nat, t: nat)
    requires Shape(s) && Traced(s, t) && WithinCaps(s, t) && Due(s, now, u)
    ensures WithinCaps(Attempt(s, now, u).0, t)
  {
  }

  lemma {:induction false} ReserveKeepsCaps(s: Sched, now: int, t: nat)
    requires Shape(s) && Traced(s, t) && WithinCaps(s, t)
    ensures t < |ReserveLoop(s, now).0.ttl| && WithinCaps(ReserveLoop(s, now).0, t)
    decreases |DueSet(s, now)|
  {
    var u := LeastDue(s, now, s.activeLastTtl);
    if u != 0 {
      AttemptSettles(s, now, u);
      AttemptKeepsCaps(s, now, u, t);
      if Attempt(s, now, u).1.None? {
        AttemptLeavesDueSet(s, now, u);
        ReserveKeepsCaps(Attempt(s, now, u).0, now, t);
      }
    }
  }

  lemma SweepKeepsCaps(s: Sched, w: Sweep, t: nat)
    requires Shape(s) && Traced(s, t) && WithinCaps(s, t)
    ensures WithinCaps(SweepAll(s, w), t)
  {
  }

  lemma RestartKeepsCaps(s: Sched, epoch: nat, now: int, t: nat)
    requires Valid(s) && Traced(s, t) && WithinCaps(s, t)
    ensures WithinCaps(Restart(s, epoch, now), t)
  {
    RestartKeepsValid(s, epoch, now);
    RetiredCounts(s, At(t));
    RetiredCounts(s, Anywhere);
  }

  lemma CancelKeepsCaps(s: Sched, t: nat)
    requires Shape(s) && Traced(s, t) && WithinCaps(s, t)
    ensures WithinCaps(CancelPending(s), t)
  {
    SweepKeepsCaps(s.(active := false), Draining, t);
    SweepKeepsCaps(BeginDrain(s), Cancelling, t);
  }

  lemma TokenKeepsCaps(s: Sched, e: Event, t: nat)
    requires Shape(s) && Traced(s, t) && WithinCaps(s, t)
    requires e.MarkingIssued? || e.MarkingIssueFailed? || e.MarkingCached? || e.Completion?
    ensures WithinCaps(Step(s, e), t)
  {
  }

  lemma StepKeepsCaps(s: Sched, e: Event, t: nat)
    requires Valid(s) && Traced(s, t) && WithinCaps(s, t)
    ensures t < |Step(s, e).ttl| && WithinCaps(Step(s, e), t)
  {
    match e {
      case Restarting(epoch, now) => RestartKeepsCaps(s, epoch, now, t);
      case Stopping => SweepKeepsCaps(s.(active := false), Retiring, t);
      case DrainBeginning => SweepKeepsCaps(s.(active := false), Draining, t);
      case CancellingPending => CancelKeepsCaps(s, t);
      case SettingLastTtl(_, _) =>
      case Expiry(now) => SweepKeepsCaps(s, Expiring(now), t);
      case ReservingDue(now) => ReserveKeepsCaps(s, now, t);
      case _ => TokenKeepsCaps(s, e, t);
    }
  }

  lemma {:induction false} RunKeepsCaps(s: Sched, es: seq<Event>, t: nat)
    requires Valid(s) && Traced(s, t) && WithinCaps(s, t)
    ensures Traced(Exec(s, es), t) && WithinCaps(Exec(s, es), t)
    decreases |es|
  {
    if es == [] {
    } else {
      StepKeepsValid(s, es[0]);
      StepKeepsCaps(s, es[0], t);
      RunKeepsCaps(Step(s, es[0]), es[1..], t);
    }
  }

  /** The four caps on logical probes and transport requests hold in every state of every run. */
  lemma CapsAlwaysHold(c: Config, session: nat, epoch: nat, now: int, es: seq<Event>, t: nat)
    requires Normalize(c).firstTtl <= t <= Normalize(c).lastTtl
    ensures
      var s := Exec(Started(c, session, epoch, now), es);
      t < |s.ttl| && WithinCaps(s, t)
  {
    var s := Started(c, session, epoch, now);
    StartedIsValid(c, session, epoch, now);
    assert s.records == map[];
    forall cl, sc ensures Count(s.records, cl, sc) == 0 { assert Members(s.records, cl, sc) == {}; }
    RunKeepsCaps(s, es, t);
  }

  // ----- the global cap on logical probes

  function Upto(m: map<nat, Record>, c: Class, hi: int): set<nat> {
    set k | k in m && Belongs(m[k], c) && m[k].token.ttl <= hi
  }

  lemma UptoOneMore(m: map<nat, Record>, c: Class, hi: nat)
    ensures |Upto(m, c, hi)| == |Upto(m, c, hi - 1)| + Count(m, c, At(hi))
  {
    assert Upto(m, c, hi) == Upto(m, c, hi - 1) + Members(m, c, At(hi));
    assert Upto(m, c, hi - 1) !! Members(m, c, At(hi));
  }

  lemma {:induction false} UptoBound(s: Sched, t: nat, hi: nat)
    requires Valid(s) && s.config.firstTtl - 1 <= hi <= s.config.lastTtl
    requires forall u | Traced(s, u) :: WithinCaps(s, u)
    requires Traced(s, t) && s.ttl[t].counters.inFlight + s.ttl[t].reserved < s.config.maxInflightPerTtl
    ensures |Upto(s.records, InFlight, hi)| + |Upto(s.records, Held, hi)| + One(t <= hi)
         <= (hi - s.config.firstTtl + 1) * s.config.maxInflightPerTtl
  {
    var n, cap := hi - s.config.firstTtl + 1, s.config.maxInflightPerTtl;
    if n == 0 {
      assert Upto(s.records, InFlight, hi) == {} && Upto(s.records, Held, hi) == {};
    } else {
      UptoBound(s, t, hi - 1);
      UptoOneMore(s.records, InFlight, hi);
      UptoOneMore(s.records, Held, hi);
      assert WithinCaps(s, hi);
      assert n * cap == (n - 1) * cap + cap;
    }
  }

  /** With a global cap that covers every TTL's own, only a TTL's own cap can hold it back. */
  lemma OwnCapDecides(s: Sched, t: nat)
    requires Valid(s) && Traced(s, t)
    requires forall u | Traced(s, u) :: WithinCaps(s, u)
    requires s.config.maxInflight >= (s.config.lastTtl - s.config.firstTtl + 1) * s.config.maxInflightPerTtl
    ensures LogicalFull(s, t) <==> s.ttl[t].counters.inFlight + s.ttl[t].reserved >= s.config.maxInflightPerTtl
  {
    if s.ttl[t].counters.inFlight + s.ttl[t].reserved < s.config.maxInflightPerTtl {
      UptoBound(s, t, s.config.lastTtl);
      assert Upto(s.records, InFlight, s.config.lastTtl) == Members(s.records, InFlight, Anywhere);
      assert Upto(s.records, Held, s.config.lastTtl) == Members(s.records, Held, Anywhere);
    }
  }
}
