/** The scheduler object: its methods update the record table, the per-TTL counters and the totals in
    place, and leave the object in exactly the state the functions of `SchedulerModel` describe. The
    bodies of long loops are methods of their own. */
module ProbeSchedulers {
  import opened Basics
  import opened SchedulerModel
  import opened SchedulerCensus
  import opened SchedulerReserve

  class ProbeScheduler {
    const config: Config
    var ttl: seq<TtlState>
    var records: map<nat, Record>
    var session: nat
    var epoch: nat
    var sequence: nat
    var logicalInflight: int
    var transportOutstanding: int
    var reserved: int
    var nextGlobalSendAt: int
    var activeLastTtl: nat
    var active: bool

    ghost function State(): Sched
      reads this
    {
      Sched(config, ttl, records, session, epoch, sequence, logicalInflight, transportOutstanding,
            reserved, nextGlobalSendAt, activeLastTtl, active)
    }

    ghost predicate Ok()
      reads this
    {
      Valid(State())
    }

    constructor (c: Config)
      ensures Ok() && State() == Fresh(c)
    {
      config := Normalize(c);
      ttl := seq(Normalize(c).lastTtl + 1, _ => TtlState(ZERO, 0, 0));
      records := map[];
      session, epoch, sequence := 0, 0, 0;
      logicalInflight, transportOutstanding, reserved := 0, 0, 0;
      nextGlobalSendAt := 0;
      activeLastTtl := Normalize(c).lastTtl;
      active := false;
      new;
      FreshIsValid(c);
    }

    // ----- lifecycle

    method Start(session': nat, epoch': nat, now: int)
      requires Ok()
      modifies this
      ensures State() == SchedulerModel.Start(old(State()), session', epoch', now)
      ensures Ok() <==> old(transportOutstanding) == 0
    {
      StartValidIff(State(), session', epoch', now);
      session := session';
      sequence := 0;
      active := true;
      BeginEpoch(epoch', now);
    }

    method Restart(epoch': nat, now: int)
      requires Ok()
      modifies this
      ensures Ok() && State() == SchedulerModel.Restart(old(State()), epoch', now)
    {
      RestartKeepsValid(State(), epoch', now);
      BeginEpoch(epoch', now);
    }

    /** What `Start` and `Restart` share. */
    method BeginEpoch(epoch': nat, now: int)
      requires Shape(State())
      modifies this
      ensures State() == SchedulerModel.Restart(old(State()), epoch', now)
    {
      RetireLogicalState();
      label retired:
      epoch := epoch';
      active := true;
      activeLastTtl := config.lastTtl;
      nextGlobalSendAt := now;
      var count := activeLastTtl - config.firstTtl + 1;
      for t := config.firstTtl to config.lastTtl + 1
        invariant |ttl| == config.lastTtl + 1
        invariant forall u :: config.firstTtl <= u < t ==>
          ttl[u] == TtlState(ZERO.(transportOutstanding := old@retired(ttl)[u].counters.transportOutstanding),
                             now + StaggerOffset(u - config.firstTtl, config.intervalMs, count), 0)
        invariant forall u :: 0 <= u < |ttl| && !(config.firstTtl <= u < t) ==> ttl[u] == old@retired(ttl)[u]
        modifies this`ttl
      {
        var stillOutstanding := ttl[t].counters.transportOutstanding;
        ttl := ttl[t := TtlState(ZERO.(transportOutstanding := stillOutstanding),
                                 now + StaggerOffset(t - config.firstTtl, config.intervalMs, count), 0)];
      }
      assert State().ttl == SchedulerModel.Restart(old(State()), epoch', now).ttl;
    }

    /** One pass over the table when the epoch changes: held slots are erased, probes in flight leave
        the logical counts, and whatever the transport still owes will be ignored. */
    method RetireLogicalState()
      requires Shape(State())
      modifies this
      ensures State() == SweepAll(old(State()), Retiring)
    {
      ghost var s, done := State(), {};
      var todo := records.Keys;
      SweepNothing(s, Retiring);
      while todo != {}
        invariant todo !! done && todo + done == s.records.Keys
        invariant State() == SweepKeys(s, done, Retiring)
        decreases todo
      {
        var k :| k in todo;
        SweepOneMore(s, done, k, Retiring);
        RetireRecord(k);
        todo, done := todo - {k}, done + {k};
      }
      assert done == s.records.Keys;
    }

    method RetireRecord(k: nat)
      requires Shape(State()) && k in records
      modifies this
      ensures State() == Visit(old(State()), k, Retiring)
    {
      var r := records[k];
      var x := ttl[r.token.ttl];
      if r.state == Reserved {
        ttl := ttl[r.token.ttl := x.(reserved := x.reserved - 1)];
        reserved := reserved - 1;
        records := records - {k};
        return;
      }
      if r.state == Issued {
        ttl := ttl[r.token.ttl := x.(counters := x.counters.(inFlight := x.counters.inFlight - 1))];
        logicalInflight := logicalInflight - 1;
      }
      records := records[k := r.(state := IgnoredEpoch)];
    }

    method Stop()
      requires Ok()
      modifies this
      ensures Ok() && State() == SchedulerModel.Stop(old(State()))
    {
      SweepKeepsValid(State().(active := false), records.Keys, Retiring);
      active := false;
      RetireLogicalState();
    }

    method BeginDrain()
      requires Ok()
      modifies this
      ensures Ok() && State() == SchedulerModel.BeginDrain(old(State()))
    {
      SweepKeepsValid(State().(active := false), records.Keys, Draining);
      active := false;
      DropHeld();
    }

    method DropHeld()
      requires Shape(State())
      modifies this
      ensures State() == SweepAll(old(State()), Draining)
    {
      ghost var s, done := State(), {};
      var todo := records.Keys;
      SweepNothing(s, Draining);
      while todo != {}
        invariant todo !! done && todo + done == s.records.Keys
        invariant State() == SweepKeys(s, done, Draining)
        decreases todo
      {
        var k :| k in todo;
        SweepOneMore(s, done, k, Draining);
        DropIfHeld(k);
        todo, done := todo - {k}, done + {k};
      }
      assert done == s.records.Keys;
    }

    method DropIfHeld(k: nat)
      requires Shape(State()) && k in records
      modifies this
      ensures State() == Visit(old(State()), k, Draining)
    {
      var r := records[k];
      if r.state != Reserved { return; }
      var x := ttl[r.token.ttl];
      ttl := ttl[r.token.ttl := x.(reserved := x.reserved - 1)];
      reserved := reserved - 1;
      records := records - {k};
    }

    method CancelPending() returns (cancelled: seq<Token>)
      requires Ok()
      modifies this
      ensures Ok() && State() == SchedulerModel.CancelPending(old(State()))
      ensures Lists(cancelled, old(records), Flying(old(State())))
    {
      DrainKeepsFlying(State());
      BeginDrain();
      KeysAreSequences(State());
      cancelled := IssuedTokens();
      SweepKeepsValid(State(), records.Keys, Cancelling);
      CancelRecords(cancelled);
    }

    method CancelRecords(tokens: seq<Token>)
      requires Shape(State()) && Lists(tokens, records, Flying(State()))
      modifies this
      ensures State() == SweepAll(old(State()), Cancelling)
    {
      ghost var s, done := State(), {};
      SweepNothing(s, Cancelling);
      for i := 0 to |tokens|
        invariant forall k :: k in done <==> exists j :: 0 <= j < i && tokens[j].sequence == k
        invariant State() == SweepKeys(s, done, Cancelling)
      {
        CancelNext(s, done, tokens[i].sequence);
        done := done + {tokens[i].sequence};
      }
      forall k | k in s.records && k !in done ensures s.records[k].state != Issued {
        assert k !in Flying(s);
      }
      SweepMoversOnly(s, done, Cancelling);
    }

    method CancelNext(ghost s: Sched, ghost done: set<nat>, k: nat)
      requires Shape(s) && k in s.records && k !in done && s.records[k].state == Issued
      requires State() == SweepKeys(s, done, Cancelling)
      modifies this
      ensures State() == SweepKeys(s, done + {k}, Cancelling)
    {
      SweepOneMore(s, done, k, Cancelling);
      CancelRecord(k);
    }

    method IssuedTokens() returns (tokens: seq<Token>)
      requires forall k | k in records :: records[k].token.sequence == k
      ensures Lists(tokens, records, Flying(State()))
    {
      tokens := [];
      ghost var done := {};
      var todo := records.Keys;
      while todo != {}
        invariant todo !! done && todo + done == records.Keys
        invariant ListsFlying(tokens, State(), done)
        decreases todo
      {
        var k :| k in todo;
        ListsFlyingOneMore(tokens, State(), done, k);
        if records[k].state == Issued { tokens := tokens + [records[k].token]; }
        todo, done := todo - {k}, done + {k};
      }
      assert Flying(State()) * done == Flying(State());
    }

    method CancelRecord(k: nat)
      requires Shape(State()) && k in records && records[k].state == Issued
      modifies this
      ensures State() == Visit(old(State()), k, Cancelling)
    {
      var r := records[k];
      var x := ttl[r.token.ttl];
      var c := x.counters;
      ttl := ttl[r.token.ttl := x.(counters := c.(inFlight := c.inFlight - 1, cancelled := c.cancelled + 1))];
      logicalInflight := logicalInflight - 1;
      records := records[k := r.(state := Cancelled)];
    }

    method SetLastTtl(last: nat, now: int)
      requires Ok()
      modifies this
      ensures Ok() && State() == SchedulerModel.SetLastTtl(old(State()), last, now)
    {
      SetLastTtlKeepsValid(State(), last, now);
      var nextLast := Clamp(last, config.firstTtl, config.lastTtl);
      if nextLast == activeLastTtl { return; }
      if nextLast > activeLastTtl { StaggerAdded(nextLast, now); }
      activeLastTtl := nextLast;
      assert ttl == SchedulerModel.SetLastTtl(old(State()), last, now).ttl;
    }

    /** The deadlines of the TTLs that `nextLast` adds. */
    method StaggerAdded(nextLast: nat, now: int)
      requires |ttl| == config.lastTtl + 1 && activeLastTtl < nextLast <= config.lastTtl
      modifies this`ttl
      ensures |ttl| == |old(ttl)|
      ensures forall u :: 0 <= u < |ttl| ==>
        ttl[u] == if activeLastTtl < u <= nextLast
                  then old(ttl)[u].(nextSendAt :=
                    now + StaggerOffset(u - activeLastTtl - 1, config.intervalMs, nextLast - activeLastTtl))
                  else old(ttl)[u]
    {
      var added := nextLast - activeLastTtl;
      for t := activeLastTtl + 1 to nextLast + 1
        invariant |ttl| == |old(ttl)|
        invariant forall u :: activeLastTtl < u < t ==>
          ttl[u] == old(ttl)[u].(nextSendAt := now + StaggerOffset(u - activeLastTtl - 1, config.intervalMs, added))
        invariant forall u :: 0 <= u < |ttl| && !(activeLastTtl < u < t) ==> ttl[u] == old(ttl)[u]
      {
        ttl := ttl[t := ttl[t].(nextSendAt := now + StaggerOffset(t - activeLastTtl - 1, config.intervalMs, added))];
      }
    }

    // ----- reserving

    method ReserveDue(now: int) returns (batch: Batch)
      requires Ok()
      modifies this
      ensures Ok() && (State(), batch) == SchedulerModel.ReserveDue(old(State()), now)
    {
      if !active || now < nextGlobalSendAt { return Batch([], []); }
      ReserveLoopKeepsValid(State(), now);
      batch := ReserveNext(now);
    }

    method ReserveNext(now: int) returns (batch: Batch)
      requires Shape(State())
      modifies this
      ensures (State(), batch) == ReserveLoop(old(State()), now)
    {
      batch := Batch([], []);
      BehindNothing(ReserveLoop(State(), now));
      while true
        invariant Shape(State()) && batch.slots == []
        invariant ReserveLoop(old(State()), now) == Behind(batch.skipped, ReserveLoop(State(), now))
        decreases |DueSet(State(), now)|
      {
        var t := PickDue(now);
        assert batch.skipped + [] == batch.skipped;
        if t == 0 { return; }
        ghost var s := State();
        var slot := TryDue(now, t);
        if slot.Some? { return batch.(slots := [slot.value]); }
        AttemptLeavesDueSet(s, now, t);
        BehindOneMore(batch.skipped, t, ReserveLoop(State(), now));
        batch := batch.(skipped := batch.skipped + [t]);
      }
    }

    /** Take `t` off the due list; hold a slot for it unless a cap forbids that. */
    method TryDue(now: int, t: nat) returns (slot: Option<Slot>)
      requires Shape(State()) && Due(State(), now, t)
      modifies this
      ensures (State(), slot) == Attempt(old(State()), now, t)
    {
      var scheduledAt := ttl[t].nextSendAt;
      ArmDue(now, t);
      var full := IsBlocked(t);
      if full {
        NoteSkipped(t);
        return None;
      }
      var token := HoldSlot(now, t);
      return Some(Slot(token, scheduledAt));
    }

    method PickDue(now: int) returns (t: nat)
      requires Shape(State())
      ensures t == LeastDue(State(), now, activeLastTtl)
    {
      t := 0;
      var oldest := 0;
      for candidate := config.firstTtl to activeLastTtl + 1
        invariant t == LeastDue(State(), now, candidate - 1)
        invariant t != 0 ==> oldest == ttl[t].nextSendAt
      {
        var x := ttl[candidate];
        if QuotaReached(config, x) || x.nextSendAt > now || (t != 0 && x.nextSendAt >= oldest) { continue; }
        t, oldest := candidate, x.nextSendAt;
      }
    }

    method ArmDue(now: int, t: nat)
      requires Shape(State()) && Due(State(), now, t)
      modifies this`ttl
      ensures State() == Arm(old(State()), now, t)
    {
      var x := ttl[t];
      var lateness := now - x.nextSendAt;
      if lateness != 0 {
        var k := x.counters;
        x := x.(counters := k.(
          lateSlots := k.lateSlots + 1,
          latenessTotal := k.latenessTotal + lateness,
          latenessMax := Max(k.latenessMax, lateness)));
      }
      var next := StepPast(x.nextSendAt, now);
      ttl := ttl[t := x.(nextSendAt := next)];
    }

    /** Add whole intervals, at least one, until past `now`. */
    method StepPast(at: int, now: int) returns (next: int)
      requires 1 <= config.intervalMs && at <= now
      ensures next == NextCell(at, config.intervalMs, now)
    {
      next := at + config.intervalMs;
      ghost var n := 1;
      while next <= now
        invariant 1 <= n && next == at + config.intervalMs * n
        invariant next - config.intervalMs <= now
        decreases now - next
      {
        next := next + config.intervalMs;
        n := n + 1;
        assert config.intervalMs * n == config.intervalMs * (n - 1) + config.intervalMs;
      }
      FirstPast(at, config.intervalMs, now, n);
    }

    method IsBlocked(t: nat) returns (full: bool)
      requires t < |ttl|
      ensures full == Blocked(State(), t)
    {
      var x := ttl[t];
      var logicalFull := x.counters.inFlight + x.reserved >= config.maxInflightPerTtl
                      || logicalInflight + reserved >= config.maxInflight;
      var transportFull := x.counters.transportOutstanding + x.reserved >= config.maxTransportPerTtl
                        || transportOutstanding + reserved >= config.maxTransport;
      full := logicalFull || transportFull;
    }

    method NoteSkipped(t: nat)
      requires Shape(State()) && t < |ttl|
      modifies this`ttl
      ensures State() == Skip(old(State()), t)
    {
      var x := ttl[t];
      ttl := ttl[t := x.(counters := x.counters.(schedulerSkipped := x.counters.schedulerSkipped + 1))];
    }

    method HoldSlot(now: int, t: nat) returns (token: Token)
      requires Shape(State()) && ActiveTtl(State(), t)
      modifies this
      ensures State() == Grant(old(State()), now, t)
      ensures token == NextToken(old(State()), t)
    {
      sequence := sequence + 1;
      token := Token(session, epoch, sequence, t);
      if sequence !in records {
        records := records[sequence := Record(token, Reserved, 0)];
      }
      ttl := ttl[t := ttl[t].(reserved := ttl[t].reserved + 1)];
      reserved := reserved + 1;
      nextGlobalSendAt := now + Spacing(config);
    }

    // ----- one probe

    method MarkIssued(token: Token, at: int) returns (ok: bool)
      requires Ok()
      modifies this
      ensures Ok() && State() == SchedulerModel.MarkIssued(old(State()), token, at)
      ensures ok == HoldsSlot(old(State()), token)
    {
      if !HoldsSlotNow(token) { return false; }
      MarkIssuedKeepsValid(State(), token, at);
      Issue(token, at);
      return true;
    }

    function HoldsSlotNow(token: Token): (b: bool)
      reads this
      ensures b == HoldsSlot(State(), token)
    {
      token.sequence in records && records[token.sequence].token == token
      && records[token.sequence].state == Reserved
    }

    method Issue(token: Token, at: int)
      requires Shape(State()) && HoldsSlot(State(), token)
      modifies this
      ensures State() == SchedulerModel.MarkIssued(old(State()), token, at)
    {
      var x := ttl[token.ttl];
      var k := x.counters;
      ttl := ttl[token.ttl := x.(
        reserved := x.reserved - 1,
        counters := k.(
          sent := k.sent + 1, inFlight := k.inFlight + 1,
          transportOutstanding := k.transportOutstanding + 1))];
      reserved := reserved - 1;
      logicalInflight := logicalInflight + 1;
      transportOutstanding := transportOutstanding + 1;
      records := records[token.sequence := records[token.sequence].(
        state := Issued, deadline := at + config.timeoutMs)];
    }

    method MarkIssueFailed(token: Token) returns (ok: bool)
      requires Ok()
      modifies this
      ensures Ok() && State() == SchedulerModel.MarkIssueFailed(old(State()), token)
      ensures ok == HoldsSlot(old(State()), token)
    {
      if !HoldsSlotNow(token) { return false; }
      ReleaseKeepsValid(State(), token, true);
      ReleaseSlot(token, true);
      return true;
    }

    method MarkCached(token: Token) returns (ok: bool)
      requires Ok()
      modifies this
      ensures Ok() && State() == SchedulerModel.MarkCached(old(State()), token)
      ensures ok == HoldsSlot(old(State()), token)
    {
      if !HoldsSlotNow(token) { return false; }
      ReleaseKeepsValid(State(), token, false);
      ReleaseSlot(token, false);
      return true;
    }

    method ReleaseSlot(token: Token, failed: bool)
      requires Shape(State()) && HoldsSlot(State(), token)
      modifies this
      ensures State() == Release(old(State()), token, failed)
    {
      var x := ttl[token.ttl];
      var k := x.counters;
      if failed {
        k := k.(localErrors := k.localErrors + 1);
      } else {
        k := k.(cacheSkipped := k.cacheSkipped + 1);
      }
      ttl := ttl[token.ttl := x.(reserved := x.reserved - 1, counters := k)];
      reserved := reserved - 1;
      records := records - {token.sequence};
    }

    method Expire(now: int) returns (expired: seq<Token>)
      requires Ok()
      modifies this
      ensures Ok() && State() == SchedulerModel.Expire(old(State()), now)
      ensures Lists(expired, old(records), Overdue(old(State()), now))
    {
      SweepKeepsValid(State(), records.Keys, Expiring(now));
      KeysAreSequences(State());
      assert Overdue(State(), now) * records.Keys == Overdue(State(), now);
      expired := ExpireRecords(now);
    }

    method ExpireRecords(now: int) returns (expired: seq<Token>)
      requires Shape(State())
      requires forall k | k in records :: records[k].token.sequence == k
      modifies this
      ensures State() == SweepAll(old(State()), Expiring(now))
      ensures ListsOverdue(expired, old(State()), now, old(records).Keys)
    {
      expired := [];
      ghost var s, done := State(), {};
      var todo := records.Keys;
      SweepNothing(s, Expiring(now));
      while todo != {}
        invariant todo !! done && todo + done == s.records.Keys
        invariant State() == SweepKeys(s, done, Expiring(now))
        invariant ListsOverdue(expired, s, now, done)
        decreases todo
      {
        var k :| k in todo;
        ListsOverdueOneMore(expired, s, now, done, k);
        SweptOneMore(s.records, done, k, Expiring(now));
        var token := records[k].token;
        var late := ExpireNext(s, done, k, now);
        if late { expired := expired + [token]; }
        todo, done := todo - {k}, done + {k};
      }
      assert done == s.records.Keys;
    }

    method ExpireNext(ghost s: Sched, ghost done: set<nat>, k: nat, now: int) returns (late: bool)
      requires Shape(s) && k in s.records && k !in done && State() == SweepKeys(s, done, Expiring(now))
      modifies this
      ensures State() == SweepKeys(s, done + {k}, Expiring(now))
      ensures late <==> k in Overdue(s, now)
    {
      SweepOneMore(s, done, k, Expiring(now));
      late := ExpireRecord(k, now);
    }

    method ExpireRecord(k: nat, now: int) returns (late: bool)
      requires Shape(State()) && k in records
      modifies this
      ensures State() == Visit(old(State()), k, Expiring(now))
      ensures late == (old(records)[k].state == Issued && old(records)[k].deadline <= now)
    {
      var r := records[k];
      if r.state != Issued || r.deadline > now { return false; }
      var x := ttl[r.token.ttl];
      var c := x.counters;
      ttl := ttl[r.token.ttl := x.(counters := c.(
        completed := c.completed + 1, timedOut := c.timedOut + 1, inFlight := c.inFlight - 1))];
      logicalInflight := logicalInflight - 1;
      records := records[k := r.(state := TimedOut)];
      return true;
    }

    method Complete(token: Token, kind: CompletionKind, at: int) returns (d: Disposition)
      requires Ok()
      modifies this
      ensures Ok() && State() == SchedulerModel.Complete(old(State()), token, kind, at)
      ensures d == Verdict(old(State()), token, kind, at)
    {
      CompleteKeepsValid(State(), token, kind, at);
      if !(token.sequence in records && records[token.sequence].token == token)
         || records[token.sequence].state == Reserved { return UnknownToken; }
      d := Finish(token, kind, at);
    }

    method Finish(token: Token, kind: CompletionKind, at: int) returns (d: Disposition)
      requires Shape(State()) && Matches(State(), token) && records[token.sequence].state != Reserved
      modifies this
      ensures State() == SchedulerModel.Complete(old(State()), token, kind, at)
      ensures d == Verdict(old(State()), token, kind, at)
    {
      var r := records[token.sequence];
      var k;
      d, k := Rate(r, ttl[token.ttl].counters, kind, at);
      if r.state == Issued { logicalInflight := logicalInflight - 1; }
      Forget(token, k);
    }

    /** Erase the record of a completed probe; its TTL gets the counters `c`. */
    method Forget(token: Token, c: Counters)
      requires token.ttl < |ttl|
      modifies this`records, this`ttl, this`transportOutstanding
      ensures records == old(records) - {token.sequence}
      ensures ttl == old(ttl)[token.ttl := old(ttl)[token.ttl].(
        counters := c.(transportOutstanding := Guarded(c.transportOutstanding)))]
      ensures transportOutstanding == Guarded(old(transportOutstanding))
    {
      var k := c;
      if k.transportOutstanding != 0 { k := k.(transportOutstanding := k.transportOutstanding - 1); }
      if transportOutstanding != 0 { transportOutstanding := transportOutstanding - 1; }
      ttl := ttl[token.ttl := ttl[token.ttl].(counters := k)];
      records := records - {token.sequence};
    }

    /** The verdict on a probe that the transport held, and the counters it moves. */
    static method Rate(r: Record, c: Counters, kind: CompletionKind, at: int) returns (d: Disposition, k: Counters)
      requires r.state != Reserved
      ensures k == Score(c, d) && !d.UnknownToken?
      ensures d.WasIgnoredEpoch? <==> r.state == IgnoredEpoch
      ensures d.WasCancelled? <==> r.state == Cancelled
      ensures d.LateDiscarded? <==> r.state == TimedOut
      ensures d.LateDiscardedAfterTimeout? <==> r.state == Issued && at > r.deadline
      ensures d.AcceptedReply? <==> r.state == Issued && at <= r.deadline && kind == Reply
      ensures d.AcceptedTimeout? <==> r.state == Issued && at <= r.deadline && kind == Timeout
    {
      k := c;
      if r.state == IgnoredEpoch {
        d := WasIgnoredEpoch;
      } else if r.state == Cancelled {
        d := WasCancelled;
      } else if r.state == TimedOut {
        k := k.(lateCompletions := k.lateCompletions + 1);
        d := LateDiscarded;
      } else {
        d, k := Judge(r, c, kind, at);
      }
    }

    /** The verdict on a probe in flight, and the counters it moves. */
    static method Judge(r: Record, c: Counters, kind: CompletionKind, at: int)
      returns (d: Disposition, k: Counters)
      ensures EndsFlight(d) && k == Score(c, d)
      ensures d.LateDiscardedAfterTimeout? <==> at > r.deadline
      ensures d.AcceptedReply? <==> at <= r.deadline && kind == Reply
      ensures d.AcceptedTimeout? <==> at <= r.deadline && kind == Timeout
    {
      k := c.(inFlight := c.inFlight - 1);
      if at > r.deadline {
        k := k.(completed := k.completed + 1, timedOut := k.timedOut + 1,
                lateCompletions := k.lateCompletions + 1);
        return LateDiscardedAfterTimeout, k;
      }
      match kind
      case Reply =>
        k := k.(completed := k.completed + 1, received := k.received + 1);
        d := AcceptedReply;
      case Timeout =>
        k := k.(completed := k.completed + 1, timedOut := k.timedOut + 1);
        d := AcceptedTimeout;
      case LocalError =>
        k := k.(localErrors := k.localErrors + 1);
        d := AcceptedLocalError;
    }

    // ----- observations

    method AllQuotasReached() returns (all: bool)
      requires Shape(State())
      ensures all == QuotasReached(State())
    {
      if config.probesPerTtl == 0 { return false; }
      for t := config.firstTtl to activeLastTtl + 1
        invariant forall u | config.firstTtl <= u < t :: QuotaReached(config, ttl[u])
      {
        if !QuotaReached(config, ttl[t]) { return false; }
      }
      return true;
    }

    method NextWakeAt() returns (wake: Option<int>)
      requires Shape(State())
      ensures IsWake(State(), wake)
    {
      wake := None;
      if active {
        var nextSend: Option<int> := None;
        for t := config.firstTtl to activeLastTtl + 1
          invariant nextSend == NextSend(State(), t - 1)
        {
          if !QuotaReached(config, ttl[t]) { nextSend := Earlier(nextSend, ttl[t].nextSendAt); }
        }
        if nextSend.Some? { wake := Earlier(wake, Max(nextSend.value, nextGlobalSendAt)); }
      }
      ghost var seen := {};
      var todo := records.Keys;
      while todo != {}
        invariant todo !! seen && todo + seen == records.Keys
        invariant IsWakeOver(State(), wake, Flying(State()) * seen)
        decreases todo
      {
        var k :| k in todo;
        WakeOverOneMore(State(), wake, seen, k);
        if records[k].state == Issued { wake := Earlier(wake, records[k].deadline); }
        todo, seen := todo - {k}, seen + {k};
      }
      assert Flying(State()) * seen == Flying(State());
    }
  }
}
