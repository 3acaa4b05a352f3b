/** When the loop has to wake, and when the order of an expiry and a completion matters. */
module SchedulerWake {
  import opened Basics
  import opened SchedulerModel
  import opened SchedulerCensus
  import opened SchedulerRuns
  import opened SchedulerFairness

  // ----- exact wake-up

  lemma {:induction false} NextSendIsLeast(s: Sched, hi: nat)
    requires Shape(s) && hi <= s.activeLastTtl
    ensures
      var o := NextSend(s, hi);
      && (o.None? <==> forall u | s.config.firstTtl <= u <= hi :: QuotaReached(s.config, s.ttl[u]))
      && (o.Some? ==>
            && (forall u | s.config.firstTtl <= u <= hi && !QuotaReached(s.config, s.ttl[u]) ::
                  o.value <= s.ttl[u].nextSendAt)
            && (exists u: nat :: s.config.firstTtl <= u <= hi && !QuotaReached(s.config, s.ttl[u])
                  && s.ttl[u].nextSendAt == o.value))
  {
    if hi < s.config.firstTtl {
    } else {
      NextSendIsLeast(s, hi - 1);
    }
  }

  lemma NothingOverdue(s: Sched, now: int)
    requires Shape(s) && Overdue(s, now) == {}
    ensures Expire(s, now) == s
  {
    forall k | k in s.records ensures Fate(Expiring(now), s.records[k]) == Some(s.records[k]) {
      assert k !in Overdue(s, now);
    }
    SweepNothing(s, Expiring(now));
    SweepMoversOnly(s, {}, Expiring(now));
  }

  /** Before the wake-up instant there is nothing to do: neither call changes or returns anything. */
  lemma NothingBeforeWake(s: Sched, w: Option<int>, now: int)
    requires Shape(s) && IsWake(s, w) && (w.Some? ==> now < w.value)
    ensures Overdue(s, now) == {} && Expire(s, now) == s
    ensures ReserveDue(s, now) == (s, Batch([], []))
  {
    assert forall k | k in Overdue(s, now) :: k in Flying(s);
    assert Overdue(s, now) == {};
    NothingOverdue(s, now);
    NextSendIsLeast(s, s.activeLastTtl);
    LeastDueIsLeast(s, now, s.activeLastTtl);
  }

  /** At the wake-up instant there is something to do: a probe expires, or a TTL is served. */
  lemma SomethingAtWake(s: Sched, w: Option<int>)
    requires Shape(s) && IsWake(s, w) && w.Some?
    ensures
      var b := ReserveDue(s, w.value).1;
      Overdue(s, w.value) != {} || b.slots != [] || b.skipped != []
  {
    if SendWake(s) == w {
      NextSendIsLeast(s, s.activeLastTtl);
      LoopChooses(s, w.value);
      var u: nat :| ActiveTtl(s, u) && !QuotaReached(s.config, s.ttl[u])
                 && NextSend(s, s.activeLastTtl) == Some(s.ttl[u].nextSendAt);
      assert Due(s, w.value, u);
    } else {
      var k :| k in Flying(s) && s.records[k].deadline == w.value;
      assert k in Overdue(s, w.value);
    }
  }

  /** There is no wake-up exactly when nothing is in flight and nothing more will be sent. */
  lemma NoWakeIff(s: Sched, w: Option<int>)
    requires Shape(s) && IsWake(s, w)
    ensures w.None? <==> Flying(s) == {} && (!s.active || QuotasReached(s))
  {
    NextSendIsLeast(s, s.activeLastTtl);
  }

  predicate Awaits(s: Sched, now: int)
    requires Shape(s)
  {
    && (SendWake(s).Some? ==> now < SendWake(s).value)
    && (forall k | k in Flying(s) :: now < s.records[k].deadline)
  }

  lemma AwaitsWake(s: Sched, now: int, w: Option<int>)
    requires Shape(s) && IsWake(s, w) && w.Some?
    ensures Awaits(s, now) <==> now < w.value
  {
  }

  lemma ExpiredAreOut(s: Sched, now: int)
    requires Shape(s)
    ensures forall k | k in Flying(Expire(s, now)) :: now < Expire(s, now).records[k].deadline
  {
  }

  /** After expiring and reserving at `now`, the next wake-up is strictly later: the loop does not spin. */
  lemma PassMovesWakeOn(s: Sched, now: int)
    requires Valid(s)
    ensures Awaits(ReserveDue(Expire(s, now), now).0, now)
  {
    var s1 := Expire(s, now);
    SweepKeepsValid(s, s.records.Keys, Expiring(now));
    ExpiredAreOut(s, now);
    var (o, b) := ReserveDue(s1, now);
    if s1.active && s1.nextGlobalSendAt <= now {
      ReserveLoopHolds(s1, now);
      ReserveKeepsConfig(s1, now);
      NextSendIsLeast(o, o.activeLastTtl);
      if b.slots == [] { AllServed(s1, now); }
      forall k | k in Flying(o) ensures now < o.records[k].deadline {
        assert k in Flying(s1);
      }
    }
  }

  /** A call that grants nothing leaves no TTL due. */
  lemma AllServed(s: Sched, now: int)
    requires Valid(s) && ReserveLoop(s, now).1.slots == []
    ensures
      var o := ReserveLoop(s, now).0;
      forall u: nat | ActiveTtl(o, u) && !QuotaReached(o.config, o.ttl[u]) :: now < o.ttl[u].nextSendAt
  {
    var (o, b) := ReserveLoop(s, now);
    LoopChooses(s, now);
    ReserveKeepsConfig(s, now);
    forall u: nat | ActiveTtl(o, u) && !QuotaReached(o.config, o.ttl[u]) ensures now < o.ttl[u].nextSendAt {
      LoopSettles(s, now, u);
      if u in b.skipped { NextCellPast(s.ttl[u].nextSendAt, s.config.intervalMs, now); }
    }
  }

  /** Nor does settling the granted slot bring the wake-up back. */
  lemma SettlingKeepsAwaiting(s: Sched, token: Token, now: int)
    requires Valid(s) && Awaits(s, now)
    ensures Awaits(MarkIssued(s, token, now), now)
    ensures Awaits(MarkIssueFailed(s, token), now) && Awaits(MarkCached(s, token), now)
  {
    var i, f, c := MarkIssued(s, token, now), MarkIssueFailed(s, token), MarkCached(s, token);
    SameSendWake(s, i, s.activeLastTtl);
    SameSendWake(s, f, s.activeLastTtl);
    SameSendWake(s, c, s.activeLastTtl);
    forall k | k in Flying(i) ensures now < i.records[k].deadline {
      if k != token.sequence { assert k in Flying(s); }
    }
    forall k | k in Flying(f) ensures now < f.records[k].deadline { assert k in Flying(s); }
    forall k | k in Flying(c) ensures now < c.records[k].deadline { assert k in Flying(s); }
  }

  lemma {:induction false} SameSendWake(s: Sched, s': Sched, hi: nat)
    requires Shape(s) && Shape(s') && hi <= s.activeLastTtl
    requires s'.config == s.config && s'.activeLastTtl == s.activeLastTtl && |s'.ttl| == |s.ttl|
    requires forall u | 0 <= u < |s.ttl| ::
               s'.ttl[u].nextSendAt == s.ttl[u].nextSendAt
               && (QuotaReached(s.config, s'.ttl[u]) <==> QuotaReached(s.config, s.ttl[u]))
    ensures NextSend(s', hi) == NextSend(s, hi)
  {
    if hi < s.config.firstTtl {
    } else {
      SameSendWake(s, s', hi - 1);
    }
  }

  // ----- the race between an expiry and a completion

  predicate Raced(s: Sched, token: Token, at: int, now: int) {
    && Matches(s, token) && s.records[token.sequence].state == Issued
    && at <= s.records[token.sequence].deadline <= now
  }

  /** Expiring and completing can be done in either order, to the same state, exactly unless the expiry
      comes at or after the deadline and the completion happened in time. */
  lemma ExpireCompleteCommuteIff(s: Sched, token: Token, kind: CompletionKind, at: int, now: int)
    requires Valid(s)
    ensures Complete(Expire(s, now), token, kind, at) == Expire(Complete(s, token, kind, at), now)
       <==> !Raced(s, token, at, now)
  {
    if Raced(s, token, at, now) {
      RaceCounts(s, token, kind, at, now);
    } else {
      UnracedCommute(s, token, kind, at, now);
    }
  }

  lemma UnracedCommute(s: Sched, token: Token, kind: CompletionKind, at: int, now: int)
    requires Valid(s) && !Raced(s, token, at, now)
    ensures Complete(Expire(s, now), token, kind, at) == Expire(Complete(s, token, kind, at), now)
  {
    if Verdict(s, token, kind, at) == UnknownToken {
      assert Verdict(Expire(s, now), token, kind, at) == UnknownToken;
    } else {
      var k := token.sequence;
      var e := SweepKeys(s, s.records.Keys - {k}, Expiring(now));
      SweepOneMore(s, s.records.Keys - {k}, k, Expiring(now));
      assert s.records.Keys - {k} + {k} == s.records.Keys;
      CompleteThenExpire(s, token, kind, at, now);
      CompleteAfterVisit(e, token, kind, at, now);
    }
  }

  /** When the race is lost, the late completion is counted; when it is won, it is not. */
  lemma RaceCounts(s: Sched, token: Token, kind: CompletionKind, at: int, now: int)
    requires Valid(s) && Raced(s, token, at, now)
    ensures Complete(Expire(s, now), token, kind, at).ttl[token.ttl].counters.lateCompletions
         == s.ttl[token.ttl].counters.lateCompletions + 1
    ensures Expire(Complete(s, token, kind, at), now).ttl[token.ttl].counters.lateCompletions
         == s.ttl[token.ttl].counters.lateCompletions
  {
  }

  /** Visiting `k` and then completing it is completing it, if the completion is late or not yet due. */
  lemma CompleteAfterVisit(s: Sched, token: Token, kind: CompletionKind, at: int, now: int)
    requires Shape(s) && Verdict(s, token, kind, at) != UnknownToken && !Raced(s, token, at, now)
    ensures Complete(Visit(s, token.sequence, Expiring(now)), token, kind, at) == Complete(s, token, kind, at)
  {
  }

  lemma LeaversElsewhere(m: map<nat, Record>, k: nat, w: Sweep, c: Class, sc: Scope)
    ensures Left(m - {k}, (m - {k}).Keys, w, c, sc) == Left(m, m.Keys - {k}, w, c, sc)
  {
    assert Leavers(m - {k}, (m - {k}).Keys, w, c, sc) == Leavers(m, m.Keys - {k}, w, c, sc);
  }

  function Tally(x: TtlState, d: Disposition): TtlState {
    var k := Score(x.counters, d);
    x.(counters := k.(transportOutstanding := Guarded(k.transportOutstanding)))
  }

  lemma SweepTtlElsewhere(x: TtlState, m: map<nat, Record>, k: nat, now: int, t: nat, d: Disposition)
    ensures SweepTtl(x, m - {k}, (m - {k}).Keys, Expiring(now), t) == SweepTtl(x, m, m.Keys - {k}, Expiring(now), t)
    ensures SweepTtl(Tally(x, d), m, m.Keys - {k}, Expiring(now), t)
         == Tally(SweepTtl(x, m, m.Keys - {k}, Expiring(now), t), d)
  {
    LeaversElsewhere(m, k, Expiring(now), InFlight, At(t));
    LeaversElsewhere(m, k, Expiring(now), Held, At(t));
  }

  lemma SweptElsewhere(m: map<nat, Record>, k: nat, w: Sweep)
    ensures Swept(m - {k}, (m - {k}).Keys, w) == Swept(m, m.Keys - {k}, w) - {k}
  {
  }

  /** Completing `k` first leaves the other records to the expiry. */
  lemma CompleteThenExpire(s: Sched, token: Token, kind: CompletionKind, at: int, now: int)
    requires Valid(s) && Verdict(s, token, kind, at) != UnknownToken
    ensures Expire(Complete(s, token, kind, at), now)
         == Complete(SweepKeys(s, s.records.Keys - {token.sequence}, Expiring(now)), token, kind, at)
  {
    var k, m, w := token.sequence, s.records, Expiring(now);
    var d := Verdict(s, token, kind, at);
    var a := Expire(Complete(s, token, kind, at), now);
    var e := SweepKeys(s, m.Keys - {k}, w);
    SweptElsewhere(m, k, w);
    LeaversElsewhere(m, k, w, InFlight, Anywhere);
    LeaversElsewhere(m, k, w, Held, Anywhere);
    assert Verdict(e, token, kind, at) == d;
    var b := Complete(e, token, kind, at);
    forall t: nat | t < |s.ttl| ensures a.ttl[t] == b.ttl[t] {
      var x := if t == token.ttl then Tally(s.ttl[t], d) else s.ttl[t];
      assert a.ttl[t] == SweepTtl(x, m - {k}, (m - {k}).Keys, w, t);
      SweepTtlElsewhere(x, m, k, now, t, d);
      SweepTtlElsewhere(s.ttl[t], m, k, now, t, d);
    }
    assert a.ttl == b.ttl;
  }
}
