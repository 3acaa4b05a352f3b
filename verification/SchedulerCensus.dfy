/** Every operation keeps the census: each number the scheduler updates step by step stays equal to a
    count over its record table. */
module SchedulerCensus {
  import opened Basics
  import opened SchedulerModel

  // ----- passes over the table

  lemma CountSwept(m: map<nat, Record>, d: set<nat>, w: Sweep, c: Class, sc: Scope)
    requires !c.Late?
    ensures Count(Swept(m, d, w), c, sc)
         == Count(m, c, sc) - (if c.Transport? then 0 else Left(m, d, w, c, sc))
  {
    var m', gone := Swept(m, d, w), Leavers(m, d, w, c, sc);
    forall k ensures k in Members(m', c, sc) <==> k in Members(m, c, sc) && k !in gone {
      if k in m {
        if k in d { FateKeepsPlace(w, m[k], c, sc); }
      }
    }
    assert Members(m', c, sc) == Members(m, c, sc) - gone;
    assert gone <= Members(m, c, sc);
    if c.Transport? {
      forall k | k in m ensures !Leaves(w, m[k], c) { FateKeepsPlace(w, m[k], c, sc); }
      assert gone == {};
    }
  }

  /** A pass never moves a record into a class it was not in, save from flight into lateness, nor out of
      the transport. */
  lemma FateKeepsPlace(w: Sweep, r: Record, c: Class, sc: Scope)
    ensures Fate(w, r).Some? ==> Fate(w, r).value.token == r.token
    ensures !c.Late? && Fate(w, r).Some? && Counts(Fate(w, r).value, c, sc) ==> Counts(r, c, sc)
    ensures c.Transport? ==> !Leaves(w, r, c)
  {
  }

  /** What an expiry takes out of flight is exactly what becomes late. */
  lemma CountLateExpired(m: map<nat, Record>, now: int, sc: Scope)
    ensures Count(Swept(m, m.Keys, Expiring(now)), Late, sc)
         == Count(m, Late, sc) + Left(m, m.Keys, Expiring(now), InFlight, sc)
  {
    var m', was := Swept(m, m.Keys, Expiring(now)), Members(m, Late, sc);
    var gone := Leavers(m, m.Keys, Expiring(now), InFlight, sc);
    forall k ensures k in Members(m', Late, sc) <==> k in was || k in gone {}
    assert Members(m', Late, sc) == was + gone;
    assert was !! gone;
  }

  lemma CountLateOtherwise(m: map<nat, Record>, w: Sweep, sc: Scope)
    requires !w.Expiring?
    ensures Count(Swept(m, m.Keys, w), Late, sc) == if w.Retiring? then 0 else Count(m, Late, sc)
  {
    assert Members(Swept(m, m.Keys, w), Late, sc) == if w.Retiring? then {} else Members(m, Late, sc);
  }

  lemma KeysAreSequences(s: Sched)
    requires Valid(s)
    ensures forall k | k in s.records :: s.records[k].token.sequence == k
  {
    forall k | k in s.records ensures s.records[k].token.sequence == k { assert RecordOk(s, k); }
  }

  lemma SweepNothing(s: Sched, w: Sweep)
    requires Shape(s)
    ensures SweepKeys(s, {}, w) == s
  {
    forall c, sc ensures Left(s.records, {}, w, c, sc) == 0 {
      assert Leavers(s.records, {}, w, c, sc) == {};
    }
    assert Swept(s.records, {}, w) == s.records;
    assert SweepKeys(s, {}, w).ttl == s.ttl;
  }

  lemma LeftOneMore(m: map<nat, Record>, d: set<nat>, k: nat, w: Sweep, c: Class, sc: Scope)
    requires k in m && k !in d
    ensures Left(m, d + {k}, w, c, sc) == Left(m, d, w, c, sc) + One(Counts(m[k], c, sc) && Leaves(w, m[k], c))
  {
    var before, after := Leavers(m, d, w, c, sc), Leavers(m, d + {k}, w, c, sc);
    forall j | j != k ensures j in before <==> j in after {}
    assert after - {k} == before;
    SizeWithout(after, k);
  }

  lemma SweptOneMore(m: map<nat, Record>, d: set<nat>, k: nat, w: Sweep)
    requires k in m && k !in d
    ensures k in Swept(m, d, w) && Swept(m, d, w)[k] == m[k]
    ensures Swept(m, d + {k}, w)
         == if Fate(w, m[k]).Some? then Swept(m, d, w)[k := Fate(w, m[k]).value] else Swept(m, d, w) - {k}
  {
  }

  lemma SweepTtlOneMore(x: TtlState, m: map<nat, Record>, d: set<nat>, k: nat, w: Sweep, t: nat)
    requires k in m && k !in d
    ensures SweepTtl(x, m, d + {k}, w, t)
         == if m[k].token.ttl == t
            then Depart(SweepTtl(x, m, d, w, t), w, One(Leaves(w, m[k], InFlight)), One(Leaves(w, m[k], Held)))
            else SweepTtl(x, m, d, w, t)
  {
    LeftOneMore(m, d, k, w, InFlight, At(t));
    LeftOneMore(m, d, k, w, Held, At(t));
  }

  /** A pass may visit the records in any order. */
  lemma SweepOneMore(s: Sched, d: set<nat>, k: nat, w: Sweep)
    requires Shape(s) && k in s.records && k !in d
    ensures k in SweepKeys(s, d, w).records && SweepKeys(s, d, w).records[k] == s.records[k]
    ensures SweepKeys(s, d + {k}, w) == Visit(SweepKeys(s, d, w), k, w)
  {
    SweptOneMore(s.records, d, k, w);
    LeftOneMore(s.records, d, k, w, InFlight, Anywhere);
    LeftOneMore(s.records, d, k, w, Held, Anywhere);
    var after, visited := SweepKeys(s, d + {k}, w), Visit(SweepKeys(s, d, w), k, w);
    forall t: nat | t < |s.ttl| ensures after.ttl[t] == visited.ttl[t] {
      SweepTtlOneMore(s.ttl[t], s.records, d, k, w, t);
    }
    assert after.ttl == visited.ttl;
  }

  lemma SweepKeepsCensus(s: Sched, d: set<nat>, w: Sweep)
    requires Shape(s) && Census(s)
    ensures Census(SweepKeys(s, d, w))
  {
    forall c: Class, sc: Scope | !c.Late? {
      CountSwept(s.records, d, w, c, sc);
    }
  }

  lemma SweepKeepsValid(s: Sched, d: set<nat>, w: Sweep)
    requires Valid(s)
    ensures Valid(SweepKeys(s, d, w))
  {
    SweepKeepsCensus(s, d, w);
  }

  /** A pass may leave out the records it would not change. */
  lemma SweepMoversOnly(s: Sched, d: set<nat>, w: Sweep)
    requires Shape(s) && d <= s.records.Keys
    requires forall k | k in s.records && k !in d :: Fate(w, s.records[k]) == Some(s.records[k])
    ensures SweepKeys(s, d, w) == SweepAll(s, w)
  {
    var m := s.records;
    assert Swept(m, d, w) == Swept(m, m.Keys, w);
    forall c, sc ensures Left(m, d, w, c, sc) == Left(m, m.Keys, w, c, sc) {
      assert Leavers(m, d, w, c, sc) == Leavers(m, m.Keys, w, c, sc);
    }
    assert SweepKeys(s, d, w).ttl == SweepAll(s, w).ttl;
  }

  lemma RetiredAreIgnored(s: Sched, k: nat)
    requires Shape(s)
    ensures k in SweepAll(s, Retiring).records <==> k in s.records && s.records[k].state != Reserved
    ensures k in SweepAll(s, Retiring).records ==>
              SweepAll(s, Retiring).records[k] == s.records[k].(state := IgnoredEpoch)
  {
  }

  /** After retiring, nothing is held or in flight; the transport still owes what it owed. */
  lemma RetiredCounts(s: Sched, sc: Scope)
    requires Shape(s)
    ensures Count(SweepAll(s, Retiring).records, InFlight, sc) == 0
    ensures Count(SweepAll(s, Retiring).records, Held, sc) == 0
    ensures Count(SweepAll(s, Retiring).records, Transport, sc) == Count(s.records, Transport, sc)
  {
    var m := SweepAll(s, Retiring).records;
    forall k | k in m ensures m[k].state == IgnoredEpoch { RetiredAreIgnored(s, k); }
    assert Members(m, InFlight, sc) == {} && Members(m, Held, sc) == {};
    CountSwept(s.records, s.records.Keys, Retiring, Transport, sc);
  }

  // ----- lifecycle

  lemma RestartKeepsCensus(s: Sched, epoch: nat, now: int)
    requires Shape(s) && Census(s)
    ensures Census(Restart(s, epoch, now))
  {
    SweepKeepsCensus(s, s.records.Keys, Retiring);
    var r := SweepAll(s, Retiring);
    forall sc { RetiredCounts(s, sc); }
    var s' := Restart(s, epoch, now);
    assert s'.records == r.records;
    forall t | s.config.firstTtl <= t <= s.config.lastTtl
      ensures s'.ttl[t].counters.inFlight == Count(s'.records, InFlight, At(t))
           && s'.ttl[t].reserved == Count(s'.records, Held, At(t))
           && s'.ttl[t].counters.transportOutstanding == Count(s'.records, Transport, At(t))
    {
      RetiredCounts(s, At(t));
    }
  }

  lemma RestartKeepsValid(s: Sched, epoch: nat, now: int)
    requires Valid(s)
    ensures Valid(Restart(s, epoch, now))
  {
    RestartKeepsCensus(s, epoch, now);
    var s' := Restart(s, epoch, now);
    forall k | k in s'.records ensures RecordOk(s', k) {
      RetiredAreIgnored(s, k);
      assert RecordOk(s, k);
    }
  }

  /** Starting keeps the census, whatever the transport still owes. */
  lemma StartKeepsCensus(s: Sched, session: nat, epoch: nat, now: int)
    requires Shape(s) && Census(s)
    ensures Census(Start(s, session, epoch, now))
  {
    RestartKeepsCensus(s.(session := session, sequence := 0, active := true), epoch, now);
  }

  /** But it resets the sequence, and a record left outstanding then carries a key that has yet to be
      handed out: keys stay below the sequence exactly when the transport owes nothing. */
  lemma StartValidIff(s: Sched, session: nat, epoch: nat, now: int)
    requires Valid(s)
    ensures Valid(Start(s, session, epoch, now)) <==> s.transportOutstanding == 0
  {
    var b := s.(session := session, sequence := 0, active := true);
    StartKeepsCensus(s, session, epoch, now);
    var s' := Start(s, session, epoch, now);
    var owed := Members(s.records, Transport, Anywhere);
    if s.transportOutstanding == 0 {
      assert owed == {};
      forall k ensures k !in s'.records { RetiredAreIgnored(b, k); assert k !in owed; }
    } else {
      assert owed != {};
      var k :| k in owed;
      RetiredAreIgnored(b, k);
      assert k in s'.records && s.records[k] == b.records[k];
      assert RecordOk(s, k);
      assert !RecordOk(s', k);
    }
  }

  lemma FreshIsValid(c: Config)
    ensures Valid(Fresh(c))
  {
    var s := Fresh(c);
    forall cl, sc ensures Count(s.records, cl, sc) == 0 { assert Members(s.records, cl, sc) == {}; }
  }

  lemma SetLastTtlKeepsCensus(s: Sched, last: nat, now: int)
    requires Shape(s) && Census(s)
    ensures Census(SetLastTtl(s, last, now))
  {
    var s' := SetLastTtl(s, last, now);
    forall t | s.config.firstTtl <= t <= s.config.lastTtl
      ensures s'.ttl[t].counters == s.ttl[t].counters && s'.ttl[t].reserved == s.ttl[t].reserved {}
  }

  lemma SetLastTtlKeepsValid(s: Sched, last: nat, now: int)
    requires Valid(s)
    ensures Valid(SetLastTtl(s, last, now))
  {
    var s' := SetLastTtl(s, last, now);
    SetLastTtlKeepsCensus(s, last, now);
    forall k | k in s'.records ensures RecordOk(s', k) { assert RecordOk(s, k); }
  }

  // ----- reserving

  lemma ArmKeepsCensus(s: Sched, now: int, t: nat)
    requires Shape(s) && Census(s) && Due(s, now, t)
    ensures Census(Arm(s, now, t))
  {
  }

  lemma ArmKeepsValid(s: Sched, now: int, t: nat)
    requires Valid(s) && Due(s, now, t)
    ensures Valid(Arm(s, now, t))
  {
    var s' := Arm(s, now, t);
    ArmKeepsCensus(s, now, t);
    forall k | k in s'.records ensures RecordOk(s', k) { assert RecordOk(s, k); }
  }

  lemma SkipKeepsCensus(s: Sched, t: nat)
    requires Shape(s) && Census(s) && t < |s.ttl|
    ensures Census(Skip(s, t))
  {
  }

  lemma SkipKeepsValid(s: Sched, t: nat)
    requires Valid(s) && t < |s.ttl|
    ensures Valid(Skip(s, t))
  {
    var s' := Skip(s, t);
    SkipKeepsCensus(s, t);
    forall k | k in s'.records ensures RecordOk(s', k) { assert RecordOk(s, k); }
  }

  lemma NextKeyIsFree(s: Sched)
    requires Valid(s)
    ensures s.sequence + 1 !in s.records
  {
    assert s.sequence + 1 in s.records ==> RecordOk(s, s.sequence + 1);
  }

  /** A slot granted on a key that is still in the table is counted as held, while no record holds it. */
  lemma GrantKeepsCensusIff(s: Sched, now: int, t: nat)
    requires Shape(s) && Census(s) && ActiveTtl(s, t)
    ensures Census(Grant(s, now, t)) <==> s.sequence + 1 !in s.records
  {
    var s' := Grant(s, now, t);
    if s.sequence + 1 in s.records {
      assert s'.reserved == Count(s'.records, Held, Anywhere) + 1;
    } else {
      forall c, sc { CountPut(s.records, s'.sequence, Record(NextToken(s, t), Reserved, 0), c, sc); }
    }
  }

  lemma GrantKeepsValid(s: Sched, now: int, t: nat)
    requires Valid(s) && ActiveTtl(s, t)
    ensures Valid(Grant(s, now, t))
  {
    var s' := Grant(s, now, t);
    NextKeyIsFree(s);
    GrantKeepsCensusIff(s, now, t);
    forall k | k in s'.records ensures RecordOk(s', k) {
      if k != s'.sequence { assert RecordOk(s, k); }
    }
  }

  lemma AttemptKeepsValid(s: Sched, now: int, t: nat)
    requires Valid(s) && Due(s, now, t)
    ensures Valid(Attempt(s, now, t).0)
  {
    ArmKeepsValid(s, now, t);
    var a := Arm(s, now, t);
    if Blocked(a, t) {
      SkipKeepsValid(a, t);
    } else {
      GrantKeepsValid(a, now, t);
    }
  }

  lemma {:induction false} ReserveLoopKeepsValid(s: Sched, now: int)
    requires Valid(s)
    ensures Valid(ReserveLoop(s, now).0)
    decreases |DueSet(s, now)|
  {
    var t := LeastDue(s, now, s.activeLastTtl);
    if t != 0 {
      AttemptKeepsValid(s, now, t);
      if Attempt(s, now, t).1.None? {
        AttemptLeavesDueSet(s, now, t);
        ReserveLoopKeepsValid(Attempt(s, now, t).0, now);
      }
    }
  }

  // ----- one probe

  lemma MarkIssuedKeepsCensus(s: Sched, token: Token, at: int)
    requires Shape(s) && Census(s)
    ensures Census(MarkIssued(s, token, at))
  {
    if HoldsSlot(s, token) {
      forall sc { IssuedCounts(s.records, token.sequence, Record(token, Issued, at + s.config.timeoutMs), sc); }
    }
  }

  /** Issuing a probe takes one record from the held to those in flight and with the transport. */
  lemma IssuedCounts(m: map<nat, Record>, k: nat, r: Record, sc: Scope)
    requires k in m && m[k].state == Reserved && r.state == Issued && r.token == m[k].token
    ensures
      var one := One(sc.At? ==> r.token.ttl == sc.ttl);
      && Count(m[k := r], InFlight, sc) == Count(m, InFlight, sc) + one
      && Count(m[k := r], Held, sc) == Count(m, Held, sc) - one
      && Count(m[k := r], Transport, sc) == Count(m, Transport, sc) + one
  {
    CountPut(m, k, r, InFlight, sc);
    CountPut(m, k, r, Held, sc);
    CountPut(m, k, r, Transport, sc);
  }

  lemma MarkIssuedKeepsValid(s: Sched, token: Token, at: int)
    requires Valid(s)
    ensures Valid(MarkIssued(s, token, at))
  {
    MarkIssuedKeepsCensus(s, token, at);
    if HoldsSlot(s, token) {
      var s' := MarkIssued(s, token, at);
      forall k | k in s'.records ensures RecordOk(s', k) { assert RecordOk(s, k); }
    }
  }

  lemma ReleaseKeepsCensus(s: Sched, token: Token, failed: bool)
    requires Shape(s) && Census(s) && HoldsSlot(s, token)
    ensures Census(Release(s, token, failed))
  {
    forall c, sc { CountDrop(s.records, token.sequence, c, sc); }
  }

  lemma ReleaseKeepsValid(s: Sched, token: Token, failed: bool)
    requires Valid(s) && HoldsSlot(s, token)
    ensures Valid(Release(s, token, failed))
  {
    var s' := Release(s, token, failed);
    ReleaseKeepsCensus(s, token, failed);
    forall k | k in s'.records ensures RecordOk(s', k) { assert RecordOk(s, k); }
  }

  /** Whenever a completion meets a record that the transport holds, both of its counters are positive:
      the guards of the transport decrements never act. */
  lemma TransportGuardsNeverAct(s: Sched, token: Token, kind: CompletionKind, at: int)
    requires Shape(s) && Census(s) && Verdict(s, token, kind, at) != UnknownToken
    ensures s.ttl[token.ttl].counters.transportOutstanding > 0 && s.transportOutstanding > 0
    ensures EndsFlight(Verdict(s, token, kind, at)) ==>
              s.ttl[token.ttl].counters.inFlight > 0 && s.logicalInflight > 0
  {
    var k := token.sequence;
    forall c, sc | Counts(s.records[k], c, sc) ensures Count(s.records, c, sc) > 0 {
      assert k in Members(s.records, c, sc);
    }
    assert Counts(s.records[k], Transport, At(token.ttl)) && Counts(s.records[k], Transport, Anywhere);
    if EndsFlight(Verdict(s, token, kind, at)) {
      assert Counts(s.records[k], InFlight, At(token.ttl)) && Counts(s.records[k], InFlight, Anywhere);
    }
  }

  lemma CompleteKeepsCensus(s: Sched, token: Token, kind: CompletionKind, at: int)
    requires Shape(s) && Census(s)
    ensures Census(Complete(s, token, kind, at))
  {
    if Verdict(s, token, kind, at) != UnknownToken {
      TransportGuardsNeverAct(s, token, kind, at);
      forall c, sc { CountDrop(s.records, token.sequence, c, sc); }
    }
  }

  lemma CompleteKeepsValid(s: Sched, token: Token, kind: CompletionKind, at: int)
    requires Valid(s)
    ensures Valid(Complete(s, token, kind, at))
  {
    CompleteKeepsCensus(s, token, kind, at);
    if Verdict(s, token, kind, at) != UnknownToken {
      var s' := Complete(s, token, kind, at);
      forall k | k in s'.records ensures RecordOk(s', k) { assert RecordOk(s, k); }
    }
  }
}
