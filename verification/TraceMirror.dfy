/** The hop table mirrors the scheduler or is blank: after every step of every interleaving, the two agree
    once the pending commits are booked, or the table has moved to an epoch the scheduler has not seen and
    every hop of it is blank. */
module TraceTallies {
  import opened Basics
  import S = SchedulerModel
  import H = HopModel
  import T = TableModel
  import R = RouteModel
  import V = SchedulerReserve
  import opened TraceLoop

  /** The numbers of a hop that the scheduler keeps too; as integers, so that booking never stops at zero. */
  datatype Tally = Tally(
    sent: int, replies: int, timeouts: int, errors: int, post: int, inFlight: int,
    cancelled: int, skipped: int, cached: int, late: int)

  function TallyOf(h: H.Hop): Tally {
    var c := h.counters;
    Tally(c.xmit, h.stats.count, c.timedOut, c.localErrors, c.postDestination, c.inFlight,
          c.cancelled, c.schedulerSkipped, c.cacheSkipped, c.lateCompletions)
  }

  predicate EndsFlight(c: T.Commit) {
    c.Timeout? || c.Reply? || c.Cancel? || c.PostDestination? || (c.Failure? && c.wasIssued)
  }

  /** What a commit for TTL `t` means for the tally of `t`. */
  function Book(y: Tally, c: T.Commit, t: nat): Tally {
    if c.Cycles? || c.ttl != t then y else
    match c
    case Issue(_, _, _) => y.(sent := y.sent + 1, inFlight := y.inFlight + 1)
    case Timeout(_, _) => y.(timeouts := y.timeouts + 1, inFlight := y.inFlight - 1)
    case Failure(_, _, wasIssued, _) =>
      y.(errors := y.errors + 1, inFlight := y.inFlight - (if wasIssued then 1 else 0))
    case Cancel(_, _) => y.(cancelled := y.cancelled + 1, inFlight := y.inFlight - 1)
    case SkipBySchedule(_, _) => y.(skipped := y.skipped + 1)
    case SkipByCache(_, _) => y.(cached := y.cached + 1)
    case LateCompletion(_, _) => y.(late := y.late + 1)
    case PostDestination(_, _) => y.(post := y.post + 1, inFlight := y.inFlight - 1)
    case Reply(_, _, _, _, _) => y.(replies := y.replies + 1, inFlight := y.inFlight - 1)
  }

  function BookAll(y: Tally, cs: seq<T.Commit>, t: nat): Tally
    decreases |cs|
  {
    if cs == [] then y else BookAll(Book(y, cs[0], t), cs[1..], t)
  }

  /** Equal where both sides count the same thing. What the scheduler scored beyond the destination, the
      hop counts as such; so it may know of fewer replies, timeouts and errors, by exactly that many. */
  predicate Agrees(y: Tally, k: S.Counters) {
    && y.sent == k.sent && y.inFlight == k.inFlight && y.cancelled == k.cancelled
    && y.skipped == k.schedulerSkipped && y.cached == k.cacheSkipped && y.late == k.lateCompletions
    && y.replies <= k.received && y.timeouts <= k.timedOut && y.errors <= k.localErrors
    && y.replies + y.timeouts + y.errors + y.post == k.received + k.timedOut + k.localErrors
  }

  // ----- lists of commits

  function CountTtl(tokens: seq<S.Token>, t: nat): nat {
    if tokens == [] then 0 else One(tokens[0].ttl == t) + CountTtl(tokens[1..], t)
  }

  function KeysAt(tokens: seq<S.Token>, t: nat): set<nat> {
    set i | 0 <= i < |tokens| && tokens[i].ttl == t :: tokens[i].sequence
  }

  lemma KeysAtOneMore(tokens: seq<S.Token>, t: nat)
    requires tokens != []
    ensures KeysAt(tokens, t)
         == (if tokens[0].ttl == t then {tokens[0].sequence} else {}) + KeysAt(tokens[1..], t)
  {
    var rest, all := tokens[1..], KeysAt(tokens, t);
    forall k | k in KeysAt(rest, t) ensures k in all {
      var i :| 0 <= i < |rest| && rest[i].ttl == t && rest[i].sequence == k;
      assert tokens[i + 1] == rest[i];
    }
    forall k | k in all ensures (tokens[0].ttl == t && k == tokens[0].sequence) || k in KeysAt(rest, t) {
      var i :| 0 <= i < |tokens| && tokens[i].ttl == t && tokens[i].sequence == k;
      if i > 0 { assert rest[i - 1] == tokens[i]; }
    }
  }

  lemma {:induction false} CountIsSize(tokens: seq<S.Token>, t: nat)
    requires forall i, j | 0 <= i < j < |tokens| :: tokens[i].sequence != tokens[j].sequence
    ensures CountTtl(tokens, t) == |KeysAt(tokens, t)|
  {
    if tokens == [] {
      assert KeysAt(tokens, t) == {};
    } else {
      var rest := tokens[1..];
      assert forall i | 0 <= i < |rest| :: rest[i] == tokens[i + 1];
      CountIsSize(rest, t);
      KeysAtOneMore(tokens, t);
      assert tokens[0].sequence !in KeysAt(rest, t);
    }
  }

  /** A list that names the records with keys in `d` once names as many of TTL `t` as there are. */
  lemma ListedCount(tokens: seq<S.Token>, m: map<nat, S.Record>, d: set<nat>, t: nat)
    requires S.Lists(tokens, m, d) && d <= m.Keys
    ensures CountTtl(tokens, t) == |set k | k in d && m[k].token.ttl == t|
  {
    CountIsSize(tokens, t);
    var a, b := KeysAt(tokens, t), set k | k in d && m[k].token.ttl == t;
    forall k ensures k in a <==> k in b {
      if k in b {
        var i :| 0 <= i < |tokens| && tokens[i].sequence == k;
        assert tokens[i].ttl == t;
      }
    }
    assert a == b;
  }

  lemma {:induction false} BookExpired(y: Tally, p: R.Policy, tokens: seq<S.Token>, t: nat)
    ensures
      var n := CountTtl(tokens, t);
      BookAll(y, ExpireCommits(p, tokens), t)
      == y.(timeouts := y.timeouts + (if Beyond(p, t) then 0 else n),
            post := y.post + (if Beyond(p, t) then n else 0),
            inFlight := y.inFlight - n)
    decreases |tokens|
  {
    if tokens != [] {
      var cs := ExpireCommits(p, tokens);
      assert cs[1..] == ExpireCommits(p, tokens[1..]);
      BookExpired(Book(y, cs[0], t), p, tokens[1..], t);
    }
  }

  lemma {:induction false} BookCancelled(y: Tally, tokens: seq<S.Token>, t: nat)
    ensures
      var n := CountTtl(tokens, t);
      BookAll(y, CancelCommits(tokens), t) == y.(cancelled := y.cancelled + n, inFlight := y.inFlight - n)
    decreases |tokens|
  {
    if tokens != [] {
      var cs := CancelCommits(tokens);
      assert cs[1..] == CancelCommits(tokens[1..]);
      BookCancelled(Book(y, cs[0], t), tokens[1..], t);
    }
  }

  // ----- each scheduler call agrees with the commits it leads to

  lemma CompleteAgrees(st: State, a: Action, y: Tally, t: nat)
    requires S.Shape(st.sched) && a.Finish? && t < |st.sched.ttl|
    requires Agrees(y, st.sched.ttl[t].counters)
    ensures
      Agrees(BookAll(y, FinishCommits(st, a), t), S.Complete(st.sched, a.token, a.kind, a.at).ttl[t].counters)
  {
    var d := S.Verdict(st.sched, a.token, a.kind, a.at);
    ScoreAgrees(y, st.sched.ttl[t].counters, d, Beyond(st.policy, a.token.ttl), a.token, st.sched.session, a.reply,
                a.code, t);
  }

  lemma ScoreAgrees(y: Tally, k: S.Counters, d: S.Disposition, beyond: bool, token: S.Token, session: nat,
                    r: T.ReplyData, code: nat, t: nat)
    requires Agrees(y, k)
    ensures
      Agrees(BookAll(y, VerdictCommits(d, beyond, token, session, r, code), t),
             if token.ttl == t then S.Score(k, d) else k)
  {
    var cs := VerdictCommits(d, beyond, token, session, r, code);
    if |cs| == 1 { BookOne(y, cs, t); }
    if |cs| == 2 { BookTwo(y, cs, t); }
  }

  lemma BookOne(y: Tally, cs: seq<T.Commit>, t: nat)
    requires |cs| == 1
    ensures BookAll(y, cs, t) == Book(y, cs[0], t)
  {
  }

  lemma BookTwo(y: Tally, cs: seq<T.Commit>, t: nat)
    requires |cs| == 2
    ensures BookAll(y, cs, t) == Book(Book(y, cs[0], t), cs[1], t)
  {
    BookOne(Book(y, cs[0], t), cs[1..], t);
  }

  /** A probe that completes after its deadline leads to the same commits whether the expiry or the
      completion comes first. */
  lemma LateCommitsAreTheSame(p: R.Policy, token: S.Token, session: nat, r: T.ReplyData, code: nat)
    ensures
      VerdictCommits(S.LateDiscardedAfterTimeout, Beyond(p, token.ttl), token, session, r, code)
      == ExpireCommits(p, [token]) + VerdictCommits(S.LateDiscarded, Beyond(p, token.ttl), token, session, r, code)
  {
    assert [token][1..] == [];
  }

  lemma ExpireAgrees(s: S.Sched, now: int, p: R.Policy, tokens: seq<S.Token>, y: Tally, t: nat)
    requires S.Shape(s) && t < |s.ttl| && Agrees(y, s.ttl[t].counters)
    requires S.Lists(tokens, s.records, S.Overdue(s, now))
    ensures Agrees(BookAll(y, ExpireCommits(p, tokens), t), S.Expire(s, now).ttl[t].counters)
  {
    BookExpired(y, p, tokens, t);
    ListedCount(tokens, s.records, S.Overdue(s, now), t);
    var m := s.records;
    assert S.Leavers(m, m.Keys, S.Expiring(now), S.InFlight, S.At(t))
        == set k | k in S.Overdue(s, now) && m[k].token.ttl == t;
  }

  lemma DrainKeepsCounters(s: S.Sched, t: nat)
    requires S.Shape(s) && t < |s.ttl|
    ensures S.BeginDrain(s).ttl[t].counters == s.ttl[t].counters
  {
    assert S.Leavers(s.records, s.records.Keys, S.Draining, S.InFlight, S.At(t)) == {};
  }

  lemma CancelAgrees(s: S.Sched, tokens: seq<S.Token>, y: Tally, t: nat)
    requires S.Shape(s) && t < |s.ttl| && Agrees(y, s.ttl[t].counters)
    requires S.Lists(tokens, s.records, S.Flying(s))
    ensures Agrees(BookAll(y, CancelCommits(tokens), t), S.CancelPending(s).ttl[t].counters)
  {
    BookCancelled(y, tokens, t);
    DrainKeepsCounters(s, t);
    V.DrainKeepsFlying(s);
    ListedCount(tokens, s.records, S.Flying(s), t);
    FlyingLeave(S.BeginDrain(s), s.records, t);
  }

  lemma FlyingLeave(d: S.Sched, m: map<nat, S.Record>, t: nat)
    requires forall k | k in S.Flying(d) :: k in m && d.records[k] == m[k]
    ensures S.Left(d.records, d.records.Keys, S.Cancelling, S.InFlight, S.At(t))
         == |set k | k in S.Flying(d) && m[k].token.ttl == t|
  {
    assert S.Leavers(d.records, d.records.Keys, S.Cancelling, S.InFlight, S.At(t))
        == set k | k in S.Flying(d) && m[k].token.ttl == t;
  }

  lemma {:induction false} ReserveAgrees(s: S.Sched, now: int, epoch: nat, y: Tally, t: nat)
    requires S.Shape(s) && t < |s.ttl| && Agrees(y, s.ttl[t].counters)
    ensures
      var (o, b) := S.ReserveLoop(s, now);
      t < |o.ttl| && Agrees(BookAll(y, SkipCommits(b.skipped, epoch), t), o.ttl[t].counters)
    decreases |S.DueSet(s, now)|
  {
    var u := S.LeastDue(s, now, s.activeLastTtl);
    if u != 0 {
      var (s', slot) := S.Attempt(s, now, u);
      S.AttemptSettles(s, now, u);
      if slot.None? {
        S.AttemptLeavesDueSet(s, now, u);
        ReserveAgrees(s', now, epoch, Book(y, T.SkipBySchedule(u, epoch), t), t);
        var rest := S.ReserveLoop(s', now).1.skipped;
        assert SkipCommits([u] + rest, epoch) == [T.SkipBySchedule(u, epoch)] + SkipCommits(rest, epoch);
      }
    }
  }
}

module TraceMirror {
  import opened Basics
  import S = SchedulerModel
  import H = HopModel
  import T = TableModel
  import R = RouteModel
  import Runs = SchedulerRuns
  import opened TraceLoop
  import opened TraceTallies

  predicate Traced(s: S.Sched, t: nat) { s.config.firstTtl <= t <= s.config.lastTtl }

  /** The commits waiting to be made: decided in the scheduler's epoch, for TTLs it traces; an issue waits
      alone. */
  predicate Waiting(s: S.Sched, cs: seq<T.Commit>) {
    && (forall i | 0 <= i < |cs| ::
          && cs[i].epoch == s.epoch
          && (!cs[i].Cycles? ==> Traced(s, cs[i].ttl))
          && (cs[i].Reply? ==> cs[i].session == s.session && cs[i].reply.addr != H.Unspecified)
          && (cs[i].Issue? ==> |cs| == 1))
  }

  predicate InStep(s: S.Sched, cs: seq<T.Commit>, hops: seq<H.Hop>, t: nat)
    requires 1 <= t <= |hops| && t < |s.ttl|
  {
    Agrees(BookAll(TallyOf(hops[t - 1]), cs, t), s.ttl[t].counters)
  }

  /** Mirror or blank. */
  predicate Mirrored(s: S.Sched, cs: seq<T.Commit>, tb: T.Table) {
    && S.Shape(s) && s.config.lastTtl <= |tb.hops|
    && s.session == tb.session && s.epoch <= tb.epoch
    && Waiting(s, cs)
    && (if s.epoch == tb.epoch
        then forall t | s.config.firstTtl <= t <= s.config.lastTtl :: InStep(s, cs, tb.hops, t)
        else tb.hops == T.BlankHops(|tb.hops|))
  }

  // ----- the user interface

  lemma ResetKeepsMirror(s: S.Sched, cs: seq<T.Commit>, tb: T.Table)
    requires Mirrored(s, cs, tb)
    ensures Mirrored(s, cs, T.ResetHops(tb))
  {
  }

  // ----- lookups

  /** What a lookup has learned is no number the scheduler keeps, and on a blank hop there is nowhere to
      show it. */
  lemma LearnKeepsMirror(s: S.Sched, cs: seq<T.Commit>, tb: T.Table, session: nat, epoch: nat, addr: H.Address,
                         news: H.Info, finished: bool)
    requires Mirrored(s, cs, tb)
    ensures Mirrored(s, cs, T.Learn(tb, session, epoch, addr, news, finished))
  {
    var tb' := T.Learn(tb, session, epoch, addr, news, finished);
    if s.epoch == tb.epoch {
      forall t | s.config.firstTtl <= t <= s.config.lastTtl ensures InStep(s, cs, tb'.hops, t) {
        assert InStep(s, cs, tb.hops, t);
        assert TallyOf(tb'.hops[t - 1]) == TallyOf(tb.hops[t - 1]);
      }
    } else {
      assert tb'.hops == tb.hops;
    }
  }

  // ----- making a commit

  lemma {:induction false} BookingOnlyEndsFlights(y: Tally, cs: seq<T.Commit>, t: nat)
    requires forall i | 0 <= i < |cs| :: !cs[i].Issue?
    ensures BookAll(y, cs, t).inFlight <= y.inFlight
    decreases |cs|
  {
    if cs != [] { BookingOnlyEndsFlights(Book(y, cs[0], t), cs[1..], t); }
  }

  /** The guards of the hop's decrements never act: a commit that ends a flight finds one to end. */
  lemma FlightToEnd(s: S.Sched, cs: seq<T.Commit>, tb: T.Table)
    requires S.Valid(s) && Mirrored(s, cs, tb) && cs != [] && s.epoch == tb.epoch
    requires EndsFlight(cs[0])
    ensures T.OnTable(tb, cs[0].ttl) && tb.hops[cs[0].ttl - 1].counters.inFlight > 0
  {
    var t := cs[0].ttl;
    assert Traced(s, t) && InStep(s, cs, tb.hops, t);
    var y := TallyOf(tb.hops[t - 1]);
    forall i | 0 <= i < |cs[1..]| ensures !cs[1..][i].Issue? { assert cs[1..][i] == cs[i + 1]; }
    BookingOnlyEndsFlights(Book(y, cs[0], t), cs[1..], t);
    assert s.ttl[t].counters.inFlight == S.Count(s.records, S.InFlight, S.At(t));
  }

  lemma NotedIsBooked(h: H.Hop, c: T.Commit, sequence: nat)
    requires EndsFlight(c) ==> h.counters.inFlight > 0
    ensures !c.Cycles? ==> TallyOf(T.Noted(h, c, sequence)) == Book(TallyOf(h), c, c.ttl)
  {
  }

  /** An effective commit books itself on its hop, and leaves the others alone. */
  lemma AppliedIsBooked(tb: T.Table, c: T.Commit, t: nat)
    requires T.Effective(tb, c) && T.OnTable(tb, t)
    requires EndsFlight(c) ==> tb.hops[c.ttl - 1].counters.inFlight > 0
    ensures |T.Apply(tb, c).hops| == |tb.hops|
    ensures TallyOf(T.Apply(tb, c).hops[t - 1]) == Book(TallyOf(tb.hops[t - 1]), c, t)
  {
    if !c.Cycles? { NotedIsBooked(tb.hops[c.ttl - 1], c, tb.replySequence); }
  }

  lemma RestWaits(s: S.Sched, cs: seq<T.Commit>)
    requires Waiting(s, cs) && cs != []
    ensures Waiting(s, cs[1..])
  {
    assert forall i | 0 <= i < |cs[1..]| :: cs[1..][i] == cs[i + 1];
  }

  /** Only a cycle count that is not news has no effect in its own epoch. */
  lemma WaitingIsEffective(s: S.Sched, cs: seq<T.Commit>, tb: T.Table)
    requires Mirrored(s, cs, tb) && cs != [] && s.epoch == tb.epoch
    ensures T.Effective(tb, cs[0]) || (cs[0].Cycles? && T.Apply(tb, cs[0]) == tb)
  {
  }

  lemma CommitKeepsStep(s: S.Sched, cs: seq<T.Commit>, tb: T.Table, t: nat)
    requires S.Valid(s) && Mirrored(s, cs, tb) && cs != [] && s.epoch == tb.epoch && Traced(s, t)
    ensures |T.Apply(tb, cs[0]).hops| == |tb.hops| && InStep(s, cs[1..], T.Apply(tb, cs[0]).hops, t)
  {
    assert InStep(s, cs, tb.hops, t);
    WaitingIsEffective(s, cs, tb);
    if T.Effective(tb, cs[0]) {
      if EndsFlight(cs[0]) { FlightToEnd(s, cs, tb); }
      AppliedIsBooked(tb, cs[0], t);
    }
  }

  lemma ApplyKeepsNumbers(tb: T.Table, c: T.Commit)
    ensures
      var tb' := T.Apply(tb, c);
      && tb'.session == tb.session && tb'.epoch == tb.epoch && |tb'.hops| == |tb.hops|
      && (c.epoch != tb.epoch ==> tb' == tb)
  {
  }

  lemma CommitKeepsMirror(s: S.Sched, cs: seq<T.Commit>, tb: T.Table)
    requires S.Valid(s) && Mirrored(s, cs, tb) && cs != []
    ensures Mirrored(s, cs[1..], T.Apply(tb, cs[0]))
  {
    RestWaits(s, cs);
    ApplyKeepsNumbers(tb, cs[0]);
    if s.epoch == tb.epoch {
      forall t | s.config.firstTtl <= t <= s.config.lastTtl ensures InStep(s, cs[1..], T.Apply(tb, cs[0]).hops, t) {
        CommitKeepsStep(s, cs, tb, t);
      }
    }
  }

  // ----- scheduler calls

  /** A call within the epoch keeps the mirror if the commits it leads to account for it. */
  lemma CallKeepsMirror(s: S.Sched, s': S.Sched, cs: seq<T.Commit>, tb: T.Table)
    requires Mirrored(s, [], tb)
    requires S.Shape(s') && s'.config == s.config && s'.epoch == s.epoch && s'.session == s.session
    requires Waiting(s', cs)
    requires forall t | s.config.firstTtl <= t <= s.config.lastTtl ::
               InStep(s, [], tb.hops, t) ==> InStep(s', cs, tb.hops, t)
    ensures Mirrored(s', cs, tb)
  {
  }

  /** A call that moves no counter needs no commit. */
  lemma SilentCallKeepsMirror(s: S.Sched, s': S.Sched, cs: seq<T.Commit>, tb: T.Table)
    requires Mirrored(s, cs, tb)
    requires S.Shape(s') && s'.config == s.config && s'.epoch == s.epoch && s'.session == s.session
    requires forall t | 0 <= t < |s.ttl| :: s'.ttl[t].counters == s.ttl[t].counters
    ensures Mirrored(s', cs, tb)
  {
    forall t | s.config.firstTtl <= t <= s.config.lastTtl
      ensures s.epoch == tb.epoch ==> InStep(s', cs, tb.hops, t)
    {
      assert s.epoch == tb.epoch ==> InStep(s, cs, tb.hops, t);
    }
  }

  /** Taking over the table's epoch finds it blank, and the scheduler's counters at zero. */
  lemma RestartKeepsMirror(s: S.Sched, now: int, tb: T.Table)
    requires S.Valid(s) && Mirrored(s, [], tb) && s.epoch != tb.epoch
    ensures Mirrored(S.Restart(s, tb.epoch, now), [], tb)
  {
    var s' := S.Restart(s, tb.epoch, now);
    assert forall t | s.config.firstTtl <= t <= s.config.lastTtl :: tb.hops[t - 1] == H.Blank(t);
  }

  lemma FinishKeepsMirror(st: State, a: Action)
    requires S.Valid(st.sched) && Mirrored(st.sched, [], st.table) && Enabled(st, a) && a.Finish?
    ensures Mirrored(S.Complete(st.sched, a.token, a.kind, a.at), FinishCommits(st, a), st.table)
  {
    var s, s', cs := st.sched, S.Complete(st.sched, a.token, a.kind, a.at), FinishCommits(st, a);
    if cs != [] { assert S.RecordOk(s, a.token.sequence); }
    assert Waiting(s', cs);
    forall t | s.config.firstTtl <= t <= s.config.lastTtl && InStep(s, [], st.table.hops, t)
      ensures InStep(s', cs, st.table.hops, t)
    {
      CompleteAgrees(st, a, TallyOf(st.table.hops[t - 1]), t);
    }
    CallKeepsMirror(s, s', cs, st.table);
  }

  lemma {:induction false} ExpireCommitsWait(s: S.Sched, p: R.Policy, tokens: seq<S.Token>)
    requires forall i | 0 <= i < |tokens| :: tokens[i].epoch == s.epoch && Traced(s, tokens[i].ttl)
    ensures Waiting(s, ExpireCommits(p, tokens)) && |ExpireCommits(p, tokens)| == |tokens|
    ensures forall i | 0 <= i < |tokens| :: !ExpireCommits(p, tokens)[i].Issue?
  {
    if tokens != [] {
      ExpireCommitsWait(s, p, tokens[1..]);
      var cs := ExpireCommits(p, tokens);
      assert cs[1..] == ExpireCommits(p, tokens[1..]);
      assert forall i | 0 < i < |cs| :: cs[i] == cs[1..][i - 1];
    }
  }

  lemma {:induction false} CancelCommitsWait(s: S.Sched, tokens: seq<S.Token>)
    requires forall i | 0 <= i < |tokens| :: tokens[i].epoch == s.epoch && Traced(s, tokens[i].ttl)
    ensures Waiting(s, CancelCommits(tokens))
    ensures forall i | 0 <= i < |CancelCommits(tokens)| :: CancelCommits(tokens)[i].Cancel?
  {
    if tokens != [] {
      CancelCommitsWait(s, tokens[1..]);
      var cs := CancelCommits(tokens);
      assert cs[1..] == CancelCommits(tokens[1..]);
      assert forall i | 0 < i < |cs| :: cs[i] == cs[1..][i - 1];
    }
  }

  lemma {:induction false} SkipCommitsWait(s: S.Sched, ttls: seq<nat>)
    requires forall i | 0 <= i < |ttls| :: Traced(s, ttls[i])
    ensures Waiting(s, SkipCommits(ttls, s.epoch))
    ensures forall i | 0 <= i < |SkipCommits(ttls, s.epoch)| :: SkipCommits(ttls, s.epoch)[i].SkipBySchedule?
  {
    if ttls != [] {
      SkipCommitsWait(s, ttls[1..]);
      var cs := SkipCommits(ttls, s.epoch);
      assert cs[1..] == SkipCommits(ttls[1..], s.epoch);
      assert forall i | 0 < i < |cs| :: cs[i] == cs[1..][i - 1];
    }
  }

  lemma ListedAreCurrent(s: S.Sched, tokens: seq<S.Token>, d: set<nat>)
    requires S.Valid(s) && S.Lists(tokens, s.records, d)
    requires forall k | k in d && k in s.records :: s.records[k].state == S.Issued
    ensures forall i | 0 <= i < |tokens| :: tokens[i].epoch == s.epoch && Traced(s, tokens[i].ttl)
  {
    forall i | 0 <= i < |tokens| ensures tokens[i].epoch == s.epoch && Traced(s, tokens[i].ttl) {
      assert S.RecordOk(s, tokens[i].sequence);
    }
  }

  lemma ExpireKeepsMirror(s: S.Sched, now: int, p: R.Policy, tokens: seq<S.Token>, tb: T.Table)
    requires S.Valid(s) && Mirrored(s, [], tb) && S.Lists(tokens, s.records, S.Overdue(s, now))
    ensures Mirrored(S.Expire(s, now), ExpireCommits(p, tokens), tb)
  {
    var s', cs := S.Expire(s, now), ExpireCommits(p, tokens);
    ListedAreCurrent(s, tokens, S.Overdue(s, now));
    ExpireCommitsWait(s, p, tokens);
    forall t | s.config.firstTtl <= t <= s.config.lastTtl && InStep(s, [], tb.hops, t)
      ensures InStep(s', cs, tb.hops, t)
    {
      ExpireAgrees(s, now, p, tokens, TallyOf(tb.hops[t - 1]), t);
    }
    CallKeepsMirror(s, s', cs, tb);
  }

  lemma CancelKeepsMirror(s: S.Sched, tokens: seq<S.Token>, tb: T.Table)
    requires S.Valid(s) && Mirrored(s, [], tb) && S.Lists(tokens, s.records, S.Flying(s))
    ensures Mirrored(S.CancelPending(s), CancelCommits(tokens), tb)
  {
    var s', cs := S.CancelPending(s), CancelCommits(tokens);
    ListedAreCurrent(s, tokens, S.Flying(s));
    CancelCommitsWait(s, tokens);
    forall t | s.config.firstTtl <= t <= s.config.lastTtl && InStep(s, [], tb.hops, t)
      ensures InStep(s', cs, tb.hops, t)
    {
      CancelAgrees(s, tokens, TallyOf(tb.hops[t - 1]), t);
    }
    CallKeepsMirror(s, s', cs, tb);
  }

  lemma DrainKeepsMirror(s: S.Sched, cs: seq<T.Commit>, tb: T.Table)
    requires Mirrored(s, cs, tb)
    ensures Mirrored(S.BeginDrain(s), cs, tb)
  {
    forall t | 0 <= t < |s.ttl| ensures S.BeginDrain(s).ttl[t].counters == s.ttl[t].counters {
      DrainKeepsCounters(s, t);
    }
    SilentCallKeepsMirror(s, S.BeginDrain(s), cs, tb);
  }

  lemma ReserveKeepsMirror(s: S.Sched, now: int, tb: T.Table)
    requires S.Valid(s) && Mirrored(s, [], tb)
    ensures Mirrored(S.ReserveDue(s, now).0, SkipCommits(S.ReserveDue(s, now).1.skipped, s.epoch), tb)
  {
    var (s', b) := S.ReserveDue(s, now);
    if s.active && s.nextGlobalSendAt <= now {
      Runs.ReserveLoopHolds(s, now);
      Runs.ReserveKeepsConfig(s, now);
      SkippedAreTraced(s, now);
      SkipCommitsWait(s', b.skipped);
      forall t | s.config.firstTtl <= t <= s.config.lastTtl && InStep(s, [], tb.hops, t)
        ensures InStep(s', SkipCommits(b.skipped, s.epoch), tb.hops, t)
      {
        ReserveAgrees(s, now, s.epoch, TallyOf(tb.hops[t - 1]), t);
      }
      CallKeepsMirror(s, s', SkipCommits(b.skipped, s.epoch), tb);
    }
  }

  lemma {:induction false} SkippedAreTraced(s: S.Sched, now: int)
    requires S.Shape(s)
    ensures forall i | 0 <= i < |S.ReserveLoop(s, now).1.skipped| :: Traced(s, S.ReserveLoop(s, now).1.skipped[i])
    decreases |S.DueSet(s, now)|
  {
    var u := S.LeastDue(s, now, s.activeLastTtl);
    if u != 0 {
      S.AttemptSettles(s, now, u);
      if S.Attempt(s, now, u).1.None? {
        S.AttemptLeavesDueSet(s, now, u);
        SkippedAreTraced(S.Attempt(s, now, u).0, now);
      }
    }
  }

  /** The call that settles a slot, with its one commit. */
  lemma SettleKeepsMirror(s: S.Sched, s': S.Sched, token: S.Token, c: T.Commit, tb: T.Table)
    requires S.Valid(s) && Mirrored(s, [], tb) && S.HoldsSlot(s, token) && S.Shape(s')
    requires c.epoch == token.epoch && !c.Cycles? && c.ttl == token.ttl
    requires || (c.Issue? && exists at :: s' == S.MarkIssued(s, token, at))
             || (c.Failure? && !c.wasIssued && s' == S.MarkIssueFailed(s, token))
             || (c.SkipByCache? && s' == S.MarkCached(s, token))
    ensures Mirrored(s', [c], tb)
  {
    assert S.RecordOk(s, token.sequence);
    forall t | s.config.firstTtl <= t <= s.config.lastTtl && InStep(s, [], tb.hops, t)
      ensures InStep(s', [c], tb.hops, t)
    {
      BookOne(TallyOf(tb.hops[t - 1]), [c], t);
    }
    CallKeepsMirror(s, s', [c], tb);
  }
}
