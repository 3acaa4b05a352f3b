/** The hop table that the trace thread commits to and the user interface may blank at any moment. Each
    commit is one step under the table's lock; it says for which epoch it was decided, and does nothing
    if the table has moved on. */
module TableModel {
  import opened Basics
  import opened HopModel

  datatype Commit =
    | Issue(ttl: nat, epoch: nat, lateness: nat)
    | Timeout(ttl: nat, epoch: nat)
    | Failure(ttl: nat, epoch: nat, wasIssued: bool, code: nat)
    | Cancel(ttl: nat, epoch: nat)
    | SkipBySchedule(ttl: nat, epoch: nat)
    | SkipByCache(ttl: nat, epoch: nat)
    | LateCompletion(ttl: nat, epoch: nat)
    | PostDestination(ttl: nat, epoch: nat)
    | Reply(ttl: nat, epoch: nat, session: nat, reply: ReplyData, cycle: nat)
    | Cycles(count: nat, epoch: nat)

  /** What came back, and what the lookup cache has to show for the address that answered. */
  datatype ReplyData = ReplyData(
    addr: Address, rtt: nat, tick: nat, outcome: Outcome, status: nat, isDestination: bool, known: Info)

  datatype Table = Table(
    session: nat, epoch: nat, hops: seq<Hop>, replySequence: nat, displayMax: nat, destinationTtl: nat,
    completedCycles: nat, revision: nat, startTtl: nat, maxHops: nat)

  const DEFAULT_START_TTL := 1

  const DEFAULT_MAX_HOPS := 30

  function BlankHops(n: nat): seq<Hop> { seq(n, i requires 0 <= i < n => Blank(i + 1)) }

  /** A reset blanks every hop and moves the table to the next epoch. */
  function ResetHops(t: Table): Table {
    t.(epoch := t.epoch + 1, hops := BlankHops(|t.hops|), replySequence := 0, displayMax := 0,
       destinationTtl := 0, completedCycles := 0, revision := t.revision + 1)
  }

  function Clamped(ttl: nat, lo: nat, hi: nat): nat { if ttl < lo then lo else if ttl > hi then hi else ttl }

  function Shown(t: Table, ttl: nat): nat { Max(t.displayMax, Clamped(ttl, t.startTtl, t.maxHops)) }

  predicate OnTable(t: Table, ttl: nat) { 1 <= ttl <= |t.hops| }

  function Lowest(known: nat, ttl: nat): nat { if known == 0 then ttl else Min(known, ttl) }

  /** The hop after a reply: counted, its responder brought to the front, and what is known of it shown. */
  function Answer(h: Hop, r: ReplyData, cycle: nat, sequence: nat): Hop {
    var counted := NoteReply(h, r.rtt, cycle, r.tick, r.outcome, r.status);
    var dated := if r.isDestination then counted.(destinationTick := r.tick) else counted;
    Update(Observe(dated, r.addr, r.rtt, sequence, r.tick), r.addr, r.known)
  }

  /** What a commit does to the hop it is about. */
  function Noted(h: Hop, c: Commit, sequence: nat): Hop {
    match c
    case Issue(_, _, lateness) => NoteIssued(h, lateness)
    case Timeout(_, _) => NoteTimeout(h)
    case Failure(_, _, wasIssued, code) => NoteLocalError(h, wasIssued, code)
    case Cancel(_, _) => NoteCancelled(h)
    case SkipBySchedule(_, _) => NoteSchedulerSkipped(h)
    case SkipByCache(_, _) => NoteCacheSkipped(h)
    case LateCompletion(_, _) => NoteLateCompletion(h)
    case PostDestination(_, _) => NotePostDestination(h)
    case Reply(_, _, _, r, cycle) => Answer(h, r, cycle, sequence + 1)
    case Cycles(_, _) => h
  }

  /** A commit takes effect only for a hop of the table, in the epoch it was decided in; a reply also
      only in its session and from a real address; a cycle count only if it grows. */
  predicate Effective(t: Table, c: Commit) {
    && c.epoch == t.epoch
    && (!c.Cycles? ==> OnTable(t, c.ttl))
    && (c.Reply? ==> c.session == t.session && c.reply.addr != Unspecified)
    && (c.Cycles? ==> t.completedCycles < c.count)
  }

  function Apply(t: Table, c: Commit): Table {
    if !Effective(t, c) then t
    else if c.Cycles? then t.(completedCycles := c.count, revision := t.revision + 1)
    else WithHop(t, c, Noted(t.hops[c.ttl - 1], c, t.replySequence))
  }

  /** The table once the hop that an effective commit is about is as the commit leaves it. */
  function WithHop(t: Table, c: Commit, hop: Hop): Table
    requires !c.Cycles? && OnTable(t, c.ttl)
  {
    t.(hops := t.hops[c.ttl - 1 := hop],
       replySequence := if c.Reply? then t.replySequence + 1 else t.replySequence,
       destinationTtl :=
         if c.Reply? && c.reply.isDestination then Lowest(t.destinationTtl, c.ttl) else t.destinationTtl,
       displayMax := if c.Issue? || c.Timeout? || c.Reply? then Shown(t, c.ttl) else t.displayMax,
       revision := t.revision + 1)
  }

  predicate Lists(h: Hop, a: Address) { Find(h.responders, a) < |h.responders| }

  /** The hops once each has taken over what is known about `a`. */
  function Informed(hops: seq<Hop>, a: Address, news: Info): seq<Hop> {
    seq(|hops|, i requires 0 <= i < |hops| => Update(hops[i], a, news))
  }

  predicate Known(hops: seq<Hop>, a: Address) { exists i :: 0 <= i < |hops| && Lists(hops[i], a) }

  /** What a lookup has found out, for one session and epoch of the table, is shown on every hop where `a` has
      answered. A finished lookup counts as a revision then; showing a cached entry does not. */
  function Learn(t: Table, session: nat, epoch: nat, a: Address, news: Info, finished: bool): Table {
    if t.session != session || t.epoch != epoch then t else
    t.(hops := Informed(t.hops, a, news),
       revision := if finished && Known(t.hops, a) then t.revision + 1 else t.revision)
  }

  function Within(tick: nat, now: nat, seconds: nat): bool { tick != 0 && tick <= now && now - tick <= seconds * 1000 }

  /** Whether the hop answered recently enough to be skipped, and whether as the destination. */
  function CachedReply(t: Table, ttl: nat, now: nat, seconds: nat, epoch: nat): (bool, bool) {
    if seconds == 0 || !OnTable(t, ttl) || t.epoch != epoch || !Within(t.hops[ttl - 1].lastTick, now, seconds)
    then (false, false)
    else (true, Within(t.hops[ttl - 1].destinationTick, now, seconds))
  }
}

module NetTables {
  import opened Basics
  import opened HopModel
  import opened NetHosts
  import opened TableModel

  /** The table once `hop` has taken a reply. */
  function Replied(t: Table, ttl: nat, hop: Hop, isDestination: bool): Table
    requires OnTable(t, ttl)
  {
    t.(hops := t.hops[ttl - 1 := hop], replySequence := t.replySequence + 1,
       destinationTtl := if isDestination then Lowest(t.destinationTtl, ttl) else t.destinationTtl,
       displayMax := Shown(t, ttl), revision := t.revision + 1)
  }

  lemma WithReply(t: Table, c: Commit, hop: Hop)
    requires c.Reply? && OnTable(t, c.ttl)
    ensures WithHop(t, c, hop) == Replied(t, c.ttl, hop, c.reply.isDestination)
  {
  }

  lemma NotedReply(h: Hop, c: Commit, sequence: nat)
    requires c.Reply?
    ensures Noted(h, c, sequence) == Answer(h, c.reply, c.cycle, sequence + 1)
  {
  }

  lemma AppliedReply(t: Table, c: Commit, hop: Hop)
    requires c.Reply? && Effective(t, c) && hop == Noted(t.hops[c.ttl - 1], c, t.replySequence)
    ensures Apply(t, c) == Replied(t, c.ttl, hop, c.reply.isDestination)
  {
    WithReply(t, c, hop);
  }

  lemma ListsIff(h: Hop, a: Address)
    ensures Lists(h, a) <==> exists i :: 0 <= i < |h.responders| && SameAddress(h.responders[i].addr, a)
  {
  }

  lemma OnlyHop(before: seq<Hop>, after: seq<Hop>, i: nat)
    requires |before| == |after| && i < |after|
    requires forall j | 0 <= j < |after| && j != i :: after[j] == before[j]
    ensures after == before[i := after[i]]
  {
  }

  /** The table object; its hops are objects too, updated in place. */
  class NetTable {
    const host: seq<NetHost>
    var session: nat
    var epoch: nat
    var replySequence: nat
    var displayMax: nat
    var destinationTtl: nat
    var completedCycles: nat
    var revision: nat
    var startTtl: nat
    var maxHops: nat

    /** The hops are different objects. */
    ghost predicate Valid() { forall i, j | 0 <= i < j < |host| :: host[i] != host[j] }

    ghost function Hops(): (hops: seq<Hop>)
      reads host
      ensures |hops| == |host| && forall i | 0 <= i < |host| :: hops[i] == host[i].State()
    {
      seq(|host|, i requires 0 <= i < |host| reads host => host[i].State())
    }

    ghost function State(): Table
      reads this, host
    {
      Table(session, epoch, Hops(), replySequence, displayMax, destinationTtl, completedCycles, revision,
            startTtl, maxHops)
    }

    constructor (hops: nat)
      ensures Valid() && fresh(host) && |host| == hops
      ensures State() == Table(0, 0, BlankHops(hops), 0, 0, 0, 0, 0, DEFAULT_START_TTL, DEFAULT_MAX_HOPS)
    {
      var made: seq<NetHost> := [];
      for i := 0 to hops
        invariant |made| == i && fresh(made)
        invariant forall j | 0 <= j < i :: made[j].State() == Blank(j + 1)
        invariant forall j, k | 0 <= j < k < i :: made[j] != made[k]
      {
        var hop := new NetHost(i + 1);
        made := made + [hop];
      }
      host, session, epoch, startTtl, maxHops := made, 0, 0, DEFAULT_START_TTL, DEFAULT_MAX_HOPS;
      replySequence, displayMax, destinationTtl, completedCycles, revision := 0, 0, 0, 0, 0;
      new;
      assert Hops() == BlankHops(hops);
    }

    method ResetHops()
      requires Valid()
      modifies this, host
      ensures State() == TableModel.ResetHops(old(State()))
    {
      epoch := epoch + 1;
      displayMax := 0;
      destinationTtl := 0;
      replySequence := 0;
      completedCycles := 0;
      revision := revision + 1;
      BlankAll();
    }

    method BlankAll()
      requires Valid()
      modifies host
      ensures Hops() == BlankHops(|host|)
    {
      for i := 0 to |host|
        invariant forall j | 0 <= j < i :: host[j].State() == Blank(j + 1)
        modifies host
      {
        host[i].Reset(i + 1);
      }
    }

    /** Show what is known about an address on every hop that lists it. */
    method Inform(a: Address, news: Info) returns (updated: bool)
      requires Valid()
      modifies host
      ensures Hops() == Informed(old(Hops()), a, news) && (updated <==> Known(old(Hops()), a))
    {
      ghost var was, after := Hops(), Informed(Hops(), a, news);
      updated := false;
      for i := 0 to |host|
        invariant forall j | 0 <= j < i :: host[j].State() == after[j]
        invariant forall j | i <= j < |host| :: host[j].State() == was[j]
        invariant updated <==> exists j :: 0 <= j < i && Lists(was[j], a)
        modifies host
      {
        ListsIff(was[i], a);
        var found := host[i].UpdateResponder(a, news);
        updated := found || updated;
      }
      assert Hops() == after;
    }

    method Learn(expectedSession: nat, expected: nat, a: Address, news: Info, finished: bool) returns (updated: bool)
      requires Valid()
      modifies this, host
      ensures State() == TableModel.Learn(old(State()), expectedSession, expected, a, news, finished)
      ensures updated <==> old(session) == expectedSession && old(epoch) == expected && Known(old(Hops()), a)
    {
      if session != expectedSession || epoch != expected { return false; }
      updated := Inform(a, news);
      if finished && updated { revision := revision + 1; }
    }

    method Show(ttl: nat)
      modifies this`displayMax
      ensures State() == old(State()).(displayMax := Shown(old(State()), ttl))
    {
      var clamped := if ttl < startTtl then startTtl else if ttl > maxHops then maxHops else ttl;
      displayMax := Max(displayMax, clamped);
    }

    method CommitIssued(ttl: nat, expected: nat, lateness: nat)
      requires Valid()
      modifies this, host
      ensures State() == Apply(old(State()), Issue(ttl, expected, lateness))
    {
      if ttl == 0 || ttl > |host| { return; }
      if epoch != expected { return; }
      host[ttl - 1].NoteIssued(lateness);
      OnlyHop(old(Hops()), Hops(), ttl - 1);
      Show(ttl);
      revision := revision + 1;
    }

    method CommitTimeout(ttl: nat, expected: nat)
      requires Valid()
      modifies this, host
      ensures State() == Apply(old(State()), Timeout(ttl, expected))
    {
      if ttl == 0 || ttl > |host| { return; }
      if epoch != expected { return; }
      host[ttl - 1].NoteTimeout();
      OnlyHop(old(Hops()), Hops(), ttl - 1);
      Show(ttl);
      revision := revision + 1;
    }

    method CommitLocalError(ttl: nat, expected: nat, wasIssued: bool, code: nat)
      requires Valid()
      modifies this, host
      ensures State() == Apply(old(State()), Failure(ttl, expected, wasIssued, code))
    {
      if ttl == 0 || ttl > |host| { return; }
      if epoch != expected { return; }
      host[ttl - 1].NoteLocalError(wasIssued, code);
      OnlyHop(old(Hops()), Hops(), ttl - 1);
      revision := revision + 1;
    }

    method CommitCancelled(ttl: nat, expected: nat)
      requires Valid()
      modifies this, host
      ensures State() == Apply(old(State()), Cancel(ttl, expected))
    {
      if expected != epoch || ttl == 0 || ttl > |host| { return; }
      host[ttl - 1].NoteCancelled();
      OnlyHop(old(Hops()), Hops(), ttl - 1);
      revision := revision + 1;
    }

    method CommitSchedulerSkipped(ttl: nat, expected: nat)
      requires Valid()
      modifies this, host
      ensures State() == Apply(old(State()), SkipBySchedule(ttl, expected))
    {
      if ttl == 0 || ttl > |host| { return; }
      if epoch != expected { return; }
      host[ttl - 1].NoteSchedulerSkipped();
      OnlyHop(old(Hops()), Hops(), ttl - 1);
      revision := revision + 1;
    }

    method CommitCacheSkipped(ttl: nat, expected: nat)
      requires Valid()
      modifies this, host
      ensures State() == Apply(old(State()), SkipByCache(ttl, expected))
    {
      if ttl == 0 || ttl > |host| { return; }
      if epoch != expected { return; }
      host[ttl - 1].NoteCacheSkipped();
      OnlyHop(old(Hops()), Hops(), ttl - 1);
      revision := revision + 1;
    }

    method CommitLateCompletion(ttl: nat, expected: nat)
      requires Valid()
      modifies this, host
      ensures State() == Apply(old(State()), LateCompletion(ttl, expected))
    {
      if ttl == 0 || ttl > |host| { return; }
      if epoch != expected { return; }
      host[ttl - 1].NoteLateCompletion();
      OnlyHop(old(Hops()), Hops(), ttl - 1);
      revision := revision + 1;
    }

    method CommitPostDestinationCompletion(ttl: nat, expected: nat)
      requires Valid()
      modifies this, host
      ensures State() == Apply(old(State()), PostDestination(ttl, expected))
    {
      if ttl == 0 || ttl > |host| { return; }
      if epoch != expected { return; }
      host[ttl - 1].NotePostDestination();
      OnlyHop(old(Hops()), Hops(), ttl - 1);
      revision := revision + 1;
    }

    method CommitReply(ttl: nat, expected: nat, expectedSession: nat, r: ReplyData, cycle: nat)
      requires Valid()
      modifies this, host
      ensures State() == Apply(old(State()), Reply(ttl, expected, expectedSession, r, cycle))
    {
      if ttl == 0 || ttl > |host| || r.addr == Unspecified { return; }
      if session != expectedSession || epoch != expected { return; }
      var sequence := replySequence + 1;
      ghost var c, h := Reply(ttl, expected, expectedSession, r, cycle), Hops()[ttl - 1];
      ghost var hop := Noted(h, c, replySequence);
      ghost var after := Replied(State(), ttl, hop, r.isDestination);
      NotedReply(h, c, replySequence);
      AppliedReply(State(), c, hop);
      StoreReply(ttl, r, cycle, sequence, hop, after);
    }

    method StoreReply(ttl: nat, r: ReplyData, cycle: nat, sequence: nat, ghost hop: Hop, ghost after: Table)
      requires Valid() && 1 <= ttl <= |host| && sequence == replySequence + 1
      requires hop == TableModel.Answer(Hops()[ttl - 1], r, cycle, sequence)
      requires after == Replied(State(), ttl, hop, r.isDestination)
      modifies this, host
      ensures State() == after
    {
      ghost var was := State();
      AnswerAt(ttl - 1, r, cycle, sequence, hop);
      Publish(ttl, sequence, r.isDestination, was, hop);
    }

    /** What a reply changes besides its hop, which is already `hop`. */
    method Publish(ttl: nat, sequence: nat, isDestination: bool, ghost was: Table, ghost hop: Hop)
      requires OnTable(was, ttl) && sequence == was.replySequence + 1
      requires State() == was.(hops := was.hops[ttl - 1 := hop])
      modifies this`replySequence, this`destinationTtl, this`displayMax, this`revision
      ensures State() == Replied(was, ttl, hop, isDestination)
    {
      replySequence := sequence;
      NoteDestination(ttl, isDestination);
      Show(ttl);
      revision := revision + 1;
    }

    method NoteDestination(ttl: nat, isDestination: bool)
      modifies this`destinationTtl
      ensures
        State() == old(State()).(
          destinationTtl := if isDestination then Lowest(old(destinationTtl), ttl) else old(destinationTtl))
    {
      if isDestination {
        destinationTtl := if destinationTtl == 0 then ttl else Min(destinationTtl, ttl);
      }
    }

    static method Answer(hop: NetHost, r: ReplyData, cycle: nat, sequence: nat)
      modifies hop
      ensures hop.State() == TableModel.Answer(old(hop.State()), r, cycle, sequence)
    {
      hop.NoteReply(r.rtt, cycle, r.tick, r.outcome, r.status);
      if r.isDestination { hop.destinationTick := r.tick; }
      hop.ObserveResponder(r.addr, r.rtt, sequence, r.tick);
      var found := hop.UpdateResponder(r.addr, r.known);
    }

    method AnswerAt(i: nat, r: ReplyData, cycle: nat, sequence: nat, ghost hop: Hop)
      requires Valid() && i < |host| && hop == TableModel.Answer(Hops()[i], r, cycle, sequence)
      modifies host
      ensures State() == old(State()).(hops := old(Hops())[i := hop])
    {
      Answer(host[i], r, cycle, sequence);
      OnlyHop(old(Hops()), Hops(), i);
    }

    method SetCompletedCycles(cycles: nat, expected: nat)
      modifies this
      ensures State() == Apply(old(State()), Cycles(cycles, expected))
    {
      if epoch != expected || cycles <= completedCycles { return; }
      completedCycles := cycles;
      revision := revision + 1;
    }

    method ReplyIsCached(ttl: nat, now: nat, seconds: nat, expected: nat) returns (cached: bool, destination: bool)
      ensures (cached, destination) == CachedReply(State(), ttl, now, seconds, expected)
    {
      if seconds == 0 || ttl == 0 || ttl > |host| { return false, false; }
      if epoch != expected { return false, false; }
      var hop := host[ttl - 1];
      if hop.lastTick == 0 || now < hop.lastTick || now - hop.lastTick > seconds * 1000 { return false, false; }
      destination := hop.destinationTick != 0 && now >= hop.destinationTick
                  && now - hop.destinationTick <= seconds * 1000;
      cached := true;
    }
  }
}

/** What holds of every table: the hops keep their numbers, their completions are their replies and
    timeouts, and each list of responders is in order of the table's own reply numbers. */
module TableInvariants {
  import opened HopModel
  import opened TableModel
  import opened ResponderRecency

  /** Distinct real addresses in order of replies that are no later than `sequence`, and not too many. */
  predicate ListOk(rs: seq<Responder>, sequence: nat) {
    && NewestFirst(rs) && |rs| <= MAX_RESPONDERS && Distinct(Addresses(rs))
    && (forall r | r in rs :: r.addr != Unspecified && r.lastSeen <= sequence)
  }

  predicate HopOk(h: Hop, sequence: nat) {
    h.counters.completed == h.stats.count + h.counters.timedOut && Mirrors(h) && ListOk(h.responders, sequence)
  }

  predicate HopsOk(hops: seq<Hop>, sequence: nat) { forall i | 0 <= i < |hops| :: HopOk(hops[i], sequence) }

  predicate TableOk(t: Table) { HopsOk(t.hops, t.replySequence) }

  lemma ObserveKeepsHop(h: Hop, a: Address, rtt: nat, sequence: nat, tick: nat)
    requires HopOk(h, sequence) && a != Unspecified
    ensures HopOk(Observe(h, a, rtt, sequence + 1, tick), sequence + 1)
  {
    var x := HopModel.Heard(Moved(h.responders, a), rtt, sequence + 1, tick);
    PromoteParts(h.responders, a, x);
    OthersStayOk(h.responders, a, sequence);
    OneMoreOk(x, Others(h.responders, a), sequence);
  }

  /** The responders behind the promoted one: fewer than the list can hold, none under its address. */
  predicate Behind(rs: seq<Responder>, a: Address, sequence: nat) {
    ListOk(rs, sequence) && |rs| < MAX_RESPONDERS && forall r | r in rs :: r.addr != a
  }

  lemma OthersStayOk(rs: seq<Responder>, a: Address, sequence: nat)
    requires ListOk(rs, sequence) && a != Unspecified
    ensures Behind(Others(rs, a), a, sequence)
  {
    var others := Others(rs, a);
    OthersKeepOrder(rs, a);
    OthersAreDistinct(rs, a);
    forall r | r in others ensures r.addr != Unspecified && r.lastSeen <= sequence && r.addr != a {
      OthersAreOld(rs, a, r);
    }
  }

  lemma OthersAreDistinct(rs: seq<Responder>, a: Address)
    requires Distinct(Addresses(rs)) && |rs| <= MAX_RESPONDERS
    ensures Distinct(Addresses(Others(rs, a))) && |Others(rs, a)| < MAX_RESPONDERS
  {
    if Find(rs, a) < |rs| {
      WithoutIsDistinct(rs, Find(rs, a));
    } else if |rs| >= MAX_RESPONDERS {
      WithoutIsDistinct(rs, Oldest(rs));
    }
  }

  lemma WithoutIsDistinct(rs: seq<Responder>, i: nat)
    requires Distinct(Addresses(rs)) && i < |rs|
    ensures Distinct(Addresses(Without(rs, i))) && |Without(rs, i)| == |rs| - 1
  {
    var n, w := Addresses(rs), Without(rs, i);
    forall j, k | 0 <= j < k < |w| ensures Addresses(w)[j] != Addresses(w)[k] {
      WithoutAt(rs, i, j);
      WithoutAt(rs, i, k);
      assert n[if j < i then j else j + 1] != n[if k < i then k else k + 1];
    }
  }

  lemma OneMoreOk(x: Responder, others: seq<Responder>, sequence: nat)
    requires Behind(others, x.addr, sequence) && x.addr != Unspecified && x.lastSeen == sequence + 1
    ensures ListOk([x] + others, sequence + 1)
  {
    var rs, n := [x] + others, Addresses(others);
    forall i, j | 0 <= i < j < |rs|
      ensures rs[i].lastSeen > rs[j].lastSeen && Addresses(rs)[i] != Addresses(rs)[j]
    {
      assert rs[j] == others[j - 1] && rs[j] in others;
      if i > 0 { assert rs[i] == others[i - 1] && n[i - 1] != n[j - 1]; }
    }
  }

  lemma UpdateKeepsHop(h: Hop, a: Address, news: Info, sequence: nat)
    requires HopOk(h, sequence)
    ensures HopOk(Update(h, a, news), sequence)
  {
    var h' := Update(h, a, news);
    assert Addresses(h'.responders) == Addresses(h.responders);
    forall r | r in h'.responders ensures r.addr != Unspecified && r.lastSeen <= sequence {
      var j :| 0 <= j < |h'.responders| && h'.responders[j] == r;
      assert h.responders[j] in h.responders;
    }
  }

  lemma NotedKeepsHop(h: Hop, c: Commit, sequence: nat)
    requires HopOk(h, sequence) && (c.Reply? ==> c.reply.addr != Unspecified)
    ensures HopOk(Noted(h, c, sequence), if c.Reply? then sequence + 1 else sequence)
  {
    if c.Reply? {
      var counted := NoteReply(h, c.reply.rtt, c.cycle, c.reply.tick, c.reply.outcome, c.reply.status);
      var dated := if c.reply.isDestination then counted.(destinationTick := c.reply.tick) else counted;
      ObserveKeepsHop(dated, c.reply.addr, c.reply.rtt, sequence, c.reply.tick);
      UpdateKeepsHop(Observe(dated, c.reply.addr, c.reply.rtt, sequence + 1, c.reply.tick),
                     c.reply.addr, c.reply.known, sequence + 1);
    }
  }

  lemma OneHopKeepsTable(hops: seq<Hop>, i: nat, h: Hop, sequence: nat, sequence': nat)
    requires i < |hops| && sequence <= sequence' && HopOk(h, sequence') && HopsOk(hops, sequence)
    ensures HopsOk(hops[i := h], sequence')
  {
  }

  /** Every commit and every reset keeps this, so that the numbers replies are given always increase
      along each list of responders. */
  lemma CommitKeepsTable(t: Table, c: Commit)
    requires TableOk(t)
    ensures TableOk(Apply(t, c))
  {
    if Effective(t, c) && !c.Cycles? {
      var n := if c.Reply? then t.replySequence + 1 else t.replySequence;
      NotedKeepsHop(t.hops[c.ttl - 1], c, t.replySequence);
      NotedKeepsTable(t, c, Noted(t.hops[c.ttl - 1], c, t.replySequence), n);
    }
  }

  lemma NotedKeepsTable(t: Table, c: Commit, hop: Hop, n: nat)
    requires TableOk(t) && !c.Cycles? && OnTable(t, c.ttl) && HopOk(hop, n)
    requires n == if c.Reply? then t.replySequence + 1 else t.replySequence
    ensures TableOk(WithHop(t, c, hop))
  {
    OneHopKeepsTable(t.hops, c.ttl - 1, hop, t.replySequence, n);
  }

  lemma LearnKeepsTable(t: Table, session: nat, epoch: nat, a: Address, news: Info, finished: bool)
    requires TableOk(t)
    ensures TableOk(Learn(t, session, epoch, a, news, finished))
  {
    if t.session == session && t.epoch == epoch {
      forall i | 0 <= i < |t.hops| ensures HopOk(Update(t.hops[i], a, news), t.replySequence) {
        UpdateKeepsHop(t.hops[i], a, news, t.replySequence);
      }
    }
  }

  lemma ResetMakesTable(t: Table)
    ensures TableOk(ResetHops(t))
  {
  }
}
