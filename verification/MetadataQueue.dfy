/** Looking up who answers: the trace thread asks, a bounded queue hands the questions to four workers, and
    the set of lookups in flight keeps a question from being asked twice. Resets and new sessions cancel
    everything at once. Each step is one critical section. */
module MetadataQueue {
  import opened Basics
  import opened Decimals
  import opened HopModel

  /** A lookup is named by the session, the epoch and the address it is for. */
  datatype Key = Key(session: nat, epoch: nat, address: string)

  /** What to find out: the host name, the network, or both. `generation` names the stop source whose token
      the job carries. */
  datatype Job = Job(key: Key, generation: nat, name: bool, network: bool)

  datatype Hand =
    | Free
    | Enqueueing(job: Job)   // marked in flight, not yet queued
    | Dropping(job: Job)     // found the queue full
    | Taken(job: Job)        // taken from the queue
    | Discarding(job: Job)   // found cancelled
    | Executing(job: Job)    // looking it up

  /** What has been found out about an address, and when each half of it was last asked for. */
  datatype Entry = Entry(
    info: Info, cachedAt: nat, nameQueried: bool, nameAt: nat, networkQueried: bool, networkAt: nat)

  const LIFETIME_MS := 86400 * 1000
  const NEGATIVE_LIFETIME_MS := 600 * 1000

  const MAX_PENDING := 1024
  const MAX_CACHED := 2048
  const WORKERS := 4

  /** `hands[0]` is the trace thread's, the others are the workers'. */
  datatype State = State(
    session: nat, epoch: nat, generation: nat, inFlight: set<Key>, queue: seq<Job>, hands: seq<Hand>,
    cache: map<string, Entry>)

  /** The name under which a lookup is kept in the set. */
  function Text(k: Key): string { Decimal(k.session) + ":" + Decimal(k.epoch) + ":" + k.address }

  datatype Action =
    | Ask(expectedSession: nat, expectedEpoch: nat, address: string, name: bool, network: bool, now: nat)
    | Enqueue
    | Drop
    | Take(worker: nat)
    | Examine(worker: nat)
    | Discard(worker: nat)
    | Finish(worker: nat, found: Info, at: nat, evicted: string)
    | Reset(newSession: bool)

  // ----- the cache

  predicate Lasts(queried: bool, since: nat, lifetime: nat, now: nat) {
    queried && since != 0 && since <= now && now - since <= lifetime
  }

  function NameLifetime(x: Info): nat { if x.name == "" then NEGATIVE_LIFETIME_MS else LIFETIME_MS }

  function NetworkLifetime(x: Info): nat {
    if x.country != "" || x.asn != "" || x.isp != "" then LIFETIME_MS else NEGATIVE_LIFETIME_MS
  }

  predicate NameFresh(e: Entry, now: nat) { Lasts(e.nameQueried, e.nameAt, NameLifetime(e.info), now) }

  predicate NetworkFresh(e: Entry, now: nat) { Lasts(e.networkQueried, e.networkAt, NetworkLifetime(e.info), now) }

  /** The cache still answers what would be asked. */
  predicate UpToDate(cache: map<string, Entry>, address: string, name: bool, network: bool, now: nat) {
    address in cache && (name ==> NameFresh(cache[address], now)) && (network ==> NetworkFresh(cache[address], now))
  }

  function Found(j: Job, found: Info, at: nat): Entry {
    Entry(found, at, j.name, if j.name then at else 0, j.network, if j.network then at else 0)
  }

  /** A new entry takes over from the old what it did not find or did not ask for. */
  function Renewed(known: Entry, e: Entry): Entry {
    Entry(Merge(known.info, e.info), e.cachedAt,
          e.nameQueried || known.nameQueried, if e.nameQueried then e.nameAt else known.nameAt,
          e.networkQueried || known.networkQueried, if e.networkQueried then e.networkAt else known.networkAt)
  }

  /** What is cached for an address once a job for it has found `found`. */
  function Published(cache: map<string, Entry>, j: Job, found: Info, at: nat): Entry {
    var e := Found(j, found, at);
    if j.key.address in cache then Renewed(cache[j.key.address], e) else e
  }

  // ----- steps

  predicate IsWorker(st: State, w: nat) { 1 <= w < |st.hands| }

  predicate Cancelled(st: State, j: Job) { j.generation != st.generation }

  predicate Current(st: State, k: Key) { k.session == st.session && k.epoch == st.epoch }

  predicate Enabled(st: State, a: Action)
    requires |st.hands| == WORKERS + 1
  {
    match a
    case Ask(_, _, _, _, _, _) => st.hands[0].Free?
    case Enqueue => st.hands[0].Enqueueing?
    case Drop => st.hands[0].Dropping?
    case Take(w) => IsWorker(st, w) && st.hands[w].Free? && st.queue != []
    case Examine(w) => IsWorker(st, w) && st.hands[w].Taken?
    case Discard(w) => IsWorker(st, w) && st.hands[w].Discarding?
    case Finish(w, _, _, evicted) =>
      IsWorker(st, w) && st.hands[w].Executing? && OldestOf(st.cache, st.hands[w].job.key.address, evicted)
    case Reset(_) => true
  }

  /** `evicted` is one of the entries cached longest ago, if a new one for `address` needs room. */
  predicate OldestOf(cache: map<string, Entry>, address: string, evicted: string) {
    address !in cache && |cache| >= MAX_CACHED ==>
      evicted in cache && forall a | a in cache :: cache[evicted].cachedAt <= cache[a].cachedAt
  }

  function Cached(cache: map<string, Entry>, address: string, entry: Entry, evicted: string): map<string, Entry> {
    (if address !in cache && |cache| >= MAX_CACHED then cache - {evicted} else cache)[address := entry]
  }

  function Do(st: State, a: Action): State
    requires |st.hands| == WORKERS + 1 && Enabled(st, a)
  {
    match a
    case Ask(session, epoch, address, name, network, now) =>
      var k := Key(session, epoch, address);
      if || address == "" || !Current(st, k) || UpToDate(st.cache, address, name, network, now)
         || k in st.inFlight
      then st
      else st.(inFlight := st.inFlight + {k},
               hands := st.hands[0 := Enqueueing(Job(k, st.generation, name, network))])
    case Enqueue =>
      var j := st.hands[0].job;
      if |st.queue| < MAX_PENDING then st.(queue := st.queue + [j], hands := st.hands[0 := Free])
      else st.(hands := st.hands[0 := Dropping(j)])
    case Drop => st.(inFlight := st.inFlight - {st.hands[0].job.key}, hands := st.hands[0 := Free])
    case Take(w) => st.(queue := st.queue[1..], hands := st.hands[w := Taken(st.queue[0])])
    case Examine(w) =>
      var j := st.hands[w].job;
      st.(hands := st.hands[w := if Cancelled(st, j) then Discarding(j) else Executing(j)])
    case Discard(w) => st.(inFlight := st.inFlight - {st.hands[w].job.key}, hands := st.hands[w := Free])
    case Finish(w, found, at, evicted) =>
      var j := st.hands[w].job;
      var done := st.(inFlight := st.inFlight - {j.key}, hands := st.hands[w := Free]);
      if Cancelled(st, j) || !Current(st, j.key) then done
      else done.(cache := Cached(st.cache, j.key.address, Published(st.cache, j, found, at), evicted))
    case Reset(newSession) =>
      st.(generation := st.generation + 1, queue := [], inFlight := {}, epoch := st.epoch + 1,
          session := if newSession then st.session + 1 else st.session)
  }

  function Idle(session: nat, epoch: nat): State {
    State(session, epoch, 0, {}, [], [Free, Free, Free, Free, Free], map[])
  }

  // ----- where the lookups in flight are

  predicate IsFor(j: Job, g: nat, k: Key) { j.key == k && j.generation == g }

  /** How many jobs of generation `g` for the key `k` are in the queue, in a hand, in all hands. */
  function Queued(q: seq<Job>, g: nat, k: Key): nat {
    if q == [] then 0 else One(IsFor(q[0], g, k)) + Queued(q[1..], g, k)
  }

  function InHand(h: Hand, g: nat, k: Key): nat { One(!h.Free? && IsFor(h.job, g, k)) }

  function InHands(hs: seq<Hand>, g: nat, k: Key): nat {
    if hs == [] then 0 else InHand(hs[0], g, k) + InHands(hs[1..], g, k)
  }

  /** A job is of the current generation exactly if its key is of the current epoch. */
  predicate InTime(st: State, j: Job) {
    && (j.generation == st.generation ==> Current(st, j.key))
    && (j.generation != st.generation ==> j.key.epoch < st.epoch)
    && j.generation <= st.generation
  }

  predicate Tidy(st: State) {
    && |st.hands| == WORKERS + 1
    && (st.hands[0].Free? || st.hands[0].Enqueueing? || st.hands[0].Dropping?)
    && (forall w | 1 <= w < |st.hands| :: !st.hands[w].Enqueueing? && !st.hands[w].Dropping?)
    && (forall k | k in st.inFlight :: Current(st, k))
    && (forall i | 0 <= i < |st.queue| :: InTime(st, st.queue[i]))
    && (forall w | 0 <= w < |st.hands| :: !st.hands[w].Free? ==> InTime(st, st.hands[w].job))
    && |st.queue| <= MAX_PENDING
    && |st.cache| <= MAX_CACHED
  }

  /** Each lookup in flight has exactly one job of the current generation, and no other key has any. */
  ghost predicate Matched(st: State) {
    forall k: Key :: One(k in st.inFlight) == Queued(st.queue, st.generation, k) + InHands(st.hands, st.generation, k)
  }

  ghost predicate Accounted(st: State) { Tidy(st) && Matched(st) }

  lemma {:induction false} HandChanges(hs: seq<Hand>, w: nat, h: Hand, g: nat, k: Key)
    requires w < |hs|
    ensures InHands(hs[w := h], g, k) == InHands(hs, g, k) - InHand(hs[w], g, k) + InHand(h, g, k)
    ensures InHand(hs[w], g, k) <= InHands(hs, g, k)
  {
    if w == 0 {
      assert hs[0 := h][1..] == hs[1..];
    } else {
      HandChanges(hs[1..], w - 1, h, g, k);
      assert hs[w := h][1..] == hs[1..][w - 1 := h];
    }
  }

  lemma {:induction false} QueuedOneMore(q: seq<Job>, j: Job, g: nat, k: Key)
    ensures Queued(q + [j], g, k) == Queued(q, g, k) + One(IsFor(j, g, k))
  {
    if q == [] {
    } else {
      QueuedOneMore(q[1..], j, g, k);
      assert (q + [j])[1..] == q[1..] + [j];
    }
  }

  lemma {:induction false} NoneInHands(hs: seq<Hand>, g: nat, k: Key)
    requires forall w | 0 <= w < |hs| && !hs[w].Free? :: hs[w].job.generation < g
    ensures InHands(hs, g, k) == 0
  {
    if hs != [] { NoneInHands(hs[1..], g, k); }
  }

  lemma AskKeeps(st: State, a: Action)
    requires Accounted(st) && Enabled(st, a) && a.Ask?
    ensures Accounted(Do(st, a))
  {
    var asked := Key(a.expectedSession, a.expectedEpoch, a.address);
    var st' := Do(st, a);
    forall k: Key
      ensures One(k in st'.inFlight) == Queued(st'.queue, st.generation, k) + InHands(st'.hands, st.generation, k)
    {
      HandChanges(st.hands, 0, Enqueueing(Job(asked, st.generation, a.name, a.network)), st.generation, k);
    }
  }

  lemma EnqueueKeeps(st: State)
    requires Accounted(st) && Enabled(st, Enqueue)
    ensures Accounted(Do(st, Enqueue))
  {
    var j, st' := st.hands[0].job, Do(st, Enqueue);
    forall k: Key
      ensures One(k in st'.inFlight) == Queued(st'.queue, st.generation, k) + InHands(st'.hands, st.generation, k)
    {
      HandChanges(st.hands, 0, Free, st.generation, k);
      HandChanges(st.hands, 0, Dropping(j), st.generation, k);
      QueuedOneMore(st.queue, j, st.generation, k);
    }
  }

  function Released(st: State, w: nat): State
    requires w < |st.hands| && !st.hands[w].Free?
  {
    st.(inFlight := st.inFlight - {st.hands[w].job.key}, hands := st.hands[w := Free])
  }

  /** Taking a job out of a hand and its key out of the set: a cancelled job's key is not in it. */
  lemma ReleaseKeeps(st: State, w: nat)
    requires Accounted(st) && w < |st.hands| && !st.hands[w].Free?
    ensures Accounted(Released(st, w))
  {
    var j, st' := st.hands[w].job, Released(st, w);
    forall k: Key
      ensures One(k in st'.inFlight) == Queued(st'.queue, st.generation, k) + InHands(st'.hands, st.generation, k)
    {
      HandChanges(st.hands, w, Free, st.generation, k);
    }
  }

  lemma TakeKeeps(st: State, w: nat)
    requires Accounted(st) && Enabled(st, Take(w))
    ensures Accounted(Do(st, Take(w)))
  {
    var st' := Do(st, Take(w));
    forall k: Key
      ensures One(k in st'.inFlight) == Queued(st'.queue, st.generation, k) + InHands(st'.hands, st.generation, k)
    {
      HandChanges(st.hands, w, Taken(st.queue[0]), st.generation, k);
    }
  }

  lemma ExamineKeeps(st: State, w: nat)
    requires Accounted(st) && Enabled(st, Examine(w))
    ensures Accounted(Do(st, Examine(w)))
  {
    var j, st' := st.hands[w].job, Do(st, Examine(w));
    forall k: Key
      ensures One(k in st'.inFlight) == Queued(st'.queue, st.generation, k) + InHands(st'.hands, st.generation, k)
    {
      HandChanges(st.hands, w, if Cancelled(st, j) then Discarding(j) else Executing(j), st.generation, k);
    }
  }

  lemma CacheStaysSmall(cache: map<string, Entry>, address: string, entry: Entry, evicted: string)
    requires |cache| <= MAX_CACHED && OldestOf(cache, address, evicted)
    ensures |Cached(cache, address, entry, evicted)| <= MAX_CACHED
  {
    var kept := if address !in cache && |cache| >= MAX_CACHED then cache - {evicted} else cache;
    assert (cache - {evicted}).Keys == cache.Keys - {evicted};
    assert kept[address := entry].Keys == kept.Keys + {address};
    assert |kept.Keys| == |kept| && |kept[address := entry].Keys| == |kept[address := entry]|;
    assert |cache.Keys| == |cache|;
  }

  lemma FinishKeeps(st: State, w: nat, found: Info, at: nat, evicted: string)
    requires Accounted(st) && Enabled(st, Finish(w, found, at, evicted))
    ensures Accounted(Do(st, Finish(w, found, at, evicted)))
  {
    var j := st.hands[w].job;
    ReleaseKeeps(st, w);
    CacheStaysSmall(st.cache, j.key.address, Published(st.cache, j, found, at), evicted);
  }

  lemma ResetKeeps(st: State, newSession: bool)
    requires Accounted(st)
    ensures Accounted(Do(st, Reset(newSession)))
  {
    var st' := Do(st, Reset(newSession));
    forall k: Key
      ensures One(k in st'.inFlight) == Queued(st'.queue, st'.generation, k) + InHands(st'.hands, st'.generation, k)
    {
      NoneInHands(st.hands, st.generation + 1, k);
    }
  }

  lemma StepKeepsAccount(st: State, a: Action)
    requires Accounted(st) && Enabled(st, a)
    ensures Accounted(Do(st, a))
  {
    match a {
      case Ask(_, _, _, _, _, _) => AskKeeps(st, a);
      case Enqueue => EnqueueKeeps(st);
      case Drop => ReleaseKeeps(st, 0);
      case Take(w) => TakeKeeps(st, w);
      case Examine(w) => ExamineKeeps(st, w);
      case Discard(w) => ReleaseKeeps(st, w);
      case Finish(w, found, at, evicted) => FinishKeeps(st, w, found, at, evicted);
      case Reset(newSession) => ResetKeeps(st, newSession);
    }
  }

  // ----- runs

  predicate Runnable(st: State, run: seq<Action>)
    requires |st.hands| == WORKERS + 1
    decreases |run|
  {
    run == [] ||
    (Enabled(st, run[0])
     && |Do(st, run[0]).hands| == WORKERS + 1
     && Runnable(Do(st, run[0]), run[1..]))
  }

  function Final(st: State, run: seq<Action>): State
    requires |st.hands| == WORKERS + 1 && Runnable(st, run)
    decreases |run|
  {
    if run == [] then st else Final(Do(st, run[0]), run[1..])
  }

  lemma {:induction false} RunKeepsAccount(st: State, run: seq<Action>)
    requires Accounted(st) && Runnable(st, run)
    ensures Accounted(Final(st, run))
    decreases |run|
  {
    if run != [] {
      StepKeepsAccount(st, run[0]);
      RunKeepsAccount(Do(st, run[0]), run[1..]);
    }
  }

  /** In every state of every interleaving each lookup in flight has exactly one owner, and the queue and
      the cache keep to their bounds. */
  lemma LookupsAreAccounted(session: nat, epoch: nat, run: seq<Action>)
    requires Runnable(Idle(session, epoch), run)
    ensures Accounted(Final(Idle(session, epoch), run))
  {
    forall k: Key { NoneInHands(Idle(session, epoch).hands, 0, k); }
    RunKeepsAccount(Idle(session, epoch), run);
  }

  /** No lookup is lost: when every thread is free and the queue is empty, none is in flight, so every
      address can be asked for again. */
  lemma QuietMeansNoneInFlight(st: State)
    requires Accounted(st) && st.queue == []
    requires forall w | 0 <= w < |st.hands| :: st.hands[w].Free?
    ensures st.inFlight == {}
  {
    forall k ensures k !in st.inFlight {
      NoneInHands(st.hands, st.generation, k);
      assert One(k in st.inFlight) == Queued(st.queue, st.generation, k) + InHands(st.hands, st.generation, k);
    }
  }

  /** No lookup runs twice at once: two threads never hold the same key in the current generation. */
  lemma NoTwoHandsShare(st: State, v: nat, w: nat)
    requires Accounted(st) && v < w < |st.hands| && !st.hands[v].Free? && !st.hands[w].Free?
    requires !Cancelled(st, st.hands[v].job) && !Cancelled(st, st.hands[w].job)
    ensures st.hands[v].job.key != st.hands[w].job.key
  {
    var g, k := st.generation, st.hands[v].job.key;
    HandChanges(st.hands, v, Free, g, k);
    HandChanges(st.hands[v := Free], w, Free, g, k);
    assert One(k in st.inFlight) == Queued(st.queue, g, k) + InHands(st.hands, g, k);
  }

  /** The second look at session and epoch before publishing never decides anything: a result is
      published exactly if its job has not been cancelled, and then it is for the current epoch. */
  lemma RecheckIsRedundant(st: State, w: nat)
    requires Accounted(st) && w < |st.hands| && st.hands[w].Executing?
    ensures Cancelled(st, st.hands[w].job) <==> !Current(st, st.hands[w].job.key)
  {
  }

  /** A finished lookup is cached if it is for the current session and epoch, merged with what was known, and
      otherwise leaves the cache alone; what else the cache held stays, save one entry at most, no younger
      than any other. */
  lemma PublishedIfCurrent(st: State, w: nat, found: Info, at: nat, evicted: string)
    requires Accounted(st) && Enabled(st, Finish(w, found, at, evicted))
    ensures
      var j, cache' := st.hands[w].job, Do(st, Finish(w, found, at, evicted)).cache;
      var address := j.key.address;
      if !Current(st, j.key) then cache' == st.cache
      else
        && address in cache' && cache'[address] == Published(st.cache, j, found, at)
        && (forall a | a in cache' && a != address :: a in st.cache && cache'[a] == st.cache[a])
        && (forall a, b | a in st.cache && a !in cache' && b in st.cache ::
              a == evicted && st.cache[a].cachedAt <= st.cache[b].cachedAt)
  {
    RecheckIsRedundant(st, w);
  }

  /** What was asked for counts as known from then on, for exactly the lifetime of what is known by then: an
      answer that found nothing renews what an earlier one had found. What was not asked for is as fresh as
      it was, or fresher by what else was found. */
  lemma PublishedLasts(cache: map<string, Entry>, j: Job, found: Info, at: nat, now: nat)
    requires at != 0
    ensures
      var e, a := Published(cache, j, found, at), j.key.address;
      && e.cachedAt == at && e.info == (if a in cache then Merge(cache[a].info, found) else found)
      && (j.name ==> (NameFresh(e, now) <==> at <= now <= at + NameLifetime(e.info)))
      && (j.network ==> (NetworkFresh(e, now) <==> at <= now <= at + NetworkLifetime(e.info)))
      && (a in cache && !j.name && NameFresh(cache[a], now) ==> NameFresh(e, now))
      && (a in cache && !j.network && NetworkFresh(cache[a], now) ==> NetworkFresh(e, now))
      && (a in cache && cache[a].info.name != "" ==> NameLifetime(e.info) == LIFETIME_MS)
      && (a in cache && NetworkLifetime(cache[a].info) == LIFETIME_MS ==> NetworkLifetime(e.info) == LIFETIME_MS)
  {
  }

  /** A lookup just published is not started again while even a failure lasts, whatever it found, in any
      state reached by then that still has its entry. */
  lemma NotAskedAgain(st: State, w: nat, found: Info, at: nat, evicted: string, later: State, name: bool,
                      network: bool, now: nat)
    requires Accounted(st) && Enabled(st, Finish(w, found, at, evicted)) && Current(st, st.hands[w].job.key)
    requires at != 0 && at <= now <= at + NEGATIVE_LIFETIME_MS
    requires name ==> st.hands[w].job.name
    requires network ==> st.hands[w].job.network
    requires
      var a, st' := st.hands[w].job.key.address, Do(st, Finish(w, found, at, evicted));
      |later.hands| == WORKERS + 1 && later.hands[0].Free?
      && a in later.cache && a in st'.cache && later.cache[a] == st'.cache[a]
    ensures Do(later, Ask(later.session, later.epoch, st.hands[w].job.key.address, name, network, now)) == later
  {
    PublishedIfCurrent(st, w, found, at, evicted);
    PublishedLasts(st.cache, st.hands[w].job, found, at, now);
  }

  // ----- names

  lemma UniqueSplit(a: string, b: string, x: string, y: string)
    requires (forall i | 0 <= i < |a| :: a[i] != ':') && (forall i | 0 <= i < |b| :: b[i] != ':')
    requires a + ":" + x == b + ":" + y
    ensures a == b && x == y
  {
    var s, t := a + ":" + x, b + ":" + y;
    assert s[|a|] == ':' && t[|b|] == ':';
    assert forall i | 0 <= i < |a| :: s[i] == a[i];
    assert forall i | 0 <= i < |b| :: t[i] == b[i];
    assert |a| == |b|;
    assert a == s[..|a|] && b == t[..|b|];
    assert x == s[|a| + 1..] && y == t[|b| + 1..];
  }

  /** Different lookups have different names, whatever the address text. */
  lemma NamesAreDistinct(j: Key, k: Key)
    ensures Text(j) == Text(k) <==> j == k
  {
    if Text(j) == Text(k) {
      var js, ks := Decimal(j.session), Decimal(k.session);
      var je, ke := Decimal(j.epoch), Decimal(k.epoch);
      assert Text(j) == js + ":" + (je + ":" + j.address) && Text(k) == ks + ":" + (ke + ":" + k.address);
      UniqueSplit(js, ks, je + ":" + j.address, ke + ":" + k.address);
      UniqueSplit(je, ke, j.address, k.address);
      DecimalIsExact(j.session);
      DecimalIsExact(k.session);
      DecimalIsExact(j.epoch);
      DecimalIsExact(k.epoch);
    }
  }
}
