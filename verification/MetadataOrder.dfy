/** That lookups get done: which are started, in what order they are taken up, and which are thrown away. */
module MetadataOrder {
  import opened Basics
  import opened MetadataQueue

  // ----- starting

  /** Asked for `now`, this half of an entry was last found out within its lifetime: a day, if it is known, and ten
      minutes if nothing was found. */
  predicate StillGood(queried: bool, since: nat, known: bool, now: nat) {
    queried && 0 < since <= now <= since + (if known then 86400000 else 600000)
  }

  predicate NameGood(e: Entry, now: nat) { StillGood(e.nameQueried, e.nameAt, |e.info.name| > 0, now) }

  predicate NetworkGood(e: Entry, now: nat) {
    StillGood(e.networkQueried, e.networkAt, |e.info.country| + |e.info.asn| + |e.info.isp| > 0, now)
  }

  /** Something that is asked for is not in the cache, or no longer good. */
  predicate Wanted(cache: map<string, Entry>, address: string, name: bool, network: bool, now: nat) {
    || address !in cache
    || (name && !NameGood(cache[address], now))
    || (network && !NetworkGood(cache[address], now))
  }

  lemma GoodIsFresh(e: Entry, now: nat)
    ensures NameGood(e, now) <==> NameFresh(e, now)
    ensures NetworkGood(e, now) <==> NetworkFresh(e, now)
  {
    assert |e.info.name| > 0 <==> e.info.name != "";
    assert |e.info.country| + |e.info.asn| + |e.info.isp| > 0
      <==> e.info.country != "" || e.info.asn != "" || e.info.isp != "";
  }

  /** A lookup is started just if it is for a real address in the present session and epoch, something that it asks
      for is wanted, and no such lookup is under way; it asks for what was asked, and can be cancelled from now on. */
  lemma StartedIff(st: State, a: Action)
    requires |st.hands| == WORKERS + 1 && a.Ask? && Enabled(st, a)
    ensures
      var k := Key(a.expectedSession, a.expectedEpoch, a.address);
      var starts := |a.address| > 0 && k.session == st.session && k.epoch == st.epoch && k !in st.inFlight
                 && Wanted(st.cache, a.address, a.name, a.network, a.now);
      Do(st, a) == if !starts then st
                   else st.(inFlight := st.inFlight + {k},
                            hands := st.hands[0 := Enqueueing(Job(k, st.generation, a.name, a.network))])
  {
    if a.address in st.cache { GoodIsFresh(st.cache[a.address], a.now); }
    assert |a.address| > 0 <==> a.address != "";
  }

  // ----- first come, first served

  /** The jobs that have entered the queue, and those taken out of it, since it was last emptied. */
  datatype Traffic = Traffic(entered: seq<Job>, taken: seq<Job>)

  /** There is room for 1024. */
  function Noted(st: State, t: Traffic, a: Action): Traffic
    requires |st.hands| == WORKERS + 1 && Enabled(st, a)
  {
    match a
    case Enqueue => if |st.queue| < 1024 then t.(entered := t.entered + [st.hands[0].job]) else t
    case Take(w) => t.(taken := t.taken + (if Do(st, a).hands[w].Taken? then [Do(st, a).hands[w].job] else []))
    case Reset(_) => Traffic([], [])
    case _ => t
  }

  function TrafficOf(st: State, t: Traffic, run: seq<Action>): Traffic
    requires |st.hands| == WORKERS + 1 && Runnable(st, run)
    decreases |run|
  {
    if run == [] then t else TrafficOf(Do(st, run[0]), Noted(st, t, run[0]), run[1..])
  }

  lemma StepKeepsOrder(st: State, t: Traffic, a: Action)
    requires |st.hands| == WORKERS + 1 && Enabled(st, a) && t.entered == t.taken + st.queue
    ensures var t' := Noted(st, t, a); t'.entered == t'.taken + Do(st, a).queue
  {
    match a {
      case Enqueue => Regroup(t.taken, st.queue, [st.hands[0].job]);
      case Take(w) =>
        assert [st.queue[0]] + st.queue[1..] == st.queue;
        Regroup(t.taken, [st.queue[0]], st.queue[1..]);
      case _ =>
    }
  }

  lemma {:induction false} RunKeepsOrder(st: State, t: Traffic, run: seq<Action>)
    requires |st.hands| == WORKERS + 1 && Runnable(st, run) && t.entered == t.taken + st.queue
    ensures var t' := TrafficOf(st, t, run); t'.entered == t'.taken + Final(st, run).queue
    decreases |run|
  {
    if run == [] {
    } else {
      StepKeepsOrder(st, t, run[0]);
      RunKeepsOrder(Do(st, run[0]), Noted(st, t, run[0]), run[1..]);
    }
  }

  /** In every interleaving, however many workers take from it, the queue is first in, first out, and loses nothing
      between two resets. */
  lemma FirstComeFirstServed(session: nat, epoch: nat, run: seq<Action>)
    requires Runnable(Idle(session, epoch), run)
    ensures
      var t := TrafficOf(Idle(session, epoch), Traffic([], []), run);
      t.entered == t.taken + Final(Idle(session, epoch), run).queue
  {
    RunKeepsOrder(Idle(session, epoch), Traffic([], []), run);
  }

  /** What the trace thread holds goes into the queue just if there is room, and is dropped if there is not. */
  lemma EntersIff(st: State)
    requires Accounted(st) && Enabled(st, Enqueue)
    ensures
      var j, st' := st.hands[0].job, Do(st, Enqueue);
      if |st.queue| < 1024 then st'.hands[0].Free? && st'.queue == st.queue + [j]
      else st'.hands[0] == Dropping(j) && st'.queue == st.queue
    ensures st.hands[0].job.key in st.inFlight ==> st.hands[0].job.key in Do(st, Enqueue).inFlight
  {
  }

  // ----- taken up or thrown away

  /** A worker looks up what it has taken just if that is still for the present session and epoch. */
  lemma ExecutedIff(st: State, w: nat)
    requires Accounted(st) && Enabled(st, Examine(w))
    ensures
      var j := st.hands[w].job;
      Do(st, Examine(w)).hands[w]
      == if j.key.session == st.session && j.key.epoch == st.epoch then Executing(j) else Discarding(j)
  {
  }

  /** A reset throws away everything that was asked before: the queue is empty, nothing is under way, and whatever a
      thread still holds is for an epoch gone by. The cache stays. */
  lemma ResetCancelsAll(st: State, newSession: bool)
    requires Accounted(st)
    ensures
      var st' := Do(st, Reset(newSession));
      && st'.queue == [] && st'.inFlight == {} && st'.cache == st.cache && st'.hands == st.hands
      && st'.epoch > st.epoch && (st'.session > st.session <==> newSession)
      && forall w | 0 <= w < |st'.hands| && !st'.hands[w].Free? :: !Current(st', st'.hands[w].job.key)
  {
  }
}
