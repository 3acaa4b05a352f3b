/** The hop object: every note updates it in place, leaving it as the functions of `HopModel` say. */
module NetHosts {
  import opened Basics
  import opened HopModel

  class NetHost {
    var number: nat
    var addr: Address
    var info: Info
    var counters: Counters
    var stats: Stats
    var lastTick: nat
    var lastCycle: nat
    var destinationTick: nat
    var responders: seq<Responder>
    var outcome: Outcome
    var errorCode: nat

    ghost function State(): Hop
      reads this
    {
      Hop(number, addr, info, counters, stats, lastTick, lastCycle, destinationTick, responders, outcome, errorCode)
    }

    constructor (n: nat)
      ensures State() == Blank(n)
    {
      number, addr, info, counters, stats := n, Unspecified, NOTHING, ZERO, NO_SAMPLES;
      lastTick, lastCycle, destinationTick := 0, 0, 0;
      responders, outcome, errorCode := [], NoOutcome, 0;
    }

    method Reset(n: nat)
      modifies this
      ensures State() == Blank(n)
    {
      number, addr, info, counters, stats := n, Unspecified, NOTHING, ZERO, NO_SAMPLES;
      lastTick, lastCycle, destinationTick := 0, 0, 0;
      responders, outcome, errorCode := [], NoOutcome, 0;
    }

    method NoteIssued(lateness: nat)
      modifies this
      ensures State() == HopModel.NoteIssued(old(State()), lateness)
    {
      counters := counters.(xmit := counters.xmit + 1, inFlight := counters.inFlight + 1);
      outcome, errorCode := InFlight, 0;
      if lateness != 0 {
        counters := counters.(lateSlots := counters.lateSlots + 1,
                              latenessTotal := counters.latenessTotal + lateness,
                              latenessMax := Max(counters.latenessMax, lateness));
      }
    }

    method EndFlight()
      modifies this`counters
      ensures counters == old(counters).(inFlight := Less(old(counters).inFlight))
    {
      if counters.inFlight != 0 { counters := counters.(inFlight := counters.inFlight - 1); }
    }

    method NoteTimeout()
      modifies this
      ensures State() == HopModel.NoteTimeout(old(State()))
    {
      counters := counters.(completed := counters.completed + 1, timedOut := counters.timedOut + 1);
      EndFlight();
      outcome, errorCode := TimedOut, 0;
    }

    method NoteReply(rtt: nat, cycle: nat, tick: nat, o: Outcome, status: nat)
      modifies this
      ensures State() == HopModel.NoteReply(old(State()), rtt, cycle, tick, o, status)
    {
      counters := counters.(completed := counters.completed + 1);
      EndFlight();
      stats := AddSample(stats, rtt);
      lastTick, lastCycle := tick, cycle;
      outcome, errorCode := o, status;
    }

    /** The running statistics, one assignment after another. */
    static method AddSample(s: Stats, rtt: nat) returns (t: Stats)
      ensures t == Sample(s, rtt)
    {
      t := s.(count := s.count + 1, last := rtt, total := s.total + rtt);
      if t.count == 1 || rtt < t.best { t := t.(best := rtt); }
      if t.count == 1 || rtt > t.worst { t := t.(worst := rtt); }
      var x := rtt as real;
      var before := t.mean;
      t := t.(mean := NewMean(before, x, t.count));
      t := t.(m2 := NewSpread(t.m2, x, before, t.mean));
      if t.hasPrevious {
        t := t.(recentJitter := Abs(x - t.previous));
        t := t.(jitter := Smoothed(t.jitter, t.recentJitter));
      }
      t := t.(previous := x, hasPrevious := true);
    }

    method NoteLocalError(wasIssued: bool, code: nat)
      modifies this
      ensures State() == HopModel.NoteLocalError(old(State()), wasIssued, code)
    {
      counters := counters.(localErrors := counters.localErrors + 1);
      if wasIssued { EndFlight(); }
      outcome, errorCode := LocalError, code;
    }

    method NoteCancelled()
      modifies this
      ensures State() == HopModel.NoteCancelled(old(State()))
    {
      counters := counters.(cancelled := counters.cancelled + 1);
      EndFlight();
      outcome, errorCode := Cancelled, ERROR_CANCELLED;
    }

    method NoteSchedulerSkipped()
      modifies this
      ensures State() == HopModel.NoteSchedulerSkipped(old(State()))
    {
      counters := counters.(schedulerSkipped := counters.schedulerSkipped + 1);
      outcome, errorCode := SchedulerSkipped, 0;
    }

    method NoteCacheSkipped()
      modifies this
      ensures State() == HopModel.NoteCacheSkipped(old(State()))
    {
      counters := counters.(cacheSkipped := counters.cacheSkipped + 1);
      outcome, errorCode := Cached, 0;
    }

    method NoteLateCompletion()
      modifies this
      ensures State() == HopModel.NoteLateCompletion(old(State()))
    {
      counters := counters.(lateCompletions := counters.lateCompletions + 1);
      outcome := LateDiscarded;
    }

    method NotePostDestination()
      modifies this
      ensures State() == HopModel.NotePostDestination(old(State()))
    {
      EndFlight();
      counters := counters.(postDestination := counters.postDestination + 1);
      outcome, errorCode := PostDestinationDiscarded, 0;
    }

    // ----- responders

    method FindResponder(a: Address) returns (i: nat)
      ensures i == Find(responders, a)
    {
      i := 0;
      while i < |responders| && !SameAddress(responders[i].addr, a)
        invariant i <= |responders|
        invariant forall j | 0 <= j < i :: !SameAddress(responders[j].addr, a)
      {
        i := i + 1;
      }
    }

    method OldestResponder() returns (i: nat)
      requires responders != []
      ensures i == Oldest(responders)
    {
      i := 0;
      for j := 1 to |responders|
        invariant i < j
        invariant forall k | 0 <= k < j :: responders[i].lastSeen <= responders[k].lastSeen
        invariant forall k | 0 <= k < i :: responders[i].lastSeen < responders[k].lastSeen
      {
        if responders[j].lastSeen < responders[i].lastSeen { i := j; }
      }
    }

    method ObserveResponder(a: Address, rtt: nat, sequence: nat, tick: nat)
      modifies this
      ensures State() == Observe(old(State()), a, rtt, sequence, tick)
    {
      var i := FindResponder(a);
      if i == |responders| {
        if |responders| >= MAX_RESPONDERS {
          var oldest := OldestResponder();
          responders := responders[..oldest] + responders[oldest + 1..];
        }
        responders := [Responder(a, NOTHING, 0, 0, NO_SAMPLES)] + responders;
      } else if i != 0 {
        var current := responders[i];
        responders := responders[..i] + responders[i + 1..];
        responders := [current] + responders;
      }
      assert responders == Promote(old(responders), a);
      var primary := responders[0];
      var s := AddSample(primary.stats, rtt);
      primary := primary.(lastSeen := sequence, lastTick := tick, stats := s);
      responders := responders[0 := primary];
      addr := primary.addr;
      info := primary.info;
    }

    method UpdateResponder(a: Address, news: Info) returns (found: bool)
      modifies this
      ensures State() == Update(old(State()), a, news)
      ensures found <==> exists i :: 0 <= i < |old(responders)| && SameAddress(old(responders)[i].addr, a)
    {
      for i := 0 to |responders|
        invariant State() == old(State())
        invariant forall j | 0 <= j < i :: !SameAddress(responders[j].addr, a)
      {
        if !SameAddress(responders[i].addr, a) { continue; }
        var x := Merged(responders[i].info, news);
        responders := responders[i := responders[i].(info := x)];
        if i == 0 { info := x; }
        return true;
      }
      return false;
    }

    /** Take over what is known. */
    static method Merged(known: Info, news: Info) returns (x: Info)
      ensures x == Merge(known, news)
    {
      x := known;
      if news.name != "" { x := x.(name := news.name); }
      if news.country != "" { x := x.(country := news.country); }
      if news.asn != "" { x := x.(asn := news.asn); }
      if news.isp != "" { x := x.(isp := news.isp); }
      if news.source != "" { x := x.(source := news.source); }
      if news.failure != "" { x := x.(failure := news.failure); }
    }
  }
}
