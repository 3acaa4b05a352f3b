/** One hop of the route as a value: its counters, its running statistics and the list of addresses that
    have answered for it, most recent first. Means are exact reals; the square root that turns `m2` into
    a deviation is not taken. */
module HopModel {
  import opened Basics

  /** Only what distinguishes network addresses: an IPv6 scope counts, ports and flow labels do not. */
  datatype Address = Unspecified | V4(bits: nat) | V6(scope: nat, bits: nat)

  predicate SameAddress(a: Address, b: Address) { a == b && a != Unspecified }

  datatype Info = Info(name: string, country: string, asn: string, isp: string, source: string, failure: string)

  const NOTHING := Info("", "", "", "", "", "")

  /** Round-trip times seen so far. `mean` and `m2` are updated by Welford's recurrence, `jitter` is an
      exponential average of the differences between consecutive samples. */
  datatype Stats = Stats(
    count: nat, total: nat, last: nat, best: nat, worst: nat, mean: real, m2: real,
    jitter: real, recentJitter: real, previous: real, hasPrevious: bool)

  const NO_SAMPLES := Stats(0, 0, 0, 0, 0, 0.0, 0.0, 0.0, 0.0, 0.0, false)

  function Abs(x: real): real { if x < 0.0 then -x else x }

  function NewMean(mean: real, x: real, n: nat): real
    requires n > 0
  {
    mean + (x - mean) / (n as real)
  }

  function NewSpread(m2: real, x: real, before: real, after: real): real { m2 + (x - before) * (x - after) }

  function Smoothed(average: real, recent: real): real { average + (recent - average) / 16.0 }

  function Sample(s: Stats, rtt: nat): Stats {
    var x, n := rtt as real, s.count + 1;
    var mean := NewMean(s.mean, x, n);
    var recent := if s.hasPrevious then Abs(x - s.previous) else s.recentJitter;
    Stats(
      n, s.total + rtt, rtt,
      if n == 1 || rtt < s.best then rtt else s.best,
      if n == 1 || rtt > s.worst then rtt else s.worst,
      mean, NewSpread(s.m2, x, s.mean, mean),
      if s.hasPrevious then Smoothed(s.jitter, recent) else s.jitter,
      recent, x, true)
  }

  datatype Responder = Responder(addr: Address, info: Info, lastSeen: nat, lastTick: nat, stats: Stats)

  datatype Outcome =
    | NoOutcome | InFlight | EchoReply | TtlExpired | DestinationUnreachable | PacketTooBig | IcmpError
    | TimedOut | LocalError | Cancelled | SchedulerSkipped | Cached | LateDiscarded | PostDestinationDiscarded

  const ERROR_CANCELLED := 1223

  const MAX_RESPONDERS := 128

  datatype Counters = Counters(
    xmit: nat, completed: nat, timedOut: nat, inFlight: nat, localErrors: nat, cancelled: nat,
    schedulerSkipped: nat, cacheSkipped: nat, lateCompletions: nat, postDestination: nat,
    lateSlots: nat, latenessTotal: nat, latenessMax: nat)

  const ZERO := Counters(0, 0, 0, 0, 0, 0, 0, 0, 0, 0, 0, 0, 0)

  /** The number of replies is `stats.count`. */
  datatype Hop = Hop(
    number: nat, addr: Address, info: Info, counters: Counters, stats: Stats, lastTick: nat, lastCycle: nat,
    destinationTick: nat, responders: seq<Responder>, outcome: Outcome, errorCode: nat)

  function Blank(number: nat): Hop {
    Hop(number, Unspecified, NOTHING, ZERO, NO_SAMPLES, 0, 0, 0, [], NoOutcome, 0)
  }

  /** A decrement that stops at zero. */
  function Less(n: nat): nat { if n != 0 then n - 1 else n }

  function NoteIssued(h: Hop, lateness: nat): Hop {
    var c := h.counters;
    var issued := c.(xmit := c.xmit + 1, inFlight := c.inFlight + 1);
    h.(outcome := InFlight, errorCode := 0,
       counters := if lateness == 0 then issued else issued.(
         lateSlots := c.lateSlots + 1,
         latenessTotal := c.latenessTotal + lateness,
         latenessMax := Max(c.latenessMax, lateness)))
  }

  function NoteTimeout(h: Hop): Hop {
    var c := h.counters;
    h.(outcome := TimedOut, errorCode := 0,
       counters := c.(completed := c.completed + 1, timedOut := c.timedOut + 1, inFlight := Less(c.inFlight)))
  }

  function NoteReply(h: Hop, rtt: nat, cycle: nat, tick: nat, outcome: Outcome, status: nat): Hop {
    var c := h.counters;
    h.(outcome := outcome, errorCode := status, lastTick := tick, lastCycle := cycle,
       stats := Sample(h.stats, rtt),
       counters := c.(completed := c.completed + 1, inFlight := Less(c.inFlight)))
  }

  function NoteLocalError(h: Hop, wasIssued: bool, code: nat): Hop {
    var c := h.counters;
    h.(outcome := LocalError, errorCode := code,
       counters := c.(localErrors := c.localErrors + 1,
                      inFlight := if wasIssued then Less(c.inFlight) else c.inFlight))
  }

  function NoteCancelled(h: Hop): Hop {
    var c := h.counters;
    h.(outcome := Cancelled, errorCode := ERROR_CANCELLED,
       counters := c.(cancelled := c.cancelled + 1, inFlight := Less(c.inFlight)))
  }

  function NoteSchedulerSkipped(h: Hop): Hop {
    h.(outcome := SchedulerSkipped, errorCode := 0,
       counters := h.counters.(schedulerSkipped := h.counters.schedulerSkipped + 1))
  }

  function NoteCacheSkipped(h: Hop): Hop {
    h.(outcome := Cached, errorCode := 0,
       counters := h.counters.(cacheSkipped := h.counters.cacheSkipped + 1))
  }

  function NoteLateCompletion(h: Hop): Hop {
    h.(outcome := LateDiscarded,
       counters := h.counters.(lateCompletions := h.counters.lateCompletions + 1))
  }

  function NotePostDestination(h: Hop): Hop {
    var c := h.counters;
    h.(outcome := PostDestinationDiscarded, errorCode := 0,
       counters := c.(postDestination := c.postDestination + 1, inFlight := Less(c.inFlight)))
  }

  // ----- responders

  /** The first responder with this address; the length of the list if there is none. */
  function Find(rs: seq<Responder>, a: Address): (i: nat)
    ensures i <= |rs|
    ensures forall j | 0 <= j < i :: !SameAddress(rs[j].addr, a)
    ensures i < |rs| ==> SameAddress(rs[i].addr, a)
  {
    if rs == [] then 0
    else if SameAddress(rs[0].addr, a) then 0
    else 1 + Find(rs[1..], a)
  }

  /** The first of the responders seen longest ago. */
  function Oldest(rs: seq<Responder>): (i: nat)
    requires rs != []
    ensures i < |rs|
    ensures forall j | 0 <= j < |rs| :: rs[i].lastSeen <= rs[j].lastSeen
    ensures forall j | 0 <= j < i :: rs[i].lastSeen < rs[j].lastSeen
  {
    if |rs| == 1 then 0 else
    var i := 1 + Oldest(rs[1..]);
    if rs[0].lastSeen <= rs[i].lastSeen then 0 else i
  }

  function Without(rs: seq<Responder>, i: nat): seq<Responder>
    requires i < |rs|
  {
    rs[..i] + rs[i + 1..]
  }

  /** Bring `a` to the front: move it there, or put a new responder there, first dropping the oldest
      when the list is full. */
  function Promote(rs: seq<Responder>, a: Address): (rs': seq<Responder>)
    ensures rs' != []
  {
    var i := Find(rs, a);
    if i < |rs| then [rs[i]] + Without(rs, i)
    else
      [Responder(a, NOTHING, 0, 0, NO_SAMPLES)]
      + (if |rs| >= MAX_RESPONDERS then Without(rs, Oldest(rs)) else rs)
  }

  function Heard(r: Responder, rtt: nat, sequence: nat, tick: nat): Responder {
    r.(lastSeen := sequence, lastTick := tick, stats := Sample(r.stats, rtt))
  }

  function Observe(h: Hop, a: Address, rtt: nat, sequence: nat, tick: nat): Hop {
    var rs := Promote(h.responders, a);
    var primary := Heard(rs[0], rtt, sequence, tick);
    h.(responders := rs[0 := primary], addr := primary.addr, info := primary.info)
  }

  function Prefer(news: string, known: string): string { if |news| == 0 then known else news }

  function Merge(known: Info, news: Info): Info {
    Info(Prefer(news.name, known.name), Prefer(news.country, known.country), Prefer(news.asn, known.asn),
         Prefer(news.isp, known.isp), Prefer(news.source, known.source), Prefer(news.failure, known.failure))
  }

  /** Fill in what is known about `a`; the hop shows it if `a` is in front. */
  function Update(h: Hop, a: Address, news: Info): Hop {
    var i := Find(h.responders, a);
    if i == |h.responders| then h else
    var r := h.responders[i].(info := Merge(h.responders[i].info, news));
    h.(responders := h.responders[i := r], info := if i == 0 then r.info else h.info)
  }
}
