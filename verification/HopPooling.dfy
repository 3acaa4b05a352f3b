/** The hop's mean and spread are the pooled ones of its responders: the mean is the weighted mean, and the sum
    of squared distances splits into those within the responders and those between their means. */
module ResponderPooling {
  import opened Basics
  import opened HopModel
  import opened HopStatistics
  import opened ResponderRecency

  /** A mean weighted by the number of replies. */
  function Weight(s: Stats): real { s.mean * s.count as real }

  function Weighted(rs: seq<Responder>): real {
    if rs == [] then 0.0 else Weight(rs[0].stats) + Weighted(rs[1..])
  }

  /** Squared distances from `k`, for samples with these statistics. */
  function SpreadFrom(s: Stats, k: real): real { s.m2 + Shift(s.count, s.mean, k) }

  /** The squared distances of all the responders' replies from `k`. */
  function Spreads(rs: seq<Responder>, k: real): real {
    if rs == [] then 0.0 else SpreadFrom(rs[0].stats, k) + Spreads(rs[1..], k)
  }

  // ----- by address

  /** The squared distances of the replies of these addresses. */
  function OverAddresses(d: seq<Address>, es: seq<Event>, k: real): real {
    if d == [] then 0.0 else SquaredDistances(RttsOf(es, d[0]), k) + OverAddresses(d[1..], es, k)
  }

  predicate AllHeardIn(es: seq<Event>, d: seq<Address>) {
    forall i | 0 <= i < |es| && es[i].Answered? :: es[i].addr in d
  }

  lemma {:induction false} RecencyHasAll(es: seq<Event>)
    ensures AllHeardIn(es, Recency(es))
  {
    if es == [] {
    } else {
      var ys, e := Front(es), Last(es);
      RecencyHasAll(ys);
      forall i | 0 <= i < |es| && es[i].Answered? ensures es[i].addr in Recency(es) {
        if i < |ys| { assert ys[i] == es[i]; }
      }
    }
  }

  function Distance(e: Event, k: real): real {
    if e.Answered? then Gap(e.rtt, k) else 0.0
  }

  lemma OneMoreOf(es: seq<Event>, a: Address, k: real)
    requires es != []
    ensures SquaredDistances(RttsOf(es, a), k)
         == SquaredDistances(RttsOf(Front(es), a), k)
            + (if Last(es).Answered? && Last(es).addr == a then Distance(Last(es), k) else 0.0)
  {
    if Last(es).Answered? && Last(es).addr == a { OneMoreDistance(RttsOf(Front(es), a), Last(es).rtt, k); }
  }

  /** One more event adds its distance once, if its address is among these. */
  lemma {:induction false} OneMoreOver(d: seq<Address>, es: seq<Event>, k: real)
    requires es != [] && Distinct(d)
    ensures OverAddresses(d, es, k)
         == OverAddresses(d, Front(es), k)
            + (if Last(es).Answered? && Last(es).addr in d then Distance(Last(es), k) else 0.0)
    decreases |d|
  {
    if d == [] {
    } else {
      OneMoreOf(es, d[0], k);
      assert Distinct(d[1..]);
      OneMoreOver(d[1..], es, k);
      assert d == [d[0]] + d[1..];
      assert d[0] !in d[1..];
    }
  }

  lemma {:induction false} NoneOver(d: seq<Address>, k: real)
    ensures OverAddresses(d, [], k) == 0.0
  {
    if d == [] {
    } else {
      NoneOver(d[1..], k);
    }
  }

  lemma OneMoreOverall(es: seq<Event>, k: real)
    requires es != []
    ensures SquaredDistances(Rtts(es), k) == SquaredDistances(Rtts(Front(es)), k) + Distance(Last(es), k)
  {
    if Last(es).Answered? { OneMoreDistance(Rtts(Front(es)), Last(es).rtt, k); }
  }

  /** Every reply is counted at exactly one address. */
  lemma {:induction false} SplitByAddress(es: seq<Event>, d: seq<Address>, k: real)
    requires Distinct(d) && AllHeardIn(es, d)
    ensures SquaredDistances(Rtts(es), k) == OverAddresses(d, es, k)
  {
    if es == [] {
      NoneOver(d, k);
    } else {
      assert forall i | 0 <= i < |Front(es)| :: Front(es)[i] == es[i];
      SplitByAddress(Front(es), d, k);
      OneMoreOverall(es, k);
      OneMoreOver(d, es, k);
    }
  }

  // ----- by responder

  lemma SpreadOf(s: Stats, xs: seq<nat>, k: real)
    requires MeanExact(s, xs) && SpreadExact(s, xs)
    ensures SpreadFrom(s, k) == SquaredDistances(xs, k)
  {
    ShiftFromMean(xs, s.mean, k);
  }

  lemma OwnSpread(xs: seq<nat>, k: real)
    ensures SpreadFrom(Run(xs), k) == SquaredDistances(xs, k)
  {
    var s := Run(xs);
    OnlineIsBatch(xs);
    SpreadOf(s, xs, k);
  }

  lemma WeightOf(s: Stats, xs: seq<nat>)
    requires MeanExact(s, xs)
    ensures Weight(s) == s.total as real
  {
  }

  lemma OwnWeight(xs: seq<nat>)
    ensures Weight(Run(xs)) == Run(xs).total as real
  {
    MeanIsExact(xs);
    WeightOf(Run(xs), xs);
  }

  lemma {:induction false} SpreadsAreTheirs(rs: seq<Responder>, es: seq<Event>, k: real)
    requires OwnSamples(rs, es)
    ensures Spreads(rs, k) == OverAddresses(Addresses(rs), es, k)
    decreases |rs|
  {
    if rs == [] {
    } else {
      var r := rs[0];
      assert r.stats == Run(RttsOf(es, r.addr));
      OwnSpread(RttsOf(es, r.addr), k);
      assert forall i | 0 <= i < |rs[1..]| :: rs[1..][i] == rs[i + 1];
      SpreadsAreTheirs(rs[1..], es, k);
      assert Addresses(rs)[1..] == Addresses(rs[1..]);
    }
  }

  lemma {:induction false} WeightedIsTotal(rs: seq<Responder>, es: seq<Event>)
    requires OwnSamples(rs, es)
    ensures Weighted(rs) == Totalled(rs) as real
    decreases |rs|
  {
    if rs == [] {
    } else {
      var xs := RttsOf(es, rs[0].addr);
      assert rs[0].stats == Run(xs);
      OwnWeight(xs);
      assert forall i | 0 <= i < |rs[1..]| :: rs[1..][i] == rs[i + 1];
      WeightedIsTotal(rs[1..], es);
    }
  }

  /** As long as no more addresses have answered than the list can hold, the hop's mean is the weighted mean of
      its responders, and its squared distances are theirs, taken from the hop's mean. */
  lemma MeanAndSpreadPool(es: seq<Event>)
    requires Ordered(es) && forall i | 0 <= i < |es| && es[i].Answered? :: 0 < es[i].sequence
    requires |Recency(es)| <= MAX_RESPONDERS
    ensures
      var s, rs := After(es).stats, After(es).responders;
      && Weight(s) == Weighted(rs)
      && s.m2 == Spreads(rs, s.mean)
  {
    var s, rs := After(es).stats, After(es).responders;
    StatsAreOfTheirReplies(es);
    HopPoolsResponders(es);
    ListIsRecency(es);
    OwnWeight(Rtts(es));
    WeightedIsTotal(rs, es);
    SpreadIsTheirs(es, rs, s.mean);
    SpreadIsExact(Rtts(es));
  }

  lemma SpreadIsTheirs(es: seq<Event>, rs: seq<Responder>, k: real)
    requires OwnSamples(rs, es) && Addresses(rs) == Recency(es)
    ensures SquaredDistances(Rtts(es), k) == Spreads(rs, k)
  {
    RecencyIsDistinct(es);
    RecencyHasAll(es);
    SplitByAddress(es, Recency(es), k);
    SpreadsAreTheirs(rs, es, k);
  }
}
