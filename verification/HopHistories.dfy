/** The running numbers of a hop, and its list of responders, against what the whole history of its
    replies says they should be. */
module HopStatistics {
  import opened Basics
  import opened HopModel

  // ----- batch definitions

  /** The statistics after the samples `xs`. */
  function Run(xs: seq<nat>): Stats {
    if xs == [] then NO_SAMPLES else Sample(Run(Front(xs)), Last(xs))
  }

  function Sum(xs: seq<nat>): nat {
    if xs == [] then 0 else Sum(Front(xs)) + Last(xs)
  }

  /** The squared distance of `x` from `m`. */
  function Gap(x: nat, m: real): real { (x as real - m) * (x as real - m) }

  /** The sum of squared distances from `m`. */
  function SquaredDistances(xs: seq<nat>, m: real): real {
    if xs == [] then 0.0 else SquaredDistances(Front(xs), m) + Gap(Last(xs), m)
  }

  // ----- one sample more, without the sequence

  /** What moving the centre of `n` samples from `m` to `k` adds to their squared distances: this, and for samples
      with the given total that are not centred at `m`, a second part. */
  function Shift(n: nat, m: real, k: real): real { n as real * ((m - k) * (m - k)) }

  function Cross(n: nat, total: nat, m: real, k: real): real { 2.0 * (m - k) * Lean(n, total, m) }

  function Lean(n: nat, total: nat, m: real): real { total as real - m * n as real }

  predicate Centred(n: nat, total: nat, m: real) { m * n as real == total as real }

  lemma LeanGrows(n: nat, total: nat, x: nat, m: real)
    ensures Lean(n + 1, total + x, m) == Lean(n, total, m) + (x as real - m)
  {
    assert (n + 1) as real == n as real + 1.0;
  }

  lemma CrossGrows(n: nat, total: nat, x: nat, m: real, k: real)
    ensures Cross(n + 1, total + x, m, k) == Cross(n, total, m, k) + 2.0 * (m - k) * (x as real - m)
  {
    LeanGrows(n, total, x, m);
    Distribute(2.0 * (m - k), Lean(n, total, m), x as real - m);
  }

  lemma Distribute(c: real, a: real, b: real)
    ensures c * (a + b) == c * a + c * b
  {
  }

  lemma ShiftGrows(n: nat, m: real, k: real)
    ensures Shift(n + 1, m, k) == Shift(n, m, k) + (m - k) * (m - k)
  {
    var d := (m - k) * (m - k);
    assert (n + 1) as real == n as real + 1.0;
    Distribute(d, n as real, 1.0);
  }

  lemma GapMoves(x: nat, m: real, k: real)
    ensures Gap(x, k) == Gap(x, m) + 2.0 * (m - k) * (x as real - m) + (m - k) * (m - k)
  {
    SquareOfSum(x as real - m, m - k);
    assert (x as real - m) + (m - k) == x as real - k;
  }

  lemma SquareOfSum(a: real, b: real)
    ensures (a + b) * (a + b) == a * a + 2.0 * b * a + b * b
  {
  }

  /** Seen from `k` or from `m`, one sample more keeps the difference what moving the centre makes it. */
  lemma ShiftsTogether(n: nat, total: nat, x: nat, m: real, k: real)
    ensures Cross(n, total, m, k) + Shift(n, m, k) + Gap(x, k)
         == Gap(x, m) + Cross(n + 1, total + x, m, k) + Shift(n + 1, m, k)
  {
    CrossGrows(n, total, x, m, k);
    ShiftGrows(n, m, k);
    GapMoves(x, m, k);
  }

  lemma NoCross(n: nat, total: nat, m: real, k: real)
    requires Centred(n, total, m)
    ensures Cross(n, total, m, k) == 0.0
  {
    assert Lean(n, total, m) == 0.0;
  }

  lemma NothingShifts(m: real, k: real)
    ensures Cross(0, 0, m, k) + Shift(0, m, k) == 0.0
  {
    assert Lean(0, 0, m) == 0.0;
  }

  // ----- Welford's recurrence computes them

  /** Moving the centre from `m` changes the sum of squares by what the mean says. */
  lemma {:induction false} ShiftCentre(xs: seq<nat>, m: real, k: real)
    ensures SquaredDistances(xs, k)
         == SquaredDistances(xs, m) + Cross(|xs|, Sum(xs), m, k) + Shift(|xs|, m, k)
  {
    if xs == [] {
      NothingShifts(m, k);
    } else {
      ShiftCentre(Front(xs), m, k);
      ShiftsTogether(|Front(xs)|, Sum(Front(xs)), Last(xs), m, k);
    }
  }

  predicate CentredAt(xs: seq<nat>, m: real) { Centred(|xs|, Sum(xs), m) }

  lemma ShiftFromMean(xs: seq<nat>, m: real, k: real)
    requires CentredAt(xs, m)
    ensures SquaredDistances(xs, k) == SquaredDistances(xs, m) + Shift(|xs|, m, k)
  {
    ShiftCentre(xs, m, k);
    NoCross(|xs|, Sum(xs), m, k);
  }

  /** The mean `m` of `n` samples becomes `m'` when `x` is added. */
  predicate MeanMoved(n: nat, m: real, x: nat, m': real) {
    m' * (n + 1) as real == m * n as real + x as real
  }

  lemma MeanStep(n: nat, m: real, x: nat)
    ensures MeanMoved(n, m, x, NewMean(m, x as real, n + 1))
  {
    var d := (x as real - m) / (n + 1) as real;
    assert d * (n + 1) as real == x as real - m;
    assert (n + 1) as real == n as real + 1.0;
    Distribute((n + 1) as real, m, d);
    Distribute(m, n as real, 1.0);
  }

  lemma MovedIsCentred(n: nat, total: nat, m: real, x: nat, m': real)
    requires Centred(n, total, m) && MeanMoved(n, m, x, m')
    ensures Centred(n + 1, total + x, m')
  {
  }

  predicate MeanExact(s: Stats, xs: seq<nat>) {
    s.count == |xs| && s.total == Sum(xs) && CentredAt(xs, s.mean)
  }

  lemma SampleCounts(s: Stats, x: nat)
    ensures
      var t := Sample(s, x);
      && t.count == s.count + 1 && t.total == s.total + x
      && t.mean == NewMean(s.mean, x as real, s.count + 1)
      && t.m2 == NewSpread(s.m2, x as real, s.mean, t.mean)
  {
  }

  /** The mean is the sum over the count. */
  lemma {:induction false} MeanIsExact(xs: seq<nat>)
    ensures MeanExact(Run(xs), xs)
  {
    if xs == [] {
    } else {
      var s, x := Run(Front(xs)), Last(xs);
      MeanIsExact(Front(xs));
      SampleCounts(s, x);
      MeanStep(s.count, s.mean, x);
      MovedIsCentred(s.count, s.total, s.mean, x, Run(xs).mean);
    }
  }

  predicate SpreadExact(s: Stats, xs: seq<nat>) { s.m2 == SquaredDistances(xs, s.mean) }

  lemma OneMoreDistance(xs: seq<nat>, x: nat, k: real)
    ensures SquaredDistances(xs + [x], k) == SquaredDistances(xs, k) + Gap(x, k)
  {
    assert Front(xs + [x]) == xs;
  }

  /** What moving the centre and adding `x` add to the sum of squares is what Welford's recurrence adds. */
  lemma SpreadStep(n: nat, m: real, x: nat, m': real, m2: real)
    requires MeanMoved(n, m, x, m')
    ensures m2 + Shift(n, m, m') + Gap(x, m') == NewSpread(m2, x as real, m, m')
  {
    var a, b := m - m', x as real - m';
    assert n as real * a == -b by {
      assert (n + 1) as real == n as real + 1.0;
      Distribute(n as real, m, -m');
      Distribute(m', n as real, 1.0);
    }
    assert n as real * (a * a) == (n as real * a) * a;
    Distribute(b, -a, b);
  }

  /** `m2` is the sum of squared distances from the mean. */
  lemma {:induction false} SpreadIsExact(xs: seq<nat>)
    ensures SpreadExact(Run(xs), xs)
  {
    if xs == [] {
    } else {
      var s, x := Run(Front(xs)), Last(xs);
      MeanIsExact(Front(xs));
      SpreadIsExact(Front(xs));
      SampleCounts(s, x);
      MeanStep(s.count, s.mean, x);
      ShiftFromMean(Front(xs), s.mean, Run(xs).mean);
      SpreadStep(s.count, s.mean, x, Run(xs).mean, s.m2);
    }
  }

  lemma {:induction false} DistancesAreNonnegative(xs: seq<nat>, m: real)
    ensures SquaredDistances(xs, m) >= 0.0
  {
    if xs == [] {
    } else {
      DistancesAreNonnegative(Front(xs), m);
      GapIsNonnegative(Last(xs), m);
    }
  }

  lemma GapIsNonnegative(x: nat, m: real)
    ensures Gap(x, m) >= 0.0
  {
    var d := x as real - m;
    assert d >= 0.0 || -d >= 0.0;
  }

  // ----- extremes and jitter

  /** Best and worst are the least and the greatest sample, and the mean lies between them. */
  lemma {:induction false} ExtremesAreExact(xs: seq<nat>)
    requires xs != []
    ensures
      var s := Run(xs);
      && s.best in xs && s.worst in xs && (forall x | x in xs :: s.best <= x <= s.worst)
      && s.best as real <= s.mean <= s.worst as real
  {
    var ys, x := Front(xs), Last(xs);
    MeanIsExact(ys);
    assert xs == ys + [x];
    if ys == [] {
      assert Run(xs).mean == x as real;
    } else {
      ExtremesAreExact(ys);
      MeanBetween(Run(ys).mean, x as real, |ys|);
    }
  }

  lemma MeanBetween(m: real, x: real, n: nat)
    requires n > 0
    ensures
      var m' := NewMean(m, x, n + 1);
      if m <= x then m <= m' <= x else x <= m' <= m
  {
    var d := (x - m) / (n + 1) as real;
    assert (n + 1) as real == n as real + 1.0;
    assert d * (n as real + 1.0) == x - m;
    if m <= x {
      assert 0.0 <= d <= x - m by { Fraction(d, n as real, x - m); }
    } else {
      assert 0.0 <= -d <= m - x by { Fraction(-d, n as real, m - x); }
    }
  }

  lemma Fraction(d: real, n: real, w: real)
    requires n > 0.0 && w >= 0.0 && d * (n + 1.0) == w
    ensures 0.0 <= d <= w
  {
    assert d < 0.0 ==> d * (n + 1.0) < 0.0;
    assert d * (n + 1.0) == d * n + d;
    assert d * n >= 0.0;
  }

  /** The jitter is an average of differences of samples, so it never exceeds their range. */
  lemma {:induction false} JitterIsBounded(xs: seq<nat>)
    requires xs != []
    ensures
      var s := Run(xs);
      && s.hasPrevious && s.previous == Last(xs) as real
      && 0.0 <= s.jitter <= s.worst as real - s.best as real
      && 0.0 <= s.recentJitter <= s.worst as real - s.best as real
  {
    var ys := Front(xs);
    MeanIsExact(ys);
    ExtremesAreExact(xs);
    if ys != [] {
      JitterIsBounded(ys);
      ExtremesAreExact(ys);
      assert Last(ys) in ys;
    }
  }

  // ----- the jitter as a sum

  /** How much a difference still weighs when `k` more have followed it: 15/16 for each. */
  function Decay(k: nat): real { if k == 0 then 1.0 else Decay(k - 1) * 15.0 / 16.0 }

  /** The distance between the samples `i` and `i + 1`. */
  function Difference(xs: seq<nat>, i: nat): nat
    requires i + 1 < |xs|
  {
    if xs[i] <= xs[i + 1] then xs[i + 1] - xs[i] else xs[i] - xs[i + 1]
  }

  function Share(difference: nat, k: nat): real { difference as real / 16.0 * Decay(k) }

  /** The first `i` of `n` differences, a sixteenth of each, decayed by those that follow it. */
  function DecayedSum(xs: seq<nat>, i: nat, n: nat): real
    requires i <= n && (i == 0 || i < |xs|)
  {
    if i == 0 then 0.0 else DecayedSum(xs, i - 1, n) + Share(Difference(xs, i - 1), n - i)
  }

  lemma ShareAges(difference: nat, k: nat)
    ensures Share(difference, k + 1) == Share(difference, k) * 15.0 / 16.0
  {
    var a, d := difference as real / 16.0, Decay(k);
    assert Decay(k + 1) == d * 15.0 / 16.0;
    assert a * (d * 15.0 / 16.0) == (a * d) * 15.0 / 16.0;
  }

  /** One sample more, and every difference so far has decayed once more. */
  lemma {:induction false} SumAges(xs: seq<nat>, i: nat, n: nat)
    requires i <= n && i + 1 < |xs|
    ensures DecayedSum(xs, i, n + 1) == DecayedSum(Front(xs), i, n) * 15.0 / 16.0
    decreases i
  {
    if i == 0 {
    } else {
      SumAges(xs, i - 1, n);
      ShareAges(Difference(xs, i - 1), n - i);
      assert Difference(Front(xs), i - 1) == Difference(xs, i - 1);
    }
  }

  lemma FreshShare(difference: nat)
    ensures Share(difference, 0) == difference as real / 16.0
  {
    assert Decay(0) == 1.0;
  }

  /** The jitter is the decayed sum of all the differences, the recent one is the last difference, and the sample
      remembered is the last. */
  predicate JitterExact(s: Stats, xs: seq<nat>)
    requires xs != []
  {
    && s.last == Last(xs) && s.hasPrevious && s.previous == Last(xs) as real
    && s.jitter == DecayedSum(xs, |xs| - 1, |xs| - 1)
    && s.recentJitter == if |xs| == 1 then 0.0 else Difference(xs, |xs| - 2) as real
  }

  lemma {:induction false} JitterIsExact(xs: seq<nat>)
    requires xs != []
    ensures JitterExact(Run(xs), xs)
  {
    var ys, n := Front(xs), |xs| - 1;
    if ys == [] {
    } else {
      var d := Difference(xs, n - 1);
      JitterIsExact(ys);
      SumAges(xs, n - 1, n - 1);
      FreshShare(d);
      assert Abs(Last(xs) as real - Last(ys) as real) == d as real;
      assert Smoothed(Run(ys).jitter, d as real) == Run(ys).jitter * 15.0 / 16.0 + d as real / 16.0;
    }
  }

  /** Online equals batch: for every sequence of samples, the count, total, mean and spread are the exact
      ones, and the spread is never negative. */
  lemma OnlineIsBatch(xs: seq<nat>)
    ensures MeanExact(Run(xs), xs) && SpreadExact(Run(xs), xs) && Run(xs).m2 >= 0.0
  {
    MeanIsExact(xs);
    SpreadIsExact(xs);
    DistancesAreNonnegative(xs, Run(xs).mean);
  }
}

/** The list of responders against the history of the replies. */
module ResponderRecency {
  import opened Basics
  import opened HopModel
  import opened HopStatistics

  datatype Event =
    | Answered(addr: Address, rtt: nat, sequence: nat, cycle: nat, tick: nat, outcome: Outcome, status: nat)
    | Learned(addr: Address, news: Info)

  function Step(h: Hop, e: Event): Hop {
    match e
    case Answered(a, rtt, sequence, cycle, tick, outcome, status) =>
      Observe(NoteReply(h, rtt, cycle, tick, outcome, status), a, rtt, sequence, tick)
    case Learned(a, news) => Update(h, a, news)
  }

  function After(es: seq<Event>): Hop {
    if es == [] then Blank(0) else Step(After(Front(es)), Last(es))
  }

  /** Replies come from real addresses and carry increasing sequence numbers. */
  predicate Ordered(es: seq<Event>) {
    && (forall i | 0 <= i < |es| && es[i].Answered? :: es[i].addr != Unspecified)
    && (forall i, j | 0 <= i < j < |es| && es[i].Answered? && es[j].Answered? :: es[i].sequence < es[j].sequence)
  }

  // ----- an abstract list of recent addresses

  function Remove(d: seq<Address>, a: Address): (r: seq<Address>)
    ensures a !in r
    ensures forall b | b != a :: b in r <==> b in d
  {
    if d == [] then [] else if d[0] == a then Remove(d[1..], a) else [d[0]] + Remove(d[1..], a)
  }

  /** The distinct addresses that have answered, most recent first. */
  function Recency(es: seq<Event>): seq<Address> {
    if es == [] then []
    else if Last(es).Answered? then [Last(es).addr] + Remove(Recency(Front(es)), Last(es).addr)
    else Recency(Front(es))
  }

  /** The sequence number of the last reply from `a`. */
  function LastReply(es: seq<Event>, a: Address): nat {
    if es == [] then 0
    else if Last(es).Answered? && Last(es).addr == a then Last(es).sequence
    else LastReply(Front(es), a)
  }

  predicate Distinct(d: seq<Address>) { forall i, j | 0 <= i < j < |d| :: d[i] != d[j] }

  function Newest(d: seq<Address>): seq<Address> {
    if |d| <= MAX_RESPONDERS then d else d[..MAX_RESPONDERS]
  }

  lemma {:induction false} RemoveAbsent(d: seq<Address>, a: Address)
    requires a !in d
    ensures Remove(d, a) == d
  {
    if d != [] { RemoveAbsent(d[1..], a); }
  }

  /** Removing the address at `i` of a list without duplicates closes the gap. */
  lemma {:induction false} RemoveAt(d: seq<Address>, i: nat)
    requires Distinct(d) && i < |d|
    ensures Remove(d, d[i]) == d[..i] + d[i + 1..]
  {
    if i == 0 {
      RemoveAbsent(d[1..], d[0]);
      assert d[..0] + d[0 + 1..] == d[1..];
    } else {
      RemoveAt(d[1..], i - 1);
      assert d[..i] + d[i + 1..] == [d[0]] + (d[1..][..i - 1] + d[1..][i..]);
    }
  }

  lemma DistinctCons(a: Address, d: seq<Address>)
    requires Distinct(d) && a !in d
    ensures Distinct([a] + d)
  {
    forall i, j | 0 <= i < j < |d| + 1 ensures ([a] + d)[i] != ([a] + d)[j] {
      assert ([a] + d)[j] == d[j - 1] && (i > 0 ==> ([a] + d)[i] == d[i - 1]);
    }
  }

  lemma {:induction false} RemoveKeepsDistinct(d: seq<Address>, a: Address)
    requires Distinct(d)
    ensures Distinct(Remove(d, a))
  {
    if d != [] {
      assert Distinct(d[1..]) by { assert forall i | 0 <= i < |d| - 1 :: d[1..][i] == d[i + 1]; }
      RemoveKeepsDistinct(d[1..], a);
      if d[0] != a {
        assert d[0] !in d[1..];
        DistinctCons(d[0], Remove(d[1..], a));
      }
    }
  }

  lemma {:induction false} RecencyIsDistinct(es: seq<Event>)
    ensures Distinct(Recency(es))
  {
    if es != [] {
      RecencyIsDistinct(Front(es));
      if Last(es).Answered? {
        RemoveKeepsDistinct(Recency(Front(es)), Last(es).addr);
        DistinctCons(Last(es).addr, Remove(Recency(Front(es)), Last(es).addr));
      }
    }
  }

  /** How a full or partial list of the newest changes when an address outside it answers. */
  lemma NewestAfter(d: seq<Address>, a: Address)
    requires Distinct(d)
    ensures
      var n, n' := Newest(d), Newest([a] + Remove(d, a));
      && (a !in n && |n| >= MAX_RESPONDERS ==> n' == [a] + n[..|n| - 1])
      && (a !in n && |n| < MAX_RESPONDERS ==> n' == [a] + n)
  {
    var n := Newest(d);
    if a !in n {
      if a in d {
        var i :| 0 <= i < |d| && d[i] == a;
        assert i >= MAX_RESPONDERS;
        RemoveAt(d, i);
      } else {
        RemoveAbsent(d, a);
      }
    }
  }

  lemma NewestAfterKnown(d: seq<Address>, i: nat)
    requires Distinct(d) && i < |Newest(d)|
    ensures Newest([d[i]] + Remove(d, d[i])) == [d[i]] + (Newest(d)[..i] + Newest(d)[i + 1..])
  {
    RemoveAt(d, i);
    MoveThenCut(d, i, MAX_RESPONDERS);
  }

  /** Moving an element to the front and cutting off after `n` can be done in either order. */
  lemma MoveThenCut(d: seq<Address>, i: nat, n: nat)
    requires i < n && i < |d|
    ensures
      var moved := [d[i]] + (d[..i] + d[i + 1..]);
      if |d| <= n then |moved| <= n
      else moved[..n] == [d[i]] + (d[..n][..i] + d[..n][i + 1..])
  {
  }

  // ----- the list is that abstract list

  function Addresses(rs: seq<Responder>): seq<Address> { seq(|rs|, i requires 0 <= i < |rs| => rs[i].addr) }

  predicate NewestFirst(rs: seq<Responder>) {
    forall i, j | 0 <= i < j < |rs| :: rs[i].lastSeen > rs[j].lastSeen
  }

  predicate Recent(rs: seq<Responder>, es: seq<Event>) {
    && Addresses(rs) == Newest(Recency(es))
    && NewestFirst(rs)
    && (forall i | 0 <= i < |rs| :: rs[i].addr != Unspecified && rs[i].lastSeen == LastReply(es, rs[i].addr))
  }

  /** Evicting the responder seen longest ago is dropping the last of the list. */
  lemma EvictionDropsLast(rs: seq<Responder>)
    requires NewestFirst(rs) && rs != []
    ensures Oldest(rs) == |rs| - 1 && Without(rs, Oldest(rs)) == rs[..|rs| - 1]
  {
  }

  /** What promotion puts in front, and what it leaves behind it. */
  function Moved(rs: seq<Responder>, a: Address): Responder {
    if Find(rs, a) < |rs| then rs[Find(rs, a)] else Responder(a, NOTHING, 0, 0, NO_SAMPLES)
  }

  function Others(rs: seq<Responder>, a: Address): seq<Responder> {
    if Find(rs, a) < |rs| then Without(rs, Find(rs, a))
    else if |rs| >= MAX_RESPONDERS then Without(rs, Oldest(rs))
    else rs
  }

  lemma PromoteParts(rs: seq<Responder>, a: Address, x: Responder)
    ensures Promote(rs, a)[0] == Moved(rs, a) && Promote(rs, a)[0 := x] == [x] + Others(rs, a)
  {
  }

  lemma WithoutAt(rs: seq<Responder>, i: nat, j: nat)
    requires i < |rs| && j < |rs| - 1
    ensures |Without(rs, i)| == |rs| - 1 && Without(rs, i)[j] == rs[if j < i then j else j + 1]
  {
  }

  lemma WithoutKeepsOrder(rs: seq<Responder>, i: nat)
    requires NewestFirst(rs) && i < |rs|
    ensures NewestFirst(Without(rs, i))
  {
    var w := Without(rs, i);
    forall j, k | 0 <= j < k < |w| ensures w[j].lastSeen > w[k].lastSeen {
      WithoutAt(rs, i, j);
      WithoutAt(rs, i, k);
    }
  }

  lemma OthersKeepOrder(rs: seq<Responder>, a: Address)
    requires NewestFirst(rs)
    ensures NewestFirst(Others(rs, a))
  {
    if Find(rs, a) < |rs| {
      WithoutKeepsOrder(rs, Find(rs, a));
    } else if |rs| >= MAX_RESPONDERS {
      WithoutKeepsOrder(rs, Oldest(rs));
    }
  }

  lemma AbsentAddress(rs: seq<Responder>, a: Address)
    requires Find(rs, a) == |rs| && a != Unspecified
    ensures a !in Addresses(rs) && forall r | r in rs :: r.addr != a
  {
    forall i | 0 <= i < |rs| ensures Addresses(rs)[i] != a { assert !SameAddress(rs[i].addr, a); }
  }

  lemma WithoutMember(rs: seq<Responder>, i: nat, r: Responder) returns (k: nat)
    requires i < |rs| && r in Without(rs, i)
    ensures k < |rs| && k != i && rs[k] == r
  {
    var j :| 0 <= j < |Without(rs, i)| && Without(rs, i)[j] == r;
    WithoutAt(rs, i, j);
    k := if j < i then j else j + 1;
  }

  /** The others were in the list before, under other addresses. */
  lemma OthersAreOld(rs: seq<Responder>, a: Address, r: Responder)
    requires Distinct(Addresses(rs)) && a != Unspecified && r in Others(rs, a)
    ensures r in rs && r.addr != a
  {
    var i := Find(rs, a);
    if i < |rs| {
      var k := WithoutMember(rs, i, r);
      assert Addresses(rs)[k] != Addresses(rs)[i];
    } else {
      AbsentAddress(rs, a);
      if |rs| >= MAX_RESPONDERS { var k := WithoutMember(rs, Oldest(rs), r); }
    }
  }

  lemma AddressesWithout(rs: seq<Responder>, i: nat)
    requires i < |rs|
    ensures Addresses(Without(rs, i)) == Addresses(rs)[..i] + Addresses(rs)[i + 1..]
  {
  }

  /** Promotion keeps the list of addresses the newest of the abstract list. */
  lemma OthersAddresses(rs: seq<Responder>, d: seq<Address>, a: Address)
    requires NewestFirst(rs) && Distinct(d) && Addresses(rs) == Newest(d) && a != Unspecified
    ensures [a] + Addresses(Others(rs, a)) == Newest([a] + Remove(d, a))
  {
    if Find(rs, a) < |rs| {
      KnownAddresses(rs, d, a);
    } else {
      NewAddresses(rs, d, a);
    }
  }

  lemma KnownAddresses(rs: seq<Responder>, d: seq<Address>, a: Address)
    requires Distinct(d) && Addresses(rs) == Newest(d) && a != Unspecified && Find(rs, a) < |rs|
    ensures [a] + Addresses(Without(rs, Find(rs, a))) == Newest([a] + Remove(d, a))
  {
    var i := Find(rs, a);
    assert Addresses(rs)[i] == a;
    AddressesWithout(rs, i);
    NewestAfterKnown(d, i);
  }

  lemma NewAddresses(rs: seq<Responder>, d: seq<Address>, a: Address)
    requires NewestFirst(rs) && Distinct(d) && Addresses(rs) == Newest(d) && a != Unspecified && Find(rs, a) == |rs|
    ensures [a] + Addresses(Others(rs, a)) == Newest([a] + Remove(d, a))
  {
    AbsentAddress(rs, a);
    NewestAfter(d, a);
    if |rs| >= MAX_RESPONDERS { DropLastAddress(rs); }
  }

  lemma DropLastAddress(rs: seq<Responder>)
    requires NewestFirst(rs) && rs != []
    ensures Addresses(Without(rs, Oldest(rs))) == Addresses(rs)[..|rs| - 1]
  {
    EvictionDropsLast(rs);
  }

  lemma NewestAreDistinct(rs: seq<Responder>, d: seq<Address>)
    requires Distinct(d) && Addresses(rs) == Newest(d)
    ensures Distinct(Addresses(rs))
  {
    var n := Addresses(rs);
    forall i, j | 0 <= i < j < |n| ensures n[i] != n[j] { assert n[i] == d[i] && n[j] == d[j]; }
  }

  lemma {:induction false} LastReplyBound(es: seq<Event>, a: Address, bound: nat)
    requires forall i | 0 <= i < |es| && es[i].Answered? :: es[i].sequence < bound
    requires 0 < bound
    ensures LastReply(es, a) < bound
  {
    if es != [] { LastReplyBound(Front(es), a, bound); }
  }

  /** A responder that did not answer now has the number of its last reply still, a smaller one. */
  lemma StillItsLast(es: seq<Event>, e: Event, r: Responder)
    requires Ordered(es + [e]) && e.Answered? && 0 < e.sequence
    requires r.addr != e.addr && r.lastSeen == LastReply(es, r.addr)
    ensures r.lastSeen == LastReply(es + [e], r.addr) < e.sequence
  {
    var es' := es + [e];
    assert Front(es') == es && Last(es') == e && es'[|es|] == e;
    assert forall i | 0 <= i < |es| :: es'[i] == es[i];
    LastReplyBound(es, r.addr, e.sequence);
  }

  lemma RecentCons(x: Responder, others: seq<Responder>, es: seq<Event>)
    requires [x.addr] + Addresses(others) == Newest(Recency(es)) && NewestFirst(others)
    requires x.addr != Unspecified && x.lastSeen == LastReply(es, x.addr)
    requires forall r | r in others ::
               r.addr != Unspecified && r.lastSeen == LastReply(es, r.addr) && r.lastSeen < x.lastSeen
    ensures Recent([x] + others, es)
  {
    var rs := [x] + others;
    assert Addresses(rs) == [x.addr] + Addresses(others);
    forall i, j | 0 <= i < j < |rs| ensures rs[i].lastSeen > rs[j].lastSeen {
      assert rs[j] == others[j - 1] && (i > 0 ==> rs[i] == others[i - 1]);
    }
    forall i | 0 <= i < |rs| ensures rs[i].addr != Unspecified && rs[i].lastSeen == LastReply(es, rs[i].addr) {
      assert i > 0 ==> rs[i] == others[i - 1] && rs[i] in others;
    }
  }

  lemma AnsweredStaysRecent(rs: seq<Responder>, es: seq<Event>, e: Event)
    requires Recent(rs, es) && e.Answered? && Ordered(es + [e]) && 0 < e.sequence
    ensures
      var rs' := Promote(rs, e.addr);
      Recent(rs'[0 := HopModel.Heard(rs'[0], e.rtt, e.sequence, e.tick)], es + [e])
  {
    var es', others := es + [e], Others(rs, e.addr);
    var x := HopModel.Heard(Moved(rs, e.addr), e.rtt, e.sequence, e.tick);
    assert Front(es') == es && Last(es') == e && es'[|es|] == e;
    PromoteParts(rs, e.addr, x);
    RecencyIsDistinct(es);
    NewestAreDistinct(rs, Recency(es));
    OthersAddresses(rs, Recency(es), e.addr);
    OthersKeepOrder(rs, e.addr);
    forall r | r in others
      ensures r.addr != Unspecified && r.lastSeen == LastReply(es', r.addr) && r.lastSeen < x.lastSeen
    {
      OthersAreOld(rs, e.addr, r);
      StillItsLast(es, e, r);
    }
    RecentCons(x, others, es');
  }

  lemma LearnedStaysRecent(h: Hop, es: seq<Event>, e: Event)
    requires Recent(h.responders, es) && e.Learned?
    ensures Recent(Update(h, e.addr, e.news).responders, es + [e])
  {
    var rs' := Update(h, e.addr, e.news).responders;
    assert Front(es + [e]) == es && Last(es + [e]) == e;
    assert Addresses(rs') == Addresses(h.responders);
  }

  /** In every history the list of responders is the list of the most recently seen distinct addresses,
      in order of recency, each with the number of its last reply. */
  lemma {:induction false} ListIsRecency(es: seq<Event>)
    requires Ordered(es) && forall i | 0 <= i < |es| && es[i].Answered? :: 0 < es[i].sequence
    ensures Recent(After(es).responders, es)
  {
    if es == [] {
    } else {
      assert Front(es) + [Last(es)] == es;
      ListIsRecency(Front(es));
      if Last(es).Answered? {
        AnsweredStaysRecent(After(Front(es)).responders, Front(es), Last(es));
      } else {
        LearnedStaysRecent(After(Front(es)), Front(es), Last(es));
      }
    }
  }

  /** What the hop shows is what its front responder carries. */
  predicate Mirrors(h: Hop) {
    h.responders != [] ==> h.addr == h.responders[0].addr && h.info == h.responders[0].info
  }

  lemma StepKeepsMirror(h: Hop, e: Event)
    requires Mirrors(h)
    ensures Mirrors(Step(h, e))
  {
  }

  // ----- pooling

  function Counted(rs: seq<Responder>): nat { if rs == [] then 0 else rs[0].stats.count + Counted(rs[1..]) }

  function Totalled(rs: seq<Responder>): nat { if rs == [] then 0 else rs[0].stats.total + Totalled(rs[1..]) }

  lemma {:induction false} PoolsWithout(rs: seq<Responder>, i: nat)
    requires i < |rs|
    ensures Counted(rs) == rs[i].stats.count + Counted(Without(rs, i))
    ensures Totalled(rs) == rs[i].stats.total + Totalled(Without(rs, i))
  {
    if i == 0 {
      assert Without(rs, 0) == rs[1..];
    } else {
      PoolsWithout(rs[1..], i - 1);
      assert Without(rs, i) == [rs[0]] + Without(rs[1..], i - 1);
    }
  }

  /** The hop's statistics pool those of its responders, each of which has answered at least once. */
  predicate Pooled(h: Hop) {
    var s, rs := h.stats, h.responders;
    && s.count == Counted(rs) && s.total == Totalled(rs)
    && (forall r | r in rs :: 1 <= r.stats.count && s.best <= r.stats.best && r.stats.worst <= s.worst)
    && (s.count != 0 ==> exists r :: r in rs && r.stats.best == s.best)
    && (s.count != 0 ==> exists r :: r in rs && r.stats.worst == s.worst)
  }

  lemma AnswerKeepsPool(h: Hop, e: Event)
    requires Pooled(h) && e.Answered?
    requires Find(h.responders, e.addr) < |h.responders| || |h.responders| < MAX_RESPONDERS
    ensures Pooled(Step(h, e))
  {
    var rs, i, others := h.responders, Find(h.responders, e.addr), Others(h.responders, e.addr);
    var x := HopModel.Heard(Moved(rs, e.addr), e.rtt, e.sequence, e.tick);
    AnswerParts(h, e, x);
    forall r | r in rs && (i < |rs| ==> r != rs[i]) ensures r in [x] + others { OthersHave(rs, e.addr, r); }
    forall r | r in [x] + others ensures r == x || r in rs { if r != x { OthersWereThere(rs, e.addr, r); } }
    ExtremesPooled(h, [x] + others, x, e.rtt, if i < |rs| then Some(rs[i]) else None);
  }

  /** The parts of the hop that an answer changes, and that counts and totals still pool. */
  lemma AnswerParts(h: Hop, e: Event, x: Responder)
    requires e.Answered? && h.stats.count == Counted(h.responders) && h.stats.total == Totalled(h.responders)
    requires Find(h.responders, e.addr) < |h.responders| || |h.responders| < MAX_RESPONDERS
    requires x == HopModel.Heard(Moved(h.responders, e.addr), e.rtt, e.sequence, e.tick)
    ensures
      var h', rs' := Step(h, e), [x] + Others(h.responders, e.addr);
      && h'.responders == rs' && h'.stats == Sample(h.stats, e.rtt)
      && h'.stats.count == Counted(rs') && h'.stats.total == Totalled(rs')
  {
    var rs, others := h.responders, Others(h.responders, e.addr);
    PromoteParts(rs, e.addr, x);
    if Find(rs, e.addr) < |rs| { PoolsWithout(rs, Find(rs, e.addr)); }
    assert ([x] + others)[1..] == others;
  }

  lemma OthersHave(rs: seq<Responder>, a: Address, r: Responder)
    requires r in rs && (Find(rs, a) < |rs| ==> r != rs[Find(rs, a)])
    requires Find(rs, a) < |rs| || |rs| < MAX_RESPONDERS
    ensures r in Others(rs, a)
  {
    var i := Find(rs, a);
    if i < |rs| {
      var j :| 0 <= j < |rs| && rs[j] == r;
      WithoutAt(rs, i, if j < i then j else j - 1);
    }
  }

  lemma OthersWereThere(rs: seq<Responder>, a: Address, r: Responder)
    requires r in Others(rs, a)
    ensures r in rs
  {
    if Find(rs, a) < |rs| {
      var k := WithoutMember(rs, Find(rs, a), r);
    } else if |rs| >= MAX_RESPONDERS {
      var k := WithoutMember(rs, Oldest(rs), r);
    }
  }

  lemma ExtremesPooled(h: Hop, rs': seq<Responder>, x: Responder, rtt: nat, was: Option<Responder>)
    requires Pooled(h) && x in rs'
    requires was.Some? ==> was.value in h.responders && x.stats == Sample(was.value.stats, rtt)
    requires was.None? ==> x.stats == Sample(NO_SAMPLES, rtt)
    requires forall r | r in h.responders && (was.Some? ==> r != was.value) :: r in rs'
    requires forall r | r in rs' :: r == x || r in h.responders
    ensures
      var s := Sample(h.stats, rtt);
      && (forall r | r in rs' :: 1 <= r.stats.count && s.best <= r.stats.best && r.stats.worst <= s.worst)
      && (exists r :: r in rs' && r.stats.best == s.best)
      && (exists r :: r in rs' && r.stats.worst == s.worst)
  {
    var s := Sample(h.stats, rtt);
    if h.stats.count == 0 {
      forall r | r in h.responders ensures false { CountedMember(h.responders, r); }
    } else {
      var b :| b in h.responders && b.stats.best == h.stats.best;
      var w :| w in h.responders && w.stats.worst == h.stats.worst;
      assert x.stats.best == s.best || (b in rs' && b.stats.best == s.best);
      assert x.stats.worst == s.worst || (w in rs' && w.stats.worst == s.worst);
    }
  }

  lemma {:induction false} CountedMember(rs: seq<Responder>, r: Responder)
    requires r in rs
    ensures r.stats.count <= Counted(rs)
  {
    if rs[0] != r { CountedMember(rs[1..], r); }
  }

  lemma LearnedKeepsPool(h: Hop, e: Event)
    requires Pooled(h) && e.Learned?
    ensures Pooled(Step(h, e))
  {
    if Find(h.responders, e.addr) < |h.responders| { PoolOfSameStats(h, Step(h, e)); }
  }

  lemma PoolOfSameStats(h: Hop, h': Hop)
    requires Pooled(h) && h'.stats == h.stats && |h'.responders| == |h.responders|
    requires forall i | 0 <= i < |h.responders| :: h.responders[i].stats == h'.responders[i].stats
    ensures Pooled(h')
  {
    var rs, rs' := h.responders, h'.responders;
    SameStatsSamePool(rs, rs');
    forall r' | r' in rs' ensures exists r :: r in rs && r.stats == r'.stats {
      var j :| 0 <= j < |rs'| && rs'[j] == r';
      assert rs[j] in rs && rs[j].stats == r'.stats;
    }
    if h.stats.count != 0 {
      var b :| b in rs && b.stats.best == h.stats.best;
      var w :| w in rs && w.stats.worst == h.stats.worst;
      var j :| 0 <= j < |rs| && rs[j] == b;
      var k :| 0 <= k < |rs| && rs[k] == w;
      assert rs'[j] in rs' && rs'[k] in rs';
    }
  }

  lemma {:induction false} SameStatsSamePool(rs: seq<Responder>, rs': seq<Responder>)
    requires |rs| == |rs'| && forall i | 0 <= i < |rs| :: rs[i].stats == rs'[i].stats
    ensures Counted(rs) == Counted(rs') && Totalled(rs) == Totalled(rs')
  {
    if rs != [] { SameStatsSamePool(rs[1..], rs'[1..]); }
  }

  /** As long as no more addresses have answered than the list can hold, the hop's count, total and
      extremes are the pooled ones of its responders. */
  lemma {:induction false} HopPoolsResponders(es: seq<Event>)
    requires Ordered(es) && forall i | 0 <= i < |es| && es[i].Answered? :: 0 < es[i].sequence
    requires |Recency(es)| <= MAX_RESPONDERS
    ensures Pooled(After(es))
  {
    if es == [] {
    } else {
      var ys, e := Front(es), Last(es);
      assert ys + [e] == es;
      RecencyGrows(ys, e);
      HopPoolsResponders(ys);
      ListIsRecency(ys);
      if e.Answered? {
        RoomOrKnown(After(ys).responders, ys, e);
        AnswerKeepsPool(After(ys), e);
      } else {
        LearnedKeepsPool(After(ys), e);
      }
    }
  }

  lemma RecencyGrows(es: seq<Event>, e: Event)
    ensures |Recency(es)| <= |Recency(es + [e])|
    ensures e.Answered? && e.addr !in Recency(es) ==> |Recency(es + [e])| == |Recency(es)| + 1
  {
    assert Front(es + [e]) == es && Last(es + [e]) == e;
    RecencyIsDistinct(es);
    if e.Answered? {
      var d := Recency(es);
      if e.addr in d {
        var i :| 0 <= i < |d| && d[i] == e.addr;
        RemoveAt(d, i);
      } else {
        RemoveAbsent(d, e.addr);
      }
    }
  }

  lemma RoomOrKnown(rs: seq<Responder>, es: seq<Event>, e: Event)
    requires Recent(rs, es) && e.Answered? && e.addr != Unspecified && |Recency(es + [e])| <= MAX_RESPONDERS
    ensures Find(rs, e.addr) < |rs| || |rs| < MAX_RESPONDERS
  {
    RecencyGrows(es, e);
    if e.addr in Recency(es) {
      var i :| 0 <= i < |Recency(es)| && Recency(es)[i] == e.addr;
      assert Addresses(rs)[i] == e.addr;
    }
  }

  // ----- whose samples they are

  /** The round-trip times of a history, and those of the replies of one address. */
  function Rtts(es: seq<Event>): seq<nat> {
    if es == [] then [] else if Last(es).Answered? then Rtts(Front(es)) + [Last(es).rtt] else Rtts(Front(es))
  }

  function RttsOf(es: seq<Event>, a: Address): seq<nat> {
    if es == [] then []
    else if Last(es).Answered? && Last(es).addr == a then RttsOf(Front(es), a) + [Last(es).rtt]
    else RttsOf(Front(es), a)
  }

  lemma RunOneMore(xs: seq<nat>, x: nat)
    ensures Run(xs + [x]) == Sample(Run(xs), x)
  {
    assert Front(xs + [x]) == xs && Last(xs + [x]) == x;
  }

  predicate OwnSamples(rs: seq<Responder>, es: seq<Event>) {
    forall i | 0 <= i < |rs| :: rs[i].stats == Run(RttsOf(es, rs[i].addr))
  }

  lemma {:induction false} UnheardHasNone(es: seq<Event>, a: Address)
    requires a !in Recency(es)
    ensures RttsOf(es, a) == []
  {
    if es != [] { UnheardHasNone(Front(es), a); }
  }

  /** The replies of an address since it last entered the list. */
  function RttsSince(es: seq<Event>, a: Address): seq<nat>
    decreases |es|, 0
  {
    if es == [] then []
    else if Last(es).Answered? && Last(es).addr == a then Kept(Front(es), a) + [Last(es).rtt]
    else RttsSince(Front(es), a)
  }

  /** What is remembered of an address when it answers again: nothing if it is not on the list. */
  function Kept(es: seq<Event>, a: Address): seq<nat>
    decreases |es|, 1
  {
    if a in Newest(Recency(es)) then RttsSince(es, a) else []
  }

  predicate CurrentSamples(rs: seq<Responder>, es: seq<Event>) {
    forall i | 0 <= i < |rs| :: rs[i].stats == Run(RttsSince(es, rs[i].addr))
  }

  /** As long as the list has had room for every address, that is all of them. */
  lemma {:induction false} RoomKeepsAll(es: seq<Event>, a: Address)
    requires |Recency(es)| <= MAX_RESPONDERS
    ensures RttsSince(es, a) == RttsOf(es, a)
  {
    if es == [] {
    } else {
      var ys := Front(es);
      assert ys + [Last(es)] == es;
      RecencyGrows(ys, Last(es));
      RoomKeepsAll(ys, a);
      if a !in Recency(ys) { UnheardHasNone(ys, a); }
    }
  }

  /** The one moved to the front has just the samples remembered of it, or none if it is new. */
  lemma MovedIsKept(rs: seq<Responder>, es: seq<Event>, a: Address)
    requires Recent(rs, es) && CurrentSamples(rs, es) && a != Unspecified
    ensures Moved(rs, a).addr == a && Moved(rs, a).stats == Run(Kept(es, a))
  {
    if Find(rs, a) == |rs| {
      AbsentAddress(rs, a);
    } else {
      assert Addresses(rs)[Find(rs, a)] == a;
    }
  }

  lemma HeardIsCurrent(r: Responder, past: seq<nat>, rtt: nat, sequence: nat, tick: nat)
    requires r.stats == Run(past)
    ensures
      var x := HopModel.Heard(r, rtt, sequence, tick);
      x.addr == r.addr && x.stats == Run(past + [rtt])
  {
    RunOneMore(past, rtt);
  }

  lemma AnswerKeepsCurrent(rs: seq<Responder>, es: seq<Event>, e: Event, x: Responder)
    requires Recent(rs, es) && CurrentSamples(rs, es) && e.Answered? && e.addr != Unspecified
    requires x.addr == e.addr && x.stats == Run(Kept(es, e.addr) + [e.rtt])
    ensures CurrentSamples([x] + Others(rs, e.addr), es + [e])
  {
    var es', others := es + [e], Others(rs, e.addr);
    assert Front(es') == es && Last(es') == e;
    RecencyIsDistinct(es);
    NewestAreDistinct(rs, Recency(es));
    forall r | r in others ensures r.stats == Run(RttsSince(es', r.addr)) { OthersAreOld(rs, e.addr, r); }
    CurrentCons(x, others, es');
  }

  lemma CurrentCons(x: Responder, others: seq<Responder>, es: seq<Event>)
    requires x.stats == Run(RttsSince(es, x.addr))
    requires forall r | r in others :: r.stats == Run(RttsSince(es, r.addr))
    ensures CurrentSamples([x] + others, es)
  {
    var rs := [x] + others;
    forall i | 0 <= i < |rs| ensures rs[i].stats == Run(RttsSince(es, rs[i].addr)) {
      assert i > 0 ==> rs[i] == others[i - 1] && rs[i] in others;
    }
  }

  lemma StepKeepsCurrent(h: Hop, es: seq<Event>, e: Event)
    requires Recent(h.responders, es) && CurrentSamples(h.responders, es) && (e.Answered? ==> e.addr != Unspecified)
    ensures CurrentSamples(Step(h, e).responders, es + [e])
  {
    if e.Answered? {
      var before := Moved(h.responders, e.addr);
      var x := HopModel.Heard(before, e.rtt, e.sequence, e.tick);
      MovedIsKept(h.responders, es, e.addr);
      HeardIsCurrent(before, Kept(es, e.addr), e.rtt, e.sequence, e.tick);
      PromoteParts(h.responders, e.addr, x);
      AnswerKeepsCurrent(h.responders, es, e, x);
    } else {
      assert Front(es + [e]) == es && Last(es + [e]) == e;
    }
  }

  lemma StepTakesSample(h: Hop, e: Event)
    ensures Step(h, e).stats == if e.Answered? then Sample(h.stats, e.rtt) else h.stats
  {
  }

  /** In every history the hop's statistics are those of all its replies. */
  lemma {:induction false} HopHasAllReplies(es: seq<Event>)
    ensures After(es).stats == Run(Rtts(es))
  {
    if es == [] {
    } else {
      HopHasAllReplies(Front(es));
      StepTakesSample(After(Front(es)), Last(es));
      if Last(es).Answered? { RunOneMore(Rtts(Front(es)), Last(es).rtt); }
    }
  }

  lemma {:induction false} ListedHaveCurrent(es: seq<Event>)
    requires Ordered(es) && forall i | 0 <= i < |es| && es[i].Answered? :: 0 < es[i].sequence
    ensures CurrentSamples(After(es).responders, es)
  {
    if es == [] {
    } else {
      assert Front(es) + [Last(es)] == es;
      ListedHaveCurrent(Front(es));
      ListIsRecency(Front(es));
      StepKeepsCurrent(After(Front(es)), Front(es), Last(es));
    }
  }

  /** In every history the hop's statistics are those of all its replies, and each listed responder's those of
      exactly its own replies since it last entered the list; as long as the list has had room for every
      address, that is all its replies. */
  lemma StatsAreOfTheirReplies(es: seq<Event>)
    requires Ordered(es) && forall i | 0 <= i < |es| && es[i].Answered? :: 0 < es[i].sequence
    ensures After(es).stats == Run(Rtts(es)) && CurrentSamples(After(es).responders, es)
    ensures |Recency(es)| <= MAX_RESPONDERS ==> OwnSamples(After(es).responders, es)
  {
    var rs := After(es).responders;
    HopHasAllReplies(es);
    ListedHaveCurrent(es);
    if |Recency(es)| <= MAX_RESPONDERS {
      forall i | 0 <= i < |rs| ensures rs[i].stats == Run(RttsOf(es, rs[i].addr)) { RoomKeepsAll(es, rs[i].addr); }
    }
  }
}
