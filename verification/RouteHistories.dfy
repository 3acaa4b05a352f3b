/** What the automaton guarantees over whole histories. */
module RouteHistories {
  import opened Basics
  import opened RouteModel

  datatype Event = Reply(ttl: nat, destination: bool) | Cycle(completed: nat)

  function Step(p: Policy, e: Event): (q: Policy)
    requires Normal(p.config)
    ensures q.config == p.config
  {
    match e
    case Reply(ttl, destination) => NoteReply(p, ttl, destination)
    case Cycle(completed) => CompleteCycle(p, completed).0
  }

  /** The automaton after the calls `es` that follow a reset. */
  function After(c: Config, es: seq<Event>): (p: Policy)
    requires Normal(c)
    ensures p.config == c
  {
    if es == [] then Reset(c) else Step(After(c, Front(es)), Last(es))
  }

  // ----- an independent account of a history: it knows nothing of the automaton's fields

  /** Whether a window is open, the replies since the last window was opened, and the ceilings that the
      windows closed so far have found. */
  datatype Account = Account(open: bool, heard: seq<Event>, found: seq<nat>)

  predicate Counted(c: Config, e: Event) { e.Reply? && c.startTtl <= e.ttl <= c.maxHops }

  /** The lowest TTL at which the destination answered; 0 when it did not. */
  function LowestDestination(c: Config, h: seq<Event>): nat {
    if h == [] then 0 else
    var before, e := LowestDestination(c, Front(h)), Last(h);
    if Counted(c, e) && e.destination && (before == 0 || e.ttl < before) then e.ttl else before
  }

  /** The highest TTL that answered at all; 0 when none did. */
  function HighestAnswer(c: Config, h: seq<Event>): nat {
    if h == [] then 0 else
    var before, e := HighestAnswer(c, Front(h)), Last(h);
    if Counted(c, e) && before < e.ttl then e.ttl else before
  }

  /** How far the replies of a window call for: to the destination; or else some silent hops past the highest
      answer, or past the hop before the first one, short of the last hop. Never short of the mandatory TTL. */
  function CeilingOf(c: Config, h: seq<Event>): nat
    requires Normal(c)
  {
    var d, top := LowestDestination(c, h), HighestAnswer(c, h);
    var silent := (if top == 0 then c.startTtl - 1 else top) + c.unknownHostLimit;
    var far := if d != 0 then d else if silent < c.maxHops then silent else c.maxHops;
    var least := if c.startTtl < c.minimumTtl then c.minimumTtl else c.startTtl;
    if far < least then least else far
  }

  predicate EndsWith(w: seq<nat>, k: nat, n: nat) {
    k <= |w| && forall i | |w| - k <= i < |w| :: w[i] == n
  }

  /** The ceiling that the windows alone call for: the first is adopted; later, growth at once, and a
      smaller one when the last `k` windows agree on it. */
  function Adopted(w: seq<nat>, k: nat, top: nat): nat {
    if w == [] then top
    else if |w| == 1 then w[0]
    else
      var before, n := Adopted(w[..|w| - 1], k, top), w[|w| - 1];
      if n >= before || EndsWith(w, k, n) then n else before
  }

  /** A window opens on each multiple of the period at which the adopted ceiling is short of the last hop. */
  predicate Opens(c: Config, found: seq<nat>, cycles: nat) {
    && cycles > 0 && c.explorationPeriod > 0 && cycles % c.explorationPeriod == 0
    && Adopted(found, c.shrinkConfirmations, c.maxHops) < c.maxHops
  }

  function Note(c: Config, a: Account, e: Event): Account
    requires Normal(c)
  {
    match e
    case Reply(_, _) => a.(heard := a.heard + [e])
    case Cycle(n) =>
      var found := if a.open then a.found + [CeilingOf(c, a.heard)] else a.found;
      var opens := Opens(c, found, n);
      Account(opens, if opens then [] else a.heard, found)
  }

  /** The account of the calls `es` that follow a reset: the first window is open from the start. */
  function AccountOf(c: Config, es: seq<Event>): Account
    requires Normal(c)
  {
    if es == [] then Account(true, [], []) else Note(c, AccountOf(c, Front(es)), Last(es))
  }

  function Heard(c: Config, es: seq<Event>): seq<Event>
    requires Normal(c)
  {
    AccountOf(c, es).heard
  }

  function Windows(c: Config, es: seq<Event>): seq<nat>
    requires Normal(c)
  {
    AccountOf(c, es).found
  }

  predicate Closes(c: Config, es: seq<Event>, e: Event)
    requires Normal(c)
  {
    e.Cycle? && AccountOf(c, es).open
  }

  // ----- the automaton agrees with it

  /** `destination` and `highest` are the extremes of what `h` counts, or 0 where it counts nothing. */
  predicate Remembers(c: Config, h: seq<Event>, destination: nat, highest: nat) {
    && (forall i | 0 <= i < |h| && Counted(c, h[i]) :: h[i].ttl <= highest)
    && (highest != 0 ==> exists i :: 0 <= i < |h| && Counted(c, h[i]) && h[i].ttl == highest)
    && (forall i | 0 <= i < |h| && Counted(c, h[i]) && h[i].destination :: 0 != destination <= h[i].ttl)
    && (destination != 0 ==>
          exists i :: 0 <= i < |h| && Counted(c, h[i]) && h[i].destination && h[i].ttl == destination)
  }

  lemma {:induction false} ExtremesAreRemembered(c: Config, h: seq<Event>)
    requires Normal(c)
    ensures Remembers(c, h, LowestDestination(c, h), HighestAnswer(c, h))
  {
    if h == [] {
    } else {
      var f, e := Front(h), Last(h);
      ExtremesAreRemembered(c, f);
      var d, top := LowestDestination(c, f), HighestAnswer(c, f);
      assert forall i | 0 <= i < |f| :: h[i] == f[i];
      assert h[|f|] == e;
      if d != 0 && LowestDestination(c, h) == d {
        var i :| 0 <= i < |f| && Counted(c, f[i]) && f[i].destination && f[i].ttl == d;
        assert h[i] == f[i];
      }
      if top != 0 && HighestAnswer(c, h) == top {
        var i :| 0 <= i < |f| && Counted(c, f[i]) && f[i].ttl == top;
        assert h[i] == f[i];
      }
    }
  }

  /** In every history the destination is the lowest TTL, and the frontier the highest, at which the
      current window heard one; replies outside the probed range count for nothing. */
  lemma WindowIsRemembered(c: Config, es: seq<Event>)
    requires Normal(c)
    ensures Remembers(c, Heard(c, es), After(c, es).destination, After(c, es).highest)
  {
    HistoryTracks(c, es);
    ExtremesAreRemembered(c, Heard(c, es));
  }

  predicate InBounds(p: Policy) {
    && Normal(p.config)
    && Mandatory(p.config) <= p.stable <= p.config.maxHops
    && (p.destination == 0 || InRange(p.config, p.destination))
  }

  lemma CeilingInBounds(p: Policy)
    requires Normal(p.config) && (p.destination == 0 || InRange(p.config, p.destination))
    ensures Mandatory(p.config) <= NormalCeiling(p) <= p.config.maxHops
  {
  }

  /** Every call keeps the policy in bounds, and every ceiling returned lies between the mandatory TTL and
      the last hop. */
  lemma StepInBounds(p: Policy, e: Event)
    requires InBounds(p)
    ensures InBounds(Step(p, e))
    ensures e.Cycle? ==>
      var next := CompleteCycle(p, e.completed).1;
      next.Some? ==> Mandatory(p.config) <= next.value <= p.config.maxHops
  {
    CeilingInBounds(p);
  }

  /** The run of equal, smaller windows that the candidate counts. */
  predicate Tracks(p: Policy, w: seq<nat>) {
    var k := p.config.shrinkConfirmations;
    && (p.initialDiscovery <==> w == [])
    && (w == [] ==> p.confirmations == 0)
    && p.stable == Adopted(w, k, p.config.maxHops)
    && (forall i | 0 <= i < |w| :: 1 <= w[i])
    && p.confirmations < k
    && (p.confirmations == 0 ==> p.candidate == 0 && (w != [] ==> w[|w| - 1] == p.stable))
    && (p.confirmations != 0 ==>
          && p.candidate < p.stable && EndsWith(w, p.confirmations, p.candidate)
          && p.confirmations < |w| && w[|w| - 1 - p.confirmations] != p.candidate)
  }

  /** One more window with the result `n` makes the run of such windows at the end one longer. */
  lemma RunGrows(w: seq<nat>, n: nat, m: nat, k: nat)
    requires 1 <= m <= |w| && EndsWith(w, m - 1, n) && w[|w| - m] != n
    ensures
      var w' := w + [n];
      EndsWith(w', m, n) && w'[|w'| - 1 - m] != n && (EndsWith(w', k, n) <==> k <= m)
  {
    var w' := w + [n];
    assert w'[|w'| - 1 - m] == w[|w| - m];
  }

  lemma AdoptedNext(w: seq<nat>, n: nat, k: nat, top: nat)
    requires w != []
    ensures
      var before := Adopted(w, k, top);
      Adopted(w + [n], k, top) == if n >= before || EndsWith(w + [n], k, n) then n else before
  {
    var w' := w + [n];
    assert w'[..|w'| - 1] == w && w'[|w'| - 1] == n;
  }

  lemma SmallerTracks(p: Policy, w: seq<nat>)
    requires Normal(p.config) && Tracks(p, w) && w != [] && 1 <= NormalCeiling(p) < p.stable
    ensures Tracks(CloseWindow(p), w + [NormalCeiling(p)])
  {
    var n := NormalCeiling(p);
    AdoptedNext(w, n, p.config.shrinkConfirmations, p.config.maxHops);
    RunGrows(w, n, if p.candidate == n then p.confirmations + 1 else 1, p.config.shrinkConfirmations);
  }

  lemma CloseWindowTracks(p: Policy, w: seq<nat>)
    requires Normal(p.config) && Tracks(p, w) && 1 <= NormalCeiling(p)
    ensures Tracks(CloseWindow(p), w + [NormalCeiling(p)])
  {
    var n := NormalCeiling(p);
    if w == [] {
    } else if n < p.stable {
      SmallerTracks(p, w);
    } else {
      AdoptedNext(w, n, p.config.shrinkConfirmations, p.config.maxHops);
    }
  }

  /** What of the automaton the account decides. Once the destination has answered, how far the answers reach
      makes no difference any more. */
  predicate Agrees(p: Policy, a: Account)
    requires Normal(p.config)
  {
    && p.exploring == a.open && (a.open || a.found != [])
    && p.destination == LowestDestination(p.config, a.heard)
    && (p.destination == 0 ==> p.highest == HighestAnswer(p.config, a.heard))
    && Tracks(p, a.found)
  }

  lemma CeilingAgrees(p: Policy, a: Account)
    requires Normal(p.config) && Agrees(p, a)
    ensures NormalCeiling(p) == CeilingOf(p.config, a.heard)
    ensures Mandatory(p.config) <= NormalCeiling(p) <= p.config.maxHops
  {
    ExtremesAreRemembered(p.config, a.heard);
  }

  lemma OneMoreHeard(c: Config, h: seq<Event>, e: Event)
    ensures
      LowestDestination(c, h + [e])
      == (var d := LowestDestination(c, h);
          if Counted(c, e) && e.destination && (d == 0 || e.ttl < d) then e.ttl else d)
    ensures
      HighestAnswer(c, h + [e])
      == (var top := HighestAnswer(c, h); if Counted(c, e) && top < e.ttl then e.ttl else top)
  {
    assert Front(h + [e]) == h && Last(h + [e]) == e;
  }

  lemma ReplyAgrees(p: Policy, a: Account, ttl: nat, destination: bool)
    requires Normal(p.config) && Agrees(p, a)
    ensures Agrees(NoteReply(p, ttl, destination), Note(p.config, a, Reply(ttl, destination)))
  {
    OneMoreHeard(p.config, a.heard, Reply(ttl, destination));
    assert Tracks(NoteReply(p, ttl, destination), a.found);
  }

  /** A reply from past the destination could as well be noted as not. */
  lemma IgnoringAgrees(p: Policy, a: Account, ttl: nat, destination: bool)
    requires Normal(p.config) && Agrees(p, a) && p.destination != 0 && p.destination < ttl
    ensures Agrees(p, Note(p.config, a, Reply(ttl, destination)))
  {
    OneMoreHeard(p.config, a.heard, Reply(ttl, destination));
  }

  /** Closing the window, where one is open, adds its ceiling to those found. */
  lemma CloseAgrees(p: Policy, a: Account)
    requires Normal(p.config) && Agrees(p, a) && a.open
    ensures Tracks(CloseWindow(p), a.found + [CeilingOf(p.config, a.heard)])
  {
    CeilingAgrees(p, a);
    CloseWindowTracks(p, a.found);
  }

  /** What completing a cycle announces, given the account that it leaves and whether a window was open. */
  function Announced(c: Config, found: seq<nat>, closes: bool, opens: bool): Option<nat> {
    var adopted := Adopted(found, c.shrinkConfirmations, c.maxHops);
    if opens then
      Some(if adopted + c.frontierTtls < c.maxHops then adopted + c.frontierTtls else c.maxHops)
    else if closes then Some(adopted) else None
  }

  function Closed(p: Policy): Policy
    requires Normal(p.config)
  {
    if p.exploring then CloseWindow(p) else p
  }

  lemma ClosedTracks(p: Policy, a: Account) returns (found: seq<nat>)
    requires Normal(p.config) && Agrees(p, a)
    ensures found == if a.open then a.found + [CeilingOf(p.config, a.heard)] else a.found
    ensures found != [] && Tracks(Closed(p), found)
  {
    found := if a.open then a.found + [CeilingOf(p.config, a.heard)] else a.found;
    if a.open { CloseAgrees(p, a); }
  }

  lemma OpensAnnounce(p: Policy, found: seq<nat>, n: nat)
    requires Normal(p.config) && Tracks(Closed(p), found)
    ensures CompleteCycle(p, n).1 == Announced(p.config, found, p.exploring, Opens(p.config, found, n))
    ensures CompleteCycle(p, n).0
         == if !Opens(p.config, found, n) then Closed(p)
            else Closed(p).(exploring := true, highest := 0, destination := 0)
  {
    assert Reopens(Closed(p), n) <==> Opens(p.config, found, n);
  }

  lemma OpenedAgrees(q: Policy, found: seq<nat>)
    requires Normal(q.config) && Tracks(q, found)
    ensures Agrees(q.(exploring := true, highest := 0, destination := 0), Account(true, [], found))
  {
    assert Tracks(q.(exploring := true, highest := 0, destination := 0), found);
  }

  lemma ClosedAgrees(p: Policy, a: Account, found: seq<nat>)
    requires Normal(p.config) && Agrees(p, a) && found != [] && Tracks(Closed(p), found)
    ensures Agrees(Closed(p), Account(false, a.heard, found))
  {
  }

  lemma CycleAgrees(p: Policy, a: Account, n: nat)
    requires Normal(p.config) && Agrees(p, a)
    ensures Agrees(CompleteCycle(p, n).0, Note(p.config, a, Cycle(n)))
  {
    var found := ClosedTracks(p, a);
    OpensAnnounce(p, found, n);
    if Opens(p.config, found, n) { OpenedAgrees(Closed(p), found); } else { ClosedAgrees(p, a, found); }
  }

  lemma {:induction false} HistoryTracks(c: Config, es: seq<Event>)
    requires Normal(c)
    ensures Agrees(After(c, es), AccountOf(c, es)) && After(c, es).highest == HighestAnswer(c, Heard(c, es))
  {
    if es == [] {
    } else {
      HistoryTracks(c, Front(es));
      match Last(es) {
        case Reply(ttl, d) =>
          ReplyAgrees(After(c, Front(es)), AccountOf(c, Front(es)), ttl, d);
          OneMoreHeard(c, Heard(c, Front(es)), Last(es));
        case Cycle(n) => CycleAgrees(After(c, Front(es)), AccountOf(c, Front(es)), n);
      }
    }
  }

  /** Hysteresis: in every history the stable ceiling is the one its exploration windows call for. */
  lemma StableIsAdopted(c: Config, es: seq<Event>)
    requires Normal(c)
    ensures After(c, es).stable == Adopted(Windows(c, es), c.shrinkConfirmations, c.maxHops)
  {
    HistoryTracks(c, es);
  }

  /** One call more: what it adds to the ceilings found. */
  lemma NextWindows(c: Config, es: seq<Event>, e: Event)
    requires Normal(c)
    ensures
      var w, w' := Windows(c, es), Windows(c, es + [e]);
      if Closes(c, es, e) then w' == w + [CeilingOf(c, Heard(c, es))] && w'[..|w'| - 1] == w else w' == w
  {
    assert Front(es + [e]) == es && Last(es + [e]) == e;
    var w, w' := Windows(c, es), Windows(c, es + [e]);
    if Closes(c, es, e) { assert w' == w + [CeilingOf(c, Heard(c, es))] && w'[..|w'| - 1] == w; }
  }

  /** After discovery, the stable ceiling falls exactly on a cycle that closes the k-th exploration window
      in a row with the same smaller result. */
  lemma ShrinksIff(c: Config, es: seq<Event>, e: Event)
    requires Normal(c) && Windows(c, es) != []
    ensures
      var before, after := After(c, es).stable, After(c, es + [e]).stable;
      var w := Windows(c, es + [e]);
      after < before <==>
        Closes(c, es, e) && w[|w| - 1] < before && EndsWith(w, c.shrinkConfirmations, w[|w| - 1])
  {
    StableIsAdopted(c, es);
    StableIsAdopted(c, es + [e]);
    NextWindows(c, es, e);
  }

  /** The stable ceiling rises exactly on a cycle that closes an exploration window with a greater result, and
      to that result, whatever the windows before it found. */
  lemma GrowsAtOnce(c: Config, es: seq<Event>, e: Event)
    requires Normal(c)
    ensures
      var before, after := After(c, es).stable, After(c, es + [e]).stable;
      var w := Windows(c, es + [e]);
      && (before < after <==> Closes(c, es, e) && before < w[|w| - 1])
      && (before < after ==> after == w[|w| - 1])
  {
    StableIsAdopted(c, es);
    StableIsAdopted(c, es + [e]);
    HistoryTracks(c, es);
    CeilingAgrees(After(c, es), AccountOf(c, es));
    NextWindows(c, es, e);
  }

  /** In every history a cycle leaves a window open exactly where one opens by the account: on a multiple of the
      period at which the adopted ceiling is short of the last hop. */
  lemma WindowOpensIff(c: Config, es: seq<Event>, n: nat)
    requires Normal(c)
    ensures After(c, es + [Cycle(n)]).exploring <==> Opens(c, Windows(c, es + [Cycle(n)]), n)
  {
    HistoryTracks(c, es + [Cycle(n)]);
    assert Front(es + [Cycle(n)]) == es && Last(es + [Cycle(n)]) == Cycle(n);
  }

  lemma OneMoreCall(c: Config, es: seq<Event>, e: Event)
    requires Normal(c)
    ensures AccountOf(c, es + [e]) == Note(c, AccountOf(c, es), e)
  {
    assert Front(es + [e]) == es && Last(es + [e]) == e;
  }

  lemma CycleAnnounces(p: Policy, a: Account, n: nat)
    requires Normal(p.config) && Agrees(p, a)
    ensures
      var a' := Note(p.config, a, Cycle(n));
      CompleteCycle(p, n).1 == Announced(p.config, a'.found, a.open, a'.open)
  {
    var found := ClosedTracks(p, a);
    OpensAnnounce(p, found, n);
  }

  /** In every history, what a completed cycle announces: one that opens a window, the adopted ceiling and the
      frontier beyond it, short of the last hop; one that only closes a window, the ceiling adopted with what
      that window found; any other, nothing. */
  lemma CeilingIsAnnounced(c: Config, es: seq<Event>, n: nat)
    requires Normal(c)
    ensures
      var found := Windows(c, es + [Cycle(n)]);
      CompleteCycle(After(c, es), n).1 == Announced(c, found, Closes(c, es, Cycle(n)), Opens(c, found, n))
  {
    HistoryTracks(c, es);
    OneMoreCall(c, es, Cycle(n));
    CycleAnnounces(After(c, es), AccountOf(c, es), n);
  }

  lemma {:induction false} AlwaysInBounds(c: Config, es: seq<Event>)
    requires Normal(c)
    ensures InBounds(After(c, es))
  {
    if es == [] {
    } else {
      AlwaysInBounds(c, Front(es));
      StepInBounds(After(c, Front(es)), Last(es));
    }
  }
}
