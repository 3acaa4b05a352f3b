/** How far a trace probes: an automaton that explores, adopts growth at once, and shrinks only after
    the same smaller ceiling has been found several times running. */
module RouteModel {
  import opened Basics

  datatype Config = Config(
    startTtl: nat, minimumTtl: nat, maxHops: nat, unknownHostLimit: nat,
    explorationPeriod: nat, frontierTtls: nat, shrinkConfirmations: nat)

  datatype Policy = Policy(
    config: Config, exploring: bool, initialDiscovery: bool, highest: nat, destination: nat,
    stable: nat, candidate: nat, confirmations: nat)

  predicate Normal(c: Config) {
    && 1 <= c.startTtl <= c.maxHops && c.minimumTtl <= c.maxHops
    && 1 <= c.unknownHostLimit && 1 <= c.shrinkConfirmations
  }

  function Normalize(c: Config): (r: Config)
    ensures Normal(r) && (Normal(c) ==> r == c)
  {
    var start := Max(1, c.startTtl);
    var hops := Max(start, c.maxHops);
    c.(startTtl := start, maxHops := hops, minimumTtl := Min(c.minimumTtl, hops),
       unknownHostLimit := Max(1, c.unknownHostLimit), shrinkConfirmations := Max(1, c.shrinkConfirmations))
  }

  /** No number of `r` but the minimum is below that of `c`, and what a policy may do without is the same. */
  predicate Covers(r: Config, c: Config) {
    && c.startTtl <= r.startTtl && c.maxHops <= r.maxHops && c.unknownHostLimit <= r.unknownHostLimit
    && c.shrinkConfirmations <= r.shrinkConfirmations
    && c.explorationPeriod == r.explorationPeriod && c.frontierTtls == r.frontierTtls
  }

  /** A configuration is raised to the least normal one that covers it, and its minimum lowered to the last hop if it
      lies beyond. */
  lemma NormalizeIsLeast(c: Config, d: Config)
    requires Normal(d) && Covers(d, c)
    ensures Covers(Normalize(c), c) && Covers(d, Normalize(c))
    ensures
      var r := Normalize(c);
      r.minimumTtl == if c.minimumTtl <= r.maxHops then c.minimumTtl else r.maxHops
  {
    assert Max(Max(1, c.startTtl), c.maxHops) <= d.maxHops;
  }

  function Mandatory(c: Config): nat { Max(c.startTtl, c.minimumTtl) }

  // ----- the automaton

  function Reset(c: Config): Policy { Policy(c, true, true, 0, 0, c.maxHops, 0, 0) }

  predicate InRange(c: Config, ttl: nat) { c.startTtl <= ttl <= c.maxHops }

  function NoteReply(p: Policy, ttl: nat, destination: bool): Policy {
    if !InRange(p.config, ttl) then p else
    p.(highest := Max(p.highest, ttl),
       destination := if !destination then p.destination
                      else if p.destination == 0 then ttl else Min(p.destination, ttl))
  }

  function NormalCeiling(p: Policy): nat
    requires Normal(p.config)
  {
    var c := p.config;
    if p.destination != 0 then Max(Mandatory(c), p.destination) else
    var tail := if p.highest == 0 then c.startTtl - 1 else p.highest;
    Min(c.maxHops, Max(Mandatory(c), tail + c.unknownHostLimit))
  }

  /** Close the exploration window: what the ceiling and the shrink candidate become. */
  function CloseWindow(p: Policy): Policy
    requires Normal(p.config)
  {
    var normal := NormalCeiling(p);
    var q := p.(exploring := false);
    if p.initialDiscovery then q.(stable := normal, initialDiscovery := false, candidate := 0, confirmations := 0)
    else if normal < p.stable then
      var n := if p.candidate == normal then p.confirmations + 1 else 1;
      if n >= p.config.shrinkConfirmations then q.(stable := normal, candidate := 0, confirmations := 0)
      else q.(candidate := normal, confirmations := n)
    else q.(stable := normal, candidate := 0, confirmations := 0)
  }

  predicate Reopens(p: Policy, cycles: nat) {
    && p.config.explorationPeriod != 0 && cycles != 0 && cycles % p.config.explorationPeriod == 0
    && p.stable < p.config.maxHops
  }

  function CompleteCycle(p: Policy, cycles: nat): (o: (Policy, Option<nat>))
    requires Normal(p.config)
  {
    var q := if p.exploring then CloseWindow(p) else p;
    if Reopens(q, cycles) then
      (q.(exploring := true, highest := 0, destination := 0),
       Some(Min(q.config.maxHops, q.stable + q.config.frontierTtls)))
    else (q, if p.exploring then Some(q.stable) else None)
  }

}

module RoutePolicies {
  import opened Basics
  import opened RouteModel

  class RoutePolicy {
    const config: Config
    var exploring: bool
    var initialDiscovery: bool
    var highest: nat
    var destination: nat
    var stable: nat
    var candidate: nat
    var confirmations: nat

    ghost function State(): Policy
      reads this
    {
      Policy(config, exploring, initialDiscovery, highest, destination, stable, candidate, confirmations)
    }

    constructor (c: Config)
      ensures State() == RouteModel.Reset(Normalize(c))
    {
      config := Normalize(c);
      new;
      Reset();
    }

    method Reset()
      modifies this
      ensures State() == RouteModel.Reset(config)
    {
      exploring := true;
      initialDiscovery := true;
      highest := 0;
      destination := 0;
      stable := config.maxHops;
      ClearShrinkCandidate();
    }

    method ClearShrinkCandidate()
      modifies this`candidate, this`confirmations
      ensures candidate == 0 && confirmations == 0
    {
      candidate := 0;
      confirmations := 0;
    }

    method NoteReply(ttl: nat, isDestination: bool)
      modifies this
      ensures State() == RouteModel.NoteReply(old(State()), ttl, isDestination)
    {
      if ttl < config.startTtl || ttl > config.maxHops { return; }
      highest := Max(highest, ttl);
      if isDestination {
        destination := if destination == 0 then ttl else Min(destination, ttl);
      }
    }

    function Ceiling(): (n: nat)
      requires Normal(config)
      reads this
      ensures n == NormalCeiling(State())
    {
      if destination != 0 then Max(Mandatory(config), destination) else
      var tailOrigin := if highest == 0 then config.startTtl - 1 else highest;
      Min(config.maxHops, Max(Mandatory(config), tailOrigin + config.unknownHostLimit))
    }

    method CompleteCycle(cycles: nat) returns (next: Option<nat>)
      requires Normal(config)
      modifies this
      ensures (State(), next) == RouteModel.CompleteCycle(old(State()), cycles)
    {
      next := None;
      if exploring {
        var normal := Ceiling();
        if initialDiscovery {
          stable := normal;
          initialDiscovery := false;
          ClearShrinkCandidate();
        } else if normal < stable {
          if candidate == normal {
            confirmations := confirmations + 1;
          } else {
            candidate := normal;
            confirmations := 1;
          }
          if confirmations >= config.shrinkConfirmations {
            stable := normal;
            ClearShrinkCandidate();
          }
        } else {
          stable := normal;
          ClearShrinkCandidate();
        }
        exploring := false;
        next := Some(stable);
      }
      if config.explorationPeriod != 0 && cycles != 0 && cycles % config.explorationPeriod == 0
         && stable < config.maxHops {
        exploring := true;
        highest := 0;
        destination := 0;
        next := Some(Min(config.maxHops, stable + config.frontierTtls));
      }
    }
  }
}
