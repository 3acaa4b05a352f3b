/** The table against the list of everything that was committed to it since it was last blank: each number of a hop
    is a count of that list, and what a hop shows is what the last commit to it says. */
module HopLedger {
  import opened Basics
  import opened HopModel
  import opened TableModel
  import HS = HopStatistics

  /** What is done to the table between two resets. */
  datatype Deed = Made(commit: Commit) | Told(session: nat, epoch: nat, addr: Address, news: Info, finished: bool)

  function Act(t: Table, d: Deed): Table {
    match d
    case Made(c) => Apply(t, c)
    case Told(session, epoch, addr, news, finished) => Learn(t, session, epoch, addr, news, finished)
  }

  function After(t: Table, ds: seq<Deed>): Table {
    if ds == [] then t else Act(After(t, Front(ds)), Last(ds))
  }

  /** A table as a reset leaves it. */
  predicate Blanked(t: Table) {
    && t.hops == BlankHops(|t.hops|) && t.replySequence == 0 && t.displayMax == 0 && t.destinationTtl == 0
    && t.completedCycles == 0
  }

  // ----- what the list says of one hop

  /** The commit is for this hop, made in time and, if it is a reply, from somebody. */
  predicate IsFor(t: Table, c: Commit, ttl: nat) {
    && !c.Cycles? && c.ttl == ttl && c.epoch == t.epoch
    && (c.Reply? ==> c.session == t.session && c.reply.addr != Unspecified)
  }

  function Mine(t: Table, ds: seq<Deed>, ttl: nat): seq<Commit> {
    if ds == [] then [] else
    Mine(t, Front(ds), ttl) + (if Last(ds).Made? && IsFor(t, Last(ds).commit, ttl) then [Last(ds).commit] else [])
  }

  datatype Kind =
    | Issues | Timeouts | Failures | Cancels | ScheduleSkips | CacheSkips | LateOnes | Discards | Replies | Publications

  function KindOf(c: Commit): Kind {
    match c
    case Issue(_, _, _) => Issues
    case Timeout(_, _) => Timeouts
    case Failure(_, _, _, _) => Failures
    case Cancel(_, _) => Cancels
    case SkipBySchedule(_, _) => ScheduleSkips
    case SkipByCache(_, _) => CacheSkips
    case LateCompletion(_, _) => LateOnes
    case PostDestination(_, _) => Discards
    case Reply(_, _, _, _, _) => Replies
    case Cycles(_, _) => Publications
  }

  function Number(cs: seq<Commit>, k: Kind): nat {
    if cs == [] then 0 else Number(Front(cs), k) + One(KindOf(Last(cs)) == k)
  }

  /** By how much the probes that were sent late were late. */
  function Lates(cs: seq<Commit>): seq<nat> {
    if cs == [] then [] else
    Lates(Front(cs)) + (if Last(cs).Issue? && Last(cs).lateness > 0 then [Last(cs).lateness] else [])
  }

  /** The greatest of `xs`; 0 if there are none. */
  predicate IsGreatest(n: nat, xs: seq<nat>) {
    (forall x | x in xs :: x <= n) && (if xs == [] then n == 0 else n in xs)
  }

  /** The round-trip times of the replies. */
  function Times(cs: seq<Commit>): seq<nat> {
    if cs == [] then [] else Times(Front(cs)) + (if Last(cs).Reply? then [Last(cs).reply.rtt] else [])
  }

  /** The last reply; the last from the destination. */
  function LastReply(cs: seq<Commit>, fromDestination: bool): Option<Commit>
    ensures LastReply(cs, fromDestination).Some? ==> LastReply(cs, fromDestination).value.Reply?
  {
    if cs == [] then None
    else if Last(cs).Reply? && (fromDestination ==> Last(cs).reply.isDestination) then Some(Last(cs))
    else LastReply(Front(cs), fromDestination)
  }

  function TickOf(c: Option<Commit>): nat
    requires c.Some? ==> c.value.Reply?
  {
    if c.None? then 0 else c.value.reply.tick
  }

  predicate CountsAre(k: Counters, cs: seq<Commit>) {
    && k.xmit == Number(cs, Issues) && k.timedOut == Number(cs, Timeouts)
    && k.completed == Number(cs, Timeouts) + Number(cs, Replies)
    && k.localErrors == Number(cs, Failures) && k.cancelled == Number(cs, Cancels)
    && k.schedulerSkipped == Number(cs, ScheduleSkips) && k.cacheSkipped == Number(cs, CacheSkips)
    && k.lateCompletions == Number(cs, LateOnes) && k.postDestination == Number(cs, Discards)
  }

  predicate LatenessIs(k: Counters, cs: seq<Commit>) {
    && k.lateSlots == |Lates(cs)| && k.latenessTotal == HS.Sum(Lates(cs)) && IsGreatest(k.latenessMax, Lates(cs))
  }

  predicate RepliesAre(h: Hop, cs: seq<Commit>) {
    && h.stats == HS.Run(Times(cs))
    && h.lastTick == TickOf(LastReply(cs, false)) && h.destinationTick == TickOf(LastReply(cs, true))
    && h.lastCycle == (if LastReply(cs, false).Some? then LastReply(cs, false).value.cycle else 0)
  }

  /** What a commit makes the hop show. */
  function OutcomeOf(c: Commit): Outcome {
    match c
    case Issue(_, _, _) => InFlight
    case Timeout(_, _) => TimedOut
    case Failure(_, _, _, _) => LocalError
    case Cancel(_, _) => Cancelled
    case SkipBySchedule(_, _) => SchedulerSkipped
    case SkipByCache(_, _) => Cached
    case LateCompletion(_, _) => LateDiscarded
    case PostDestination(_, _) => PostDestinationDiscarded
    case Reply(_, _, _, r, _) => r.outcome
    case Cycles(_, _) => NoOutcome
  }

  /** The error code shown with it; a late completion leaves that as it was. */
  function CodeShown(cs: seq<Commit>): nat {
    if cs == [] then 0 else
    match Last(cs)
    case Failure(_, _, _, code) => code
    case Cancel(_, _) => 1223
    case Reply(_, _, _, r, _) => r.status
    case LateCompletion(_, _) => CodeShown(Front(cs))
    case _ => 0
  }

  predicate ShowsLast(h: Hop, cs: seq<Commit>) {
    h.outcome == (if cs == [] then NoOutcome else OutcomeOf(Last(cs))) && h.errorCode == CodeShown(cs)
  }

  predicate Kept(h: Hop, cs: seq<Commit>) {
    CountsAre(h.counters, cs) && LatenessIs(h.counters, cs) && RepliesAre(h, cs) && ShowsLast(h, cs)
  }

  // ----- one commit more

  lemma AnswerFields(h: Hop, r: ReplyData, cycle: nat, sequence: nat)
    ensures
      var a := Answer(h, r, cycle, sequence);
      && a.counters == h.counters.(completed := h.counters.completed + 1, inFlight := Less(h.counters.inFlight))
      && a.stats == Sample(h.stats, r.rtt) && a.lastTick == r.tick && a.lastCycle == cycle
      && a.destinationTick == (if r.isDestination then r.tick else h.destinationTick)
      && a.outcome == r.outcome && a.errorCode == r.status && a.number == h.number
  {
  }

  lemma OneMoreNumber(cs: seq<Commit>, c: Commit, k: Kind)
    ensures Number(cs + [c], k) == Number(cs, k) + One(KindOf(c) == k)
  {
    assert Front(cs + [c]) == cs;
  }

  /** What a commit adds to the counters of its hop. */
  predicate CountedOnce(k: Counters, c: Commit, k': Counters) {
    && k'.xmit == k.xmit + One(c.Issue?) && k'.timedOut == k.timedOut + One(c.Timeout?)
    && k'.completed == k.completed + One(c.Timeout?) + One(c.Reply?)
    && k'.localErrors == k.localErrors + One(c.Failure?) && k'.cancelled == k.cancelled + One(c.Cancel?)
    && k'.schedulerSkipped == k.schedulerSkipped + One(c.SkipBySchedule?)
    && k'.cacheSkipped == k.cacheSkipped + One(c.SkipByCache?)
    && k'.lateCompletions == k.lateCompletions + One(c.LateCompletion?)
    && k'.postDestination == k.postDestination + One(c.PostDestination?)
  }

  lemma NotedCounts(h: Hop, c: Commit, sequence: nat)
    ensures CountedOnce(h.counters, c, Noted(h, c, sequence).counters)
  {
    if c.Reply? { AnswerFields(h, c.reply, c.cycle, sequence + 1); }
  }

  lemma CountsGrow(k: Counters, cs: seq<Commit>, c: Commit, k': Counters)
    requires CountsAre(k, cs) && CountedOnce(k, c, k')
    ensures CountsAre(k', cs + [c])
  {
    forall i: Kind ensures Number(cs + [c], i) == Number(cs, i) + One(KindOf(c) == i) {
      OneMoreNumber(cs, c, i);
    }
  }

  lemma LatenessGrows(h: Hop, cs: seq<Commit>, c: Commit, sequence: nat)
    requires LatenessIs(h.counters, cs)
    ensures LatenessIs(Noted(h, c, sequence).counters, cs + [c])
  {
    if c.Reply? { AnswerFields(h, c.reply, c.cycle, sequence + 1); }
    assert Front(cs + [c]) == cs;
    if c.Issue? && c.lateness > 0 {
      assert Front(Lates(cs) + [c.lateness]) == Lates(cs);
    } else {
      assert Lates(cs) + [] == Lates(cs);
    }
  }

  lemma OneMoreReply(cs: seq<Commit>, c: Commit)
    ensures Times(cs + [c]) == if c.Reply? then Times(cs) + [c.reply.rtt] else Times(cs)
    ensures LastReply(cs + [c], false) == if c.Reply? then Some(c) else LastReply(cs, false)
    ensures LastReply(cs + [c], true) == if c.Reply? && c.reply.isDestination then Some(c) else LastReply(cs, true)
  {
    assert Front(cs + [c]) == cs;
    assert Times(cs) + [] == Times(cs);
  }

  lemma OneMoreTime(xs: seq<nat>, x: nat)
    ensures HS.Run(xs + [x]) == Sample(HS.Run(xs), x)
  {
    assert Front(xs + [x]) == xs;
  }

  lemma NotedOther(h: Hop, c: Commit, sequence: nat)
    requires !c.Reply?
    ensures
      var h' := Noted(h, c, sequence);
      && h'.stats == h.stats && h'.lastTick == h.lastTick && h'.lastCycle == h.lastCycle
      && h'.destinationTick == h.destinationTick
  {
  }

  lemma RepliesGrow(h: Hop, cs: seq<Commit>, c: Commit, sequence: nat)
    requires RepliesAre(h, cs)
    ensures RepliesAre(Noted(h, c, sequence), cs + [c])
  {
    OneMoreReply(cs, c);
    if c.Reply? {
      AnswerFields(h, c.reply, c.cycle, sequence + 1);
      OneMoreTime(Times(cs), c.reply.rtt);
    } else {
      NotedOther(h, c, sequence);
    }
  }

  lemma ShownChanges(h: Hop, cs: seq<Commit>, c: Commit, sequence: nat)
    requires ShowsLast(h, cs) && !c.Cycles?
    ensures ShowsLast(Noted(h, c, sequence), cs + [c])
  {
    if c.Reply? { AnswerFields(h, c.reply, c.cycle, sequence + 1); }
    assert Front(cs + [c]) == cs;
  }

  lemma NotedKeeps(h: Hop, cs: seq<Commit>, c: Commit, sequence: nat)
    requires Kept(h, cs) && !c.Cycles?
    ensures Kept(Noted(h, c, sequence), cs + [c])
  {
    NotedCounts(h, c, sequence);
    CountsGrow(h.counters, cs, c, Noted(h, c, sequence).counters);
    LatenessGrows(h, cs, c, sequence);
    RepliesGrow(h, cs, c, sequence);
    ShownChanges(h, cs, c, sequence);
  }

  // ----- the whole list

  predicate SameFrame(t: Table, t0: Table) {
    && t.session == t0.session && t.epoch == t0.epoch && |t.hops| == |t0.hops|
    && t.startTtl == t0.startTtl && t.maxHops == t0.maxHops
  }

  lemma ActKeepsFrame(t: Table, d: Deed)
    ensures SameFrame(Act(t, d), t)
  {
  }

  lemma ActOnHop(t: Table, d: Deed, ttl: nat)
    requires OnTable(t, ttl)
    ensures
      |Act(t, d).hops| == |t.hops|
      && var h, h' := t.hops[ttl - 1], Act(t, d).hops[ttl - 1];
         if d.Made? && IsFor(t, d.commit, ttl) then h' == Noted(h, d.commit, t.replySequence)
         else h' == h || (d.Told? && h' == Update(h, d.addr, d.news))
  {
  }

  lemma UpdateKeeps(h: Hop, cs: seq<Commit>, a: Address, news: Info)
    requires Kept(h, cs)
    ensures Kept(Update(h, a, news), cs)
  {
  }

  lemma MineOneMore(t: Table, ds: seq<Deed>, d: Deed, ttl: nat)
    ensures
      Mine(t, ds + [d], ttl)
      == if d.Made? && IsFor(t, d.commit, ttl) then Mine(t, ds, ttl) + [d.commit] else Mine(t, ds, ttl)
  {
    assert Front(ds + [d]) == ds;
    assert Mine(t, ds, ttl) + [] == Mine(t, ds, ttl);
  }

  lemma ActKeepsHop(t: Table, t0: Table, d: Deed, ttl: nat, cs: seq<Commit>)
    requires SameFrame(t, t0) && OnTable(t, ttl) && Kept(t.hops[ttl - 1], cs)
    ensures
      |Act(t, d).hops| == |t.hops|
      && Kept(Act(t, d).hops[ttl - 1], if d.Made? && IsFor(t0, d.commit, ttl) then cs + [d.commit] else cs)
  {
    ActOnHop(t, d, ttl);
    if d.Made? && IsFor(t, d.commit, ttl) {
      NotedKeeps(t.hops[ttl - 1], cs, d.commit, t.replySequence);
    } else if d.Told? {
      UpdateKeeps(t.hops[ttl - 1], cs, d.addr, d.news);
    }
  }

  lemma NothingYet(cs: seq<Commit>, k: Kind)
    requires cs == []
    ensures Number(cs, k) == 0 && Lates(cs) == [] && Times(cs) == []
    ensures LastReply(cs, false) == LastReply(cs, true) == None
  {
  }

  lemma BlankIsKept(h: Hop, cs: seq<Commit>)
    requires h == Blank(h.number) && cs == []
    ensures Kept(h, cs)
  {
    forall k: Kind ensures Number(cs, k) == 0 {
      NothingYet(cs, k);
    }
    NothingYet(cs, Issues);
  }

  /** The table `t'` that the deeds `ds` have left of `t` has this hop as they say. */
  predicate KeptBy(t: Table, ds: seq<Deed>, ttl: nat, t': Table)
    requires OnTable(t, ttl)
  {
    SameFrame(t', t) && Kept(t'.hops[ttl - 1], Mine(t, ds, ttl))
  }

  lemma NothingIsKept(t: Table, ds: seq<Deed>, ttl: nat)
    requires Blanked(t) && OnTable(t, ttl) && ds == []
    ensures KeptBy(t, ds, ttl, t)
  {
    BlankIsKept(t.hops[ttl - 1], Mine(t, ds, ttl));
  }

  lemma OneMoreIsKept(t: Table, ds: seq<Deed>, d: Deed, ttl: nat, before: Table, after: Table)
    requires OnTable(t, ttl) && KeptBy(t, ds, ttl, before) && after == Act(before, d)
    ensures KeptBy(t, ds + [d], ttl, after)
  {
    ActKeepsFrame(before, d);
    ActKeepsHop(before, t, d, ttl, Mine(t, ds, ttl));
    MineOneMore(t, ds, d, ttl);
  }

  lemma AfterOneMore(t: Table, ds: seq<Deed>)
    requires ds != []
    ensures After(t, ds) == Act(After(t, Front(ds)), Last(ds)) && Front(ds) + [Last(ds)] == ds
  {
  }

  /** In every list of commits and lookups, whoever makes them and in whatever order, from a reset on: each hop's
      numbers are the counts, sums and extremes of the commits for it that are in time, its statistics and times are
      those of its replies, and it shows what the last of its commits says. */
  lemma {:induction false} HopIsKept(t: Table, ds: seq<Deed>, ttl: nat)
    requires Blanked(t) && OnTable(t, ttl)
    ensures KeptBy(t, ds, ttl, After(t, ds))
    decreases |ds|
  {
    if ds == [] {
      NothingIsKept(t, ds, ttl);
    } else {
      HopIsKept(t, Front(ds), ttl);
      AfterOneMore(t, ds);
      OneMoreIsKept(t, Front(ds), Last(ds), ttl, After(t, Front(ds)), After(t, ds));
    }
  }

  /** The last answer came no more than so many seconds before `now`, and not after it. */
  predicate Recent(tick: nat, now: nat, seconds: nat) { 0 < tick <= now <= tick + 1000 * seconds }

  /** A hop is skipped for having answered lately exactly if its last reply since the reset is that recent; and then
      as the destination, if its last reply from there is. */
  lemma CachedByHistory(t: Table, ds: seq<Deed>, ttl: nat, now: nat, seconds: nat, epoch: nat)
    requires Blanked(t) && OnTable(t, ttl)
    ensures
      var (cached, destination) := CachedReply(After(t, ds), ttl, now, seconds, epoch);
      var mine := Mine(t, ds, ttl);
      && (cached <==> seconds > 0 && epoch == t.epoch && Recent(TickOf(LastReply(mine, false)), now, seconds))
      && (destination <==> cached && Recent(TickOf(LastReply(mine, true)), now, seconds))
  {
    HopIsKept(t, ds, ttl);
  }

  // ----- the table's own numbers

  /** The commits that take effect on some hop. */
  function Effects(t: Table, ds: seq<Deed>): seq<Commit> {
    if ds == [] then [] else
    Effects(t, Front(ds)) + (if Last(ds).Made? && Counts(t, Last(ds).commit) then [Last(ds).commit] else [])
  }

  predicate Counts(t: Table, c: Commit) { !c.Cycles? && OnTable(t, c.ttl) && IsFor(t, c, c.ttl) }

  /** The least TTL of a reply from the destination; 0 if there is none. */
  predicate IsDestination(n: nat, cs: seq<Commit>) {
    && (forall i | 0 <= i < |cs| && cs[i].Reply? && cs[i].reply.isDestination :: 1 <= n <= cs[i].ttl)
    && (n != 0 ==> exists i :: 0 <= i < |cs| && cs[i].Reply? && cs[i].reply.isDestination && cs[i].ttl == n)
  }

  /** A probe of the hop was sent, timed out or was answered: the table shows as far as that, within its options. */
  predicate Shows(c: Commit) { c.Issue? || c.Timeout? || c.Reply? }

  function Nearest(ttl: nat, first: nat, last: nat): nat {
    if first <= ttl <= last then ttl else if ttl < first then first else last
  }

  predicate IsShown(n: nat, t: Table, cs: seq<Commit>) {
    && (forall i | 0 <= i < |cs| && Shows(cs[i]) :: Nearest(cs[i].ttl, t.startTtl, t.maxHops) <= n)
    && (n != 0 ==> exists i :: 0 <= i < |cs| && Shows(cs[i]) && Nearest(cs[i].ttl, t.startTtl, t.maxHops) == n)
  }

  /** The greatest number of cycles published in time. */
  predicate IsPublished(n: nat, t: Table, ds: seq<Deed>) {
    && (forall i | 0 <= i < |ds| && Publishes(t, ds[i]) :: ds[i].commit.count <= n)
    && (n != 0 ==> exists i :: 0 <= i < |ds| && Publishes(t, ds[i]) && ds[i].commit.count == n)
  }

  predicate Publishes(t: Table, d: Deed) { d.Made? && d.commit.Cycles? && d.commit.epoch == t.epoch }

  lemma EffectsOneMore(t: Table, ds: seq<Deed>, d: Deed)
    ensures
      Effects(t, ds + [d])
      == if d.Made? && Counts(t, d.commit) then Effects(t, ds) + [d.commit] else Effects(t, ds)
  {
    assert Front(ds + [d]) == ds;
    assert Effects(t, ds) + [] == Effects(t, ds);
  }

  lemma DestinationGrows(n: nat, cs: seq<Commit>, c: Commit)
    requires IsDestination(n, cs) && (c.Reply? ==> 1 <= c.ttl)
    ensures IsDestination(if c.Reply? && c.reply.isDestination then Lowest(n, c.ttl) else n, cs + [c])
  {
    var w := cs + [c];
    assert w[|cs|] == c && forall i | 0 <= i < |cs| :: w[i] == cs[i];
  }

  lemma ShownGrows(n: nat, t: Table, cs: seq<Commit>, c: Commit)
    requires IsShown(n, t, cs)
    ensures IsShown(if Shows(c) then Max(n, Clamped(c.ttl, t.startTtl, t.maxHops)) else n, t, cs + [c])
  {
    var w := cs + [c];
    assert w[|cs|] == c && forall i | 0 <= i < |cs| :: w[i] == cs[i];
  }

  lemma PublishedGrows(n: nat, t: Table, ds: seq<Deed>, d: Deed)
    requires IsPublished(n, t, ds)
    ensures IsPublished(if Publishes(t, d) then Max(n, d.commit.count) else n, t, ds + [d])
  {
    var w := ds + [d];
    assert w[|ds|] == d && forall i | 0 <= i < |ds| :: w[i] == ds[i];
  }

  predicate TotalsBy(t: Table, ds: seq<Deed>, t': Table) {
    && SameFrame(t', t)
    && t'.replySequence == Number(Effects(t, ds), Replies) && IsDestination(t'.destinationTtl, Effects(t, ds))
    && IsShown(t'.displayMax, t, Effects(t, ds)) && IsPublished(t'.completedCycles, t, ds)
  }

  lemma NothingTotals(t: Table, ds: seq<Deed>)
    requires Blanked(t) && ds == []
    ensures TotalsBy(t, ds, t)
  {
    assert Effects(t, ds) == [];
  }

  /** What one deed does to the totals. */
  predicate Totals(t: Table, d: Deed, t': Table) {
    SameFrame(t', t)
    && if d.Made? && Counts(t, d.commit) then
         var c := d.commit;
         && t'.replySequence == t.replySequence + One(c.Reply?) && t'.completedCycles == t.completedCycles
         && t'.destinationTtl
            == (if c.Reply? && c.reply.isDestination then Lowest(t.destinationTtl, c.ttl) else t.destinationTtl)
         && t'.displayMax
            == (if Shows(c) then Max(t.displayMax, Clamped(c.ttl, t.startTtl, t.maxHops)) else t.displayMax)
       else
         && t'.replySequence == t.replySequence && t'.destinationTtl == t.destinationTtl
         && t'.displayMax == t.displayMax
         && t'.completedCycles
            == (if Publishes(t, d) then Max(t.completedCycles, d.commit.count) else t.completedCycles)
  }

  lemma ActTotals(t: Table, d: Deed)
    ensures Totals(t, d, Act(t, d))
  {
  }

  lemma EffectTotals(t: Table, cs: seq<Commit>, c: Commit, before: Table, after: Table)
    requires SameFrame(before, t) && Totals(before, Made(c), after) && Counts(t, c)
    requires before.replySequence == Number(cs, Replies) && IsDestination(before.destinationTtl, cs)
    requires IsShown(before.displayMax, t, cs)
    ensures after.replySequence == Number(cs + [c], Replies) && IsDestination(after.destinationTtl, cs + [c])
    ensures IsShown(after.displayMax, t, cs + [c]) && after.completedCycles == before.completedCycles
  {
    OneMoreNumber(cs, c, Replies);
    DestinationGrows(before.destinationTtl, cs, c);
    ShownGrows(before.displayMax, t, cs, c);
  }

  lemma OneMoreTotals(t: Table, ds: seq<Deed>, d: Deed, before: Table, after: Table)
    requires TotalsBy(t, ds, before) && Totals(before, d, after)
    ensures TotalsBy(t, ds + [d], after)
  {
    EffectsOneMore(t, ds, d);
    if d.Made? && Counts(t, d.commit) {
      EffectTotals(t, Effects(t, ds), d.commit, before, after);
      PublishedGrows(before.completedCycles, t, ds, d);
    } else {
      OtherTotals(t, ds, d, before, after);
    }
  }

  lemma OtherTotals(t: Table, ds: seq<Deed>, d: Deed, before: Table, after: Table)
    requires TotalsBy(t, ds, before) && Totals(before, d, after) && !(d.Made? && Counts(t, d.commit))
    requires Effects(t, ds + [d]) == Effects(t, ds)
    ensures TotalsBy(t, ds + [d], after)
  {
    PublishedGrows(before.completedCycles, t, ds, d);
  }

  /** And the table's own numbers: how many replies it has counted, the least TTL at which the destination has
      answered, how far it shows, and the greatest number of cycles published. */
  lemma {:induction false} TotalsAreKept(t: Table, ds: seq<Deed>)
    requires Blanked(t)
    ensures TotalsBy(t, ds, After(t, ds))
    decreases |ds|
  {
    if ds == [] {
      NothingTotals(t, ds);
    } else {
      TotalsAreKept(t, Front(ds));
      AfterOneMore(t, ds);
      ActTotals(After(t, Front(ds)), Last(ds));
      OneMoreTotals(t, Front(ds), Last(ds), After(t, Front(ds)), After(t, ds));
    }
  }

  /** The revision goes up by one with everything that a commit changes, and with nothing else; with what a finished
      lookup shows on some hop, too. */
  lemma RevisionTells(t: Table, d: Deed)
    ensures
      var t' := Act(t, d);
      && t.revision <= t'.revision <= t.revision + 1
      && (t'.revision == t.revision ==> t' == t || (d.Told? && t'.(hops := t.hops) == t))
      && (d.Made? && t'.revision != t.revision ==> Effective(t, d.commit))
      && (d.Told? ==> (t'.revision != t.revision <==>
            d.finished && d.session == t.session && d.epoch == t.epoch && Known(t.hops, d.addr)))
  {
  }
}
