/** What is learned about an address, and where it is shown. */
module HopNews {
  import opened Basics
  import opened HopModel
  import opened TableModel
  import opened TableInvariants
  import opened ResponderRecency
  import HopLedger

  /** Each half of what is known is replaced by what is new, unless that is empty. */
  predicate Filled(known: Info, news: Info, now: Info) {
    && now.name == (if |news.name| > 0 then news.name else known.name)
    && now.country == (if |news.country| > 0 then news.country else known.country)
    && now.asn == (if |news.asn| > 0 then news.asn else known.asn)
    && now.isp == (if |news.isp| > 0 then news.isp else known.isp)
    && now.source == (if |news.source| > 0 then news.source else known.source)
    && now.failure == (if |news.failure| > 0 then news.failure else known.failure)
  }

  lemma MergeFills(known: Info, news: Info)
    ensures Filled(known, news, Merge(known, news))
  {
  }

  /** `r` has become `r'` by the news about `a`: filled in if it is the one, as it was if not. */
  predicate Told(r: Responder, a: Address, news: Info, r': Responder) {
    && r' == r.(info := r'.info)
    && if r.addr == a then Filled(r.info, news, r'.info) else r'.info == r.info
  }

  lemma OnlyOne(rs: seq<Responder>, a: Address, i: nat, j: nat)
    requires Distinct(Addresses(rs)) && i < |rs| && j < |rs| && rs[i].addr == rs[j].addr
    ensures i == j
  {
    var n := Addresses(rs);
    assert n[i] == rs[i].addr && n[j] == rs[j].addr;
  }

  lemma UpdateTells(h: Hop, a: Address, news: Info, j: nat)
    requires Distinct(Addresses(h.responders)) && a != Unspecified && j < |h.responders|
    ensures
      var h' := Update(h, a, news);
      |h'.responders| == |h.responders| && Told(h.responders[j], a, news, h'.responders[j])
  {
    var i := Find(h.responders, a);
    if i < |h.responders| {
      MergeFills(h.responders[i].info, news);
      if h.responders[j].addr == a { OnlyOne(h.responders, a, i, j); }
    }
  }

  lemma LearnedAt(t: Table, session: nat, epoch: nat, a: Address, news: Info, finished: bool, i: nat)
    requires i < |t.hops| && session == t.session && epoch == t.epoch
    ensures
      var t' := Learn(t, session, epoch, a, news, finished);
      |t'.hops| == |t.hops| && t'.hops[i] == Update(t.hops[i], a, news)
  {
  }

  /** What is learned in time is shown wherever the address is listed, on every hop, and nowhere else; a hop shows it
      besides where that address answered last. */
  lemma LearnedIsShown(t: Table, session: nat, epoch: nat, a: Address, news: Info, finished: bool, i: nat, j: nat)
    requires TableOk(t) && a != Unspecified && i < |t.hops| && j < |t.hops[i].responders|
    ensures
      var t' := Learn(t, session, epoch, a, news, finished);
      if session != t.session || epoch != t.epoch then t' == t
      else
        && |t'.hops| == |t.hops| && |t'.hops[i].responders| == |t.hops[i].responders|
        && Told(t.hops[i].responders[j], a, news, t'.hops[i].responders[j])
        && t'.hops[i].info == t'.hops[i].responders[0].info
  {
    if session == t.session && epoch == t.epoch {
      var h := t.hops[i];
      assert HopOk(h, t.replySequence);
      LearnedAt(t, session, epoch, a, news, finished, i);
      UpdateTells(h, a, news, j);
      UpdateKeepsHop(h, a, news, t.replySequence);
    }
  }

  /** After a reply its address is in front, seen last by it, and shows what was known of it and what the reply
      brought; and so does the hop. */
  predicate InFront(h: Hop, r: ReplyData, sequence: nat, h': Hop) {
    h'.responders != []
    && var x := h'.responders[0];
       && x.addr == r.addr && x.lastSeen == sequence && x.lastTick == r.tick
       && Filled(Moved(h.responders, r.addr).info, r.known, x.info)
       && h'.addr == x.addr && h'.info == x.info
  }

  lemma MovedHasAddress(rs: seq<Responder>, a: Address)
    requires a != Unspecified
    ensures Moved(rs, a).addr == a
  {
  }

  lemma UpdateInFront(h: Hop, a: Address, news: Info)
    requires h.responders != [] && h.responders[0].addr == a != Unspecified
    ensures
      var h', x := Update(h, a, news), h.responders[0];
      && h'.responders != [] && h'.responders[0] == x.(info := Merge(x.info, news))
      && h'.info == h'.responders[0].info && h'.addr == h.addr
  {
    assert Find(h.responders, a) == 0;
  }

  lemma ObserveInFront(h: Hop, a: Address, rtt: nat, sequence: nat, tick: nat)
    requires a != Unspecified
    ensures
      var h', x := Observe(h, a, rtt, sequence, tick), Moved(h.responders, a);
      && h'.responders != [] && h'.responders[0] == HopModel.Heard(x, rtt, sequence, tick)
      && h'.addr == a && h'.responders[0].addr == a
  {
    MovedHasAddress(h.responders, a);
    PromoteParts(h.responders, a, HopModel.Heard(Moved(h.responders, a), rtt, sequence, tick));
  }

  lemma AnswerShows(h: Hop, r: ReplyData, cycle: nat, sequence: nat)
    requires r.addr != Unspecified
    ensures InFront(h, r, sequence, Answer(h, r, cycle, sequence))
  {
    var counted := NoteReply(h, r.rtt, cycle, r.tick, r.outcome, r.status);
    var dated := if r.isDestination then counted.(destinationTick := r.tick) else counted;
    var seen := Observe(dated, r.addr, r.rtt, sequence, r.tick);
    ObserveInFront(dated, r.addr, r.rtt, sequence, r.tick);
    UpdateInFront(seen, r.addr, r.known);
    MergeFills(Moved(h.responders, r.addr).info, r.known);
  }

  /** Bringing an address to the front drops another only if it is new and 128 are listed: then the one not seen for
      longest. */
  lemma OneIsDropped(rs: seq<Responder>, a: Address)
    ensures
      var others := Others(rs, a);
      if exists i :: 0 <= i < |rs| && SameAddress(rs[i].addr, a) then
        |others| == |rs| - 1 && SameAddress(Moved(rs, a).addr, a)
      else if |rs| < 128 then others == rs
      else
        exists i :: 0 <= i < |rs| && others == rs[..i] + rs[i + 1..]
                    && forall j | 0 <= j < |rs| :: rs[i].lastSeen <= rs[j].lastSeen
  {
    if |rs| >= MAX_RESPONDERS && Find(rs, a) == |rs| {
      assert Others(rs, a) == rs[..Oldest(rs)] + rs[Oldest(rs) + 1..];
    }
  }

  /** A reply committed in time is on its hop under the next reply number, first in the list. */
  lemma ReplyIsShown(t: Table, c: Commit)
    requires c.Reply? && Effective(t, c)
    ensures
      var t' := Apply(t, c);
      |t'.hops| == |t.hops| && InFront(t.hops[c.ttl - 1], c.reply, t.replySequence + 1, t'.hops[c.ttl - 1])
  {
    AnswerShows(t.hops[c.ttl - 1], c.reply, c.cycle, t.replySequence + 1);
  }

  /** A reset leaves every hop blank and the table's numbers at nothing, in the next epoch of the same session. */
  lemma ResetBlanks(t: Table)
    ensures
      var t' := ResetHops(t);
      && HopLedger.Blanked(t') && |t'.hops| == |t.hops| && t'.epoch == t.epoch + 1 && t'.session == t.session
      && t'.revision == t.revision + 1 && t'.startTtl == t.startTtl && t'.maxHops == t.maxHops
      && forall i | 0 <= i < |t'.hops| ::
           var h := t'.hops[i];
           h.number == i + 1 && h.responders == [] && h.addr == Unspecified && h.stats.count == 0 && h.counters == ZERO
  {
  }
}
