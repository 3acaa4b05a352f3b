/** Facts about choosing, listing and waking that the scheduler object's loops rest on. */
module SchedulerReserve {
  import opened Basics
  import opened SchedulerModel
  import opened Sizes

  function Behind(skipped: seq<nat>, o: (Sched, Batch)): (Sched, Batch) {
    (o.0, Batch(o.1.slots, skipped + o.1.skipped))
  }

  lemma BehindNothing(o: (Sched, Batch))
    ensures Behind([], o) == o
  {
    assert [] + o.1.skipped == o.1.skipped;
  }

  lemma BehindOneMore(skipped: seq<nat>, t: nat, o: (Sched, Batch))
    ensures Behind(skipped, (o.0, Batch(o.1.slots, [t] + o.1.skipped))) == Behind(skipped + [t], o)
  {
    assert skipped + ([t] + o.1.skipped) == (skipped + [t]) + o.1.skipped;
  }

  /** `NextCell` is the first of the points one, two, ... intervals after `at` that lies past `now`. */
  lemma FirstPast(at: int, interval: int, now: int, n: int)
    requires 1 <= interval && at <= now && 1 <= n
    requires at + interval * (n - 1) <= now < at + interval * n
    ensures at + interval * n == NextCell(at, interval, now)
  {
    var q, r := (now - at) / interval, (now - at) % interval;
    assert now - at == interval * q + r;
    if q + 1 <= n - 1 { ProductOrder(q + 1, n - 1, interval); }
    if n <= q { ProductOrder(n, q, interval); }
    assert q == n - 1;
  }

  lemma ListsOneMore(tokens: seq<Token>, m: map<nat, Record>, d: set<nat>, k: nat)
    requires Lists(tokens, m, d) && k in m && k !in d && m[k].token.sequence == k
    ensures Lists(tokens + [m[k].token], m, d + {k})
  {
    var longer := tokens + [m[k].token];
    forall j | j in d + {k} ensures exists i :: 0 <= i < |longer| && longer[i].sequence == j {
      if j == k {
        assert longer[|tokens|].sequence == k;
      } else {
        var i :| 0 <= i < |tokens| && tokens[i].sequence == j;
        assert longer[i].sequence == j;
      }
    }
  }

  /** `tokens` names the overdue records among those visited. */
  ghost predicate ListsOverdue(tokens: seq<Token>, s: Sched, now: int, done: set<nat>) {
    Lists(tokens, s.records, Overdue(s, now) * done)
  }

  lemma ListsOverdueOneMore(tokens: seq<Token>, s: Sched, now: int, done: set<nat>, k: nat)
    requires ListsOverdue(tokens, s, now, done)
    requires k in s.records && k !in done && s.records[k].token.sequence == k
    ensures ListsOverdue(if k in Overdue(s, now) then tokens + [s.records[k].token] else tokens, s, now, done + {k})
  {
    if k in Overdue(s, now) {
      ListsOneMore(tokens, s.records, Overdue(s, now) * done, k);
      assert Overdue(s, now) * (done + {k}) == Overdue(s, now) * done + {k};
    } else {
      assert Overdue(s, now) * (done + {k}) == Overdue(s, now) * done;
    }
  }

  ghost predicate ListsFlying(tokens: seq<Token>, s: Sched, done: set<nat>) {
    Lists(tokens, s.records, Flying(s) * done)
  }

  lemma ListsFlyingOneMore(tokens: seq<Token>, s: Sched, done: set<nat>, k: nat)
    requires ListsFlying(tokens, s, done)
    requires k in s.records && k !in done && s.records[k].token.sequence == k
    ensures ListsFlying(if k in Flying(s) then tokens + [s.records[k].token] else tokens, s, done + {k})
  {
    if k in Flying(s) {
      ListsOneMore(tokens, s.records, Flying(s) * done, k);
      assert Flying(s) * (done + {k}) == Flying(s) * done + {k};
    } else {
      assert Flying(s) * (done + {k}) == Flying(s) * done;
    }
  }

  lemma DrainKeepsFlying(s: Sched)
    requires Shape(s)
    ensures Flying(BeginDrain(s)) == Flying(s)
    ensures forall k | k in Flying(s) :: k in BeginDrain(s).records && BeginDrain(s).records[k] == s.records[k]
  {
  }

  predicate IsWakeOver(s: Sched, w: Option<int>, d: set<nat>)
    requires Shape(s) && d <= s.records.Keys
  {
    && (w.None? <==> SendWake(s).None? && d == {})
    && (w.Some? ==>
          && (SendWake(s) == w || exists k :: k in d && s.records[k].deadline == w.value)
          && (SendWake(s).Some? ==> w.value <= SendWake(s).value)
          && (forall k | k in d :: w.value <= s.records[k].deadline))
  }

  lemma WakeOverOneMore(s: Sched, w: Option<int>, seen: set<nat>, k: nat)
    requires Shape(s) && k in s.records && IsWakeOver(s, w, Flying(s) * seen)
    ensures IsWakeOver(s, if s.records[k].state == Issued then Earlier(w, s.records[k].deadline) else w,
                       Flying(s) * (seen + {k}))
  {
    var before, after := Flying(s) * seen, Flying(s) * (seen + {k});
    if s.records[k].state == Issued {
      assert after == before + {k};
      var w' := Earlier(w, s.records[k].deadline);
      if w'.value != s.records[k].deadline && SendWake(s) != w {
        var j :| j in before && s.records[j].deadline == w.value;
        assert j in after;
      }
    } else {
      assert after == before;
    }
  }
}
