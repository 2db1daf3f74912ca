/** Mutual exclusion over whole runs: a subscription never has more live leases than its cap, a key never two. */
module DeliverySafety {
  import opened Wrappers
  import opened Deliveries

  predicate WithinCaps(q: Queue, now: int) {
    forall sub | sub in q.subs :: |LiveLeases(q, sub, now)| <= q.subs[sub].maxInflight
  }

  predicate OneLeasePerKey(q: Queue, now: int) {
    forall a, b | a in q.rows && b in q.rows && SameKey(q, a, b) && Leased(q.rows[a], now) && Leased(q.rows[b], now) :: a == b
  }

  /** Rows belong to known subscriptions, and only a row still to be delivered has a lease owner. */
  predicate Sound(q: Queue) {
    && (forall id | id in q.rows :: id.sub in q.subs)
    && (forall id | id in q.rows && q.rows[id].owner.Some? :: Open(q.rows[id]))
  }

  predicate Safe(s: System) {
    Sound(s.queue) && WithinCaps(s.queue, s.clock) && OneLeasePerKey(s.queue, s.clock)
  }

  lemma SubsetSize<T>(a: set<T>, b: set<T>)
    requires a <= b
    ensures |a| <= |b|
  {
    assert b == a + (b - a);
  }

  /** A queue whose leases are all in `p` (same row, key and lease) is as safe as `p`, now or later. */
  lemma FewerLeases(p: Queue, q: Queue, now: int, later: int)
    requires WithinCaps(p, now) && OneLeasePerKey(p, now) && now <= later
    requires q.subs.Keys <= p.subs.Keys
    requires forall sub | sub in q.subs :: q.subs[sub].maxInflight == p.subs[sub].maxInflight
    requires forall id | id in q.rows && Leased(q.rows[id], later) ::
               id in p.rows && q.rows[id].leaseUntil == p.rows[id].leaseUntil && q.rows[id].key == p.rows[id].key
    ensures WithinCaps(q, later) && OneLeasePerKey(q, later)
  {
    forall sub | sub in q.subs ensures |LiveLeases(q, sub, later)| <= q.subs[sub].maxInflight {
      SubsetSize(LiveLeases(q, sub, later), LiveLeases(p, sub, now));
    }
    forall a, b | a in q.rows && b in q.rows && SameKey(q, a, b) && Leased(q.rows[a], later) && Leased(q.rows[b], later)
      ensures a == b
    {
      assert SameKey(p, a, b) && Leased(p.rows[a], now) && Leased(p.rows[b], now);
    }
  }

  /** A claim may read a clock that lags: what it counts as leased includes all that is still leased. */
  lemma LeaseKeepsCaps(q: Queue, id: RowId, owner: string, now: int, until: int, clock: int)
    requires WithinCaps(q, clock) && Grantable(q, id, now) && now <= clock
    ensures WithinCaps(Lease(q, id, owner, until), clock)
  {
    var q' := Lease(q, id, owner, until);
    forall sub | sub in q'.subs ensures |LiveLeases(q', sub, clock)| <= q'.subs[sub].maxInflight {
      if sub == id.sub {
        SubsetSize(LiveLeases(q', sub, clock), LiveLeases(q, sub, now) + {id});
      } else {
        assert LiveLeases(q', sub, clock) == LiveLeases(q, sub, clock);
      }
    }
  }

  lemma LeaseKeepsKeys(q: Queue, id: RowId, owner: string, now: int, until: int, clock: int)
    requires OneLeasePerKey(q, clock) && Grantable(q, id, now) && now <= clock
    ensures OneLeasePerKey(Lease(q, id, owner, until), clock)
  {
    var q' := Lease(q, id, owner, until);
    forall a, b | a in q'.rows && b in q'.rows && SameKey(q', a, b) && Leased(q'.rows[a], clock) && Leased(q'.rows[b], clock)
      ensures a == b
    {
      assert SameKey(q, a, b) && SameKey(q, b, a);
    }
  }

  lemma {:induction false} RequeueKeepsLeases(q: Queue, sub: string, items: seq<Replayed>, at: int)
    requires sub in q.subs && Sound(q)
    ensures var q' := RequeueAll(q, sub, items, at);
      && q'.subs == q.subs && Sound(q') && q.rows.Keys <= q'.rows.Keys
      && (forall id | id in q.rows :: q'.rows[id].leaseUntil == q.rows[id].leaseUntil && q'.rows[id].key == q.rows[id].key)
      && (forall id | id in q'.rows && id !in q.rows :: q'.rows[id].leaseUntil == None)
  {
    if items != [] { RequeueKeepsLeases(q, sub, items[..|items| - 1], at); }
  }

  lemma SubscribeStaysSafe(s: System, sub: string, n: Subscription)
    requires Safe(s) && Enabled(s, Subscribe(sub, n))
    ensures Safe(Apply(s, Subscribe(sub, n)))
  {
    var q, q' := s.queue, Apply(s, Subscribe(sub, n)).queue;
    forall x | x in q'.subs ensures |LiveLeases(q', x, s.clock)| <= q'.subs[x].maxInflight {
      assert LiveLeases(q', x, s.clock) == LiveLeases(q, x, s.clock);
      if x !in q.subs { assert LiveLeases(q, x, s.clock) == {}; }
    }
    assert forall a, b | a in q.rows && b in q.rows && SameKey(q', a, b) :: SameKey(q, a, b);
  }

  lemma StepStaysSafe(s: System, a: Action)
    requires Safe(s) && Enabled(s, a)
    ensures Safe(Apply(s, a))
  {
    var q, s' := s.queue, Apply(s, a);
    match a
    case Claim(id, owner, now, until, locked) =>
      if Takes(q, id, owner, now, until, locked) {
        LeaseKeepsCaps(q, id, owner, now, until, s.clock);
        LeaseKeepsKeys(q, id, owner, now, until, s.clock);
      }
    case Replay(sub, items, at) =>
      RequeueKeepsLeases(q, sub, items, at);
      FewerLeases(q, s'.queue, s.clock, s'.clock);
    case Subscribe(sub, n) => SubscribeStaysSafe(s, sub, n);
    case _ => FewerLeases(q, s'.queue, s.clock, s'.clock);
  }

  lemma {:induction false} RunStaysSafe(s: System, actions: seq<Action>)
    requires Safe(s) && Legal(s, actions)
    ensures Safe(Run(s, actions))
  {
    if actions != [] {
      RunStaysSafe(s, actions[..|actions| - 1]);
      StepStaysSafe(Run(s, actions[..|actions| - 1]), actions[|actions| - 1]);
    }
  }

  /** The caps and the per-key exclusion hold in every reachable state of every interleaving. */
  lemma EveryRunIsSafe(s: System, actions: seq<Action>)
    requires Initial(s) && Legal(s, actions)
    ensures Safe(Run(s, actions))
  {
    assert Safe(s);
    RunStaysSafe(s, actions);
  }

  /** A live lease is nobody else's to take: it ends by its holder's report, by expiry or with its row. */
  lemma LiveLeaseIsExclusive(s: System, a: Action, id: RowId)
    requires Safe(s) && Enabled(s, a)
    requires id in s.queue.rows && Leased(s.queue.rows[id], s.clock)
    ensures var q, q' := s.queue, Apply(s, a).queue;
      || id !in q'.rows
      || (q'.rows[id].owner == q.rows[id].owner && q'.rows[id].leaseUntil == q.rows[id].leaseUntil)
      || (a.Report? && a.send.id == id && q.rows[id].owner == Some(a.send.owner))
  {
    if a.Replay? { RequeueKeepsOwner(s.queue, a.sub, a.items, a.at, id); }
  }

  lemma {:induction false} RequeueKeepsOwner(q: Queue, sub: string, items: seq<Replayed>, at: int, id: RowId)
    requires id in q.rows
    ensures var q' := RequeueAll(q, sub, items, at);
      id in q'.rows && q'.rows[id].owner == q.rows[id].owner && q'.rows[id].leaseUntil == q.rows[id].leaseUntil
  {
    if items != [] { RequeueKeepsOwner(q, sub, items[..|items| - 1], at, id); }
  }
}
