/** One delivery of a subscription in flight: for which caps that holds of every run. */
module DeliveryCaps {
  import opened Wrappers
  import opened Deliveries
  import DeliverySafety
  import DeliveryOrder

  predicate Capped(s: System, sub: string, cap: nat) { sub in s.queue.subs && s.queue.subs[sub].maxInflight == cap }

  function InFlight(s: System, sub: string): nat { |LiveLeases(s.queue, sub, s.clock)| }

  lemma Claimed(actions: seq<Action>, s: System, claims: seq<DeliveryOrder.Claimed>, id: RowId)
    returns (more: seq<Action>, mine: seq<DeliveryOrder.Claimed>)
    requires DeliveryOrder.Reaches(actions, s, claims) && s.clock == 0 && id in s.queue.rows && s.queue.rows[id] == Fresh(s.queue.rows[id].pos, 1, None, 0)
    requires id.sub in s.queue.subs && s.queue.subs[id.sub].enabled && InFlight(s, id.sub) < s.queue.subs[id.sub].maxInflight
    ensures DeliveryOrder.Reaches(more, s.(queue := Lease(s.queue, id, "w", 9), sends := Apply(s, Claim(id, "w", 0, 9, {})).sends), mine)
  {
    var c := Claim(id, "w", 0, 9, {});
    assert Takes(s.queue, id, "w", 0, 9, {});
    DeliveryOrder.Claiming(actions, s, claims, c);
    more := actions + [c];
    mine := claims + [DeliveryOrder.Claimed(id.sub, s.queue.rows[id].key, s.queue.rows[id].pos)];
  }

  /** Under a cap of two or more both are leased at once. */
  lemma TwoInFlight(cap: nat) returns (actions: seq<Action>)
    requires cap >= 2
    ensures Initial(DeliveryOrder.START) && Legal(DeliveryOrder.START, actions)
    ensures var s := Run(DeliveryOrder.START, actions); Capped(s, "s", cap) && InFlight(s, "s") == 2
  {
    var claims: seq<DeliveryOrder.Claimed> := [];
    actions := DeliveryOrder.TwoCommits(None, cap);
    var s := Run(DeliveryOrder.START, actions);
    LeasesCount(s.queue);
    actions, claims := Claimed(actions, s, claims, DeliveryOrder.ROW_A);
    s := Run(DeliveryOrder.START, actions);
    actions, claims := Claimed(actions, s, claims, DeliveryOrder.ROW_B);
  }

  lemma LeasesCount(q: Queue)
    requires q.rows == map[DeliveryOrder.ROW_A := Fresh(1, 1, None, 0), DeliveryOrder.ROW_B := Fresh(2, 1, None, 0)]
    ensures |LiveLeases(q, "s", 0)| == 0 && |LiveLeases(Lease(q, DeliveryOrder.ROW_A, "w", 9), "s", 0)| == 1
    ensures |LiveLeases(Lease(Lease(q, DeliveryOrder.ROW_A, "w", 9), DeliveryOrder.ROW_B, "w", 9), "s", 0)| == 2
  {
    var a, b := DeliveryOrder.ROW_A, DeliveryOrder.ROW_B;
    assert LiveLeases(q, "s", 0) == {};
    assert LiveLeases(Lease(q, a, "w", 9), "s", 0) == {a};
    assert LiveLeases(Lease(Lease(q, a, "w", 9), b, "w", 9), "s", 0) == {a, b};
  }

  /** At most one delivery of a subscription is in flight, in every run, exactly when its cap is at most one. */
  lemma OneInFlightIff(cap: nat)
    ensures (forall s, actions, sub | Initial(s) && Legal(s, actions) && Capped(Run(s, actions), sub, cap) ::
               InFlight(Run(s, actions), sub) <= 1) <==> cap <= 1
  {
    if cap <= 1 {
      forall s, actions, sub | Initial(s) && Legal(s, actions) && Capped(Run(s, actions), sub, cap)
        ensures InFlight(Run(s, actions), sub) <= 1
      {
        DeliverySafety.EveryRunIsSafe(s, actions);
      }
    } else {
      var actions := TwoInFlight(cap);
      assert Capped(Run(DeliveryOrder.START, actions), "s", cap);
    }
  }
}
