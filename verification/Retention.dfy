/**
 Retention: what one prune moves to the replay tier, what it drops, that it loses nothing early, and that it is a run of the store's
 transactions.
 */
module Retention {
  import opened Wrappers
  import opened Archive
  import opened EventLog
  import opened EventStore
  import TierProofs

  /** Ages in milliseconds. With `replay` 0 there is no replay tier. */
  datatype Policy = Policy(retention: nat, replay: nat, receipts: nat, sandbox: nat)

  function Least(a: nat, b: nat): nat { if a <= b then a else b }

  function Most(a: nat, b: nat): nat { if a >= b then a else b }

  /** Hot rows the prune deletes outright: sandbox events of their age, and every old one when there is no replay tier. */
  predicate HotExpired(r: Row, p: Policy, now: int) {
    (r.c.env == "sandbox" && r.c.receivedAt < now - Least(p.retention, p.sandbox)) || (p.replay == 0 && r.c.receivedAt < now - p.retention)
  }

  /** Replay rows it deletes: old enough, and not held by a restore. */
  predicate ReplayExpired(a: Archived, p: Policy, now: int) {
    (p.replay == 0 || a.c.receivedAt < now - p.replay) && (a.hold.None? || a.hold.value < now)
  }

  function HotGone(log: Log, p: Policy, now: int): set<string> { set id | id in log.hot && HotExpired(log.hot[id], p, now) }

  function ReplayGone(log: Log, p: Policy, now: int): set<string> { set id | id in log.replay && ReplayExpired(log.replay[id], p, now) }

  function ReceiptsGone(log: Log, p: Policy, now: int): set<string> {
    set id | id in log.receipts && log.receipts[id] < now - Most(p.receipts, p.retention)
  }

  function Dropped(log: Log, p: Policy, now: int): Log { Drop(log, HotGone(log, p, now), {}, {}) }

  /** A prune that moved `moved`. */
  function Pruned(log: Log, moved: set<string>, p: Policy, now: int): Log {
    var kept := Move(Dropped(log, p, now), moved, now);
    Drop(kept, {}, ReplayGone(kept, p, now), ReceiptsGone(kept, p, now))
  }

  /** The rows of n full batches. */
  function Full(batch: nat, n: nat): nat { if n == 0 then 0 else Full(batch, n - 1) + batch }

  /** The move, batch after batch: until one is short, or as many as one call allows. */
  method MoveBatches(s: Store, cutoff: int, now: int, batch: nat, maxBatches: nat, locked: set<string>) returns (moved: set<string>)
    modifies s
    ensures s.State() == Move(old(s.State()), moved, now) && moved <= Movable(old(s.State()).hot, cutoff, locked)
    ensures moved == Movable(old(s.State()).hot, cutoff, locked) || |moved| == Full(batch, maxBatches)
  {
    moved := {};
    ghost var start := s.State();
    MoveNone(start, now);
    for i := 0 to maxBatches
      invariant moved <= Movable(start.hot, cutoff, locked)
      invariant s.State() == Move(start, moved, now) && |moved| == Full(batch, i)
    {
      var more := s.MoveBatch(cutoff, batch, locked, now);
      MovesOn(start, moved, more, now, cutoff, locked);
      moved := moved + more;
      if |more| < batch { break; }
    }
  }

  /** One call of the prune: the sandbox, then the move, then the replay tier and the receipts. */
  method Prune(s: Store, p: Policy, now: int, batch: nat, maxBatches: nat, locked: set<string>) returns (moved: set<string>)
    modifies s
    ensures s.State() == Pruned(old(s.State()), moved, p, now)
    ensures moved <= Movable(Dropped(old(s.State()), p, now).hot, now - p.retention, locked)
    ensures if p.replay == 0 then moved == {}
            else moved == Movable(Dropped(old(s.State()), p, now).hot, now - p.retention, locked) || |moved| == Full(batch, maxBatches)
  {
    s.Delete(HotGone(s.State(), p, now), {}, {});
    ghost var start := s.State();
    MoveNone(start, now);
    moved := {};
    if p.replay > 0 { moved := MoveBatches(s, now - p.retention, now, batch, maxBatches, locked); }
    s.Delete({}, ReplayGone(s.State(), p, now), ReceiptsGone(s.State(), p, now));
  }

  lemma MoveNone(log: Log, now: int)
    ensures Move(log, {}, now) == log
  {
    assert Move(log, {}, now).hot == log.hot && Move(log, {}, now).replay == log.replay;
    assert Move(log, {}, now).queue.rows == log.queue.rows;
  }

  /** A next batch takes other rows of the same candidates, and a short one the rest of them. */
  lemma MovesOn(start: Log, moved: set<string>, more: set<string>, now: int, cutoff: int, locked: set<string>)
    requires moved <= Movable(start.hot, cutoff, locked)
    requires more <= Movable(Move(start, moved, now).hot, cutoff, locked)
    ensures Move(Move(start, moved, now), more, now) == Move(start, moved + more, now)
    ensures moved + more <= Movable(start.hot, cutoff, locked) && moved !! more && |moved + more| == |moved| + |more|
    ensures more == Movable(Move(start, moved, now).hot, cutoff, locked) ==> moved + more == Movable(start.hot, cutoff, locked)
  {
    TierProofs.MovesAdd(start, moved, more, now);
  }

  // ---------------------------------------------------------------- what is lost

  lemma HotLostIff(log: Log, moved: set<string>, p: Policy, now: int, id: string)
    requires Consistent(log) && id in log.hot && moved <= Dropped(log, p, now).hot.Keys && (p.replay == 0 ==> moved == {})
    ensures var after := Pruned(log, moved, p, now);
      && (!Known(after, id) <==> HotExpired(log.hot[id], p, now) || (id in moved && log.hot[id].c.receivedAt < now - p.replay))
      && (Known(after, id) ==> Lookup(after, id) == Some(log.hot[id]))
  {
    HotRowMoved(log, moved, p, now, id);
    LastDrop(Move(Dropped(log, p, now), moved, now), p, now, id);
  }

  /** The prune's last transaction takes the expired replay rows and nothing else. */
  lemma LastDrop(kept: Log, p: Policy, now: int, id: string)
    ensures var after := Drop(kept, {}, ReplayGone(kept, p, now), ReceiptsGone(kept, p, now));
      && (id in after.hot <==> id in kept.hot) && (id in kept.hot ==> after.hot[id] == kept.hot[id])
      && (id in after.replay <==> id in kept.replay && !ReplayExpired(kept.replay[id], p, now))
      && (id in after.replay ==> after.replay[id] == kept.replay[id])
      && (id in after.receipts <==> id in kept.receipts && kept.receipts[id] >= now - Most(p.receipts, p.retention))
  {
  }

  /** Once moved, a row is in the replay tier as it was, without a hold. */
  lemma HotRowMoved(log: Log, moved: set<string>, p: Policy, now: int, id: string)
    requires Consistent(log) && id in log.hot && moved <= Dropped(log, p, now).hot.Keys
    ensures var kept := Move(Dropped(log, p, now), moved, now);
      && (id in kept.hot <==> !HotExpired(log.hot[id], p, now) && id !in moved) && (id in kept.hot ==> kept.hot[id] == log.hot[id])
      && (id in kept.replay <==> id in moved) && (id in moved ==> kept.replay[id] == Archive.Store(log.hot[id], log.epoch, now) && id !in kept.hot)
  {
    assert id !in log.replay;
  }

  lemma ReplayLostIff(log: Log, moved: set<string>, p: Policy, now: int, id: string)
    requires Consistent(log) && id in log.replay && moved <= Dropped(log, p, now).hot.Keys
    ensures var after := Pruned(log, moved, p, now);
      && (!Known(after, id) <==> ReplayExpired(log.replay[id], p, now))
      && (Known(after, id) ==> Lookup(after, id) == Some(Unpack(log.replay[id])))
  {
    assert id !in log.hot;
  }

  /** Exactly what a prune loses: expired hot rows, moved rows already past the replay age, and expired replay rows. */
  lemma LostIff(log: Log, moved: set<string>, p: Policy, now: int, id: string)
    requires Consistent(log) && Known(log, id) && moved <= Dropped(log, p, now).hot.Keys && (p.replay == 0 ==> moved == {})
    ensures !Known(Pruned(log, moved, p, now), id) <==>
              if id in log.hot then HotExpired(log.hot[id], p, now) || (id in moved && log.hot[id].c.receivedAt < now - p.replay)
              else ReplayExpired(log.replay[id], p, now)
    ensures Known(Pruned(log, moved, p, now), id) ==> Lookup(Pruned(log, moved, p, now), id) == Lookup(log, id)
  {
    if id in log.hot { HotLostIff(log, moved, p, now, id); } else { ReplayLostIff(log, moved, p, now, id); }
  }

  /**
   What a prune does to a row, by its columns and ages alone. Hot rows go when they are sandbox events older than either age, when there
   is no replay tier and they are old, or when they were moved past the replay age; what is moved is old, unlocked and no sandbox event,
   and all of that is when the move was not cut short. Replay rows go by age unless held. A receipt goes when it is older than both ages.
   */
  lemma PruneByAge(log: Log, moved: set<string>, p: Policy, now: int, locked: set<string>, id: string)
    requires Consistent(log) && moved <= Movable(Dropped(log, p, now).hot, now - p.retention, locked) && (p.replay == 0 ==> moved == {})
    ensures var after := Pruned(log, moved, p, now);
      && (id in log.hot ==>
            var c := log.hot[id].c;
            && (!Known(after, id) <==>
                  || (c.env == "sandbox" && (c.receivedAt < now - p.retention || c.receivedAt < now - p.sandbox))
                  || (p.replay == 0 && c.receivedAt < now - p.retention)
                  || (id in moved && c.receivedAt < now - p.replay))
            && (id in moved ==> p.replay > 0 && id !in locked && c.env != "sandbox" && c.receivedAt < now - p.retention)
            && (moved == Movable(Dropped(log, p, now).hot, now - p.retention, locked) && p.replay > 0 ==>
                  (id in moved <==> id !in locked && c.env != "sandbox" && c.receivedAt < now - p.retention)))
      && (id in log.replay ==>
            var a := log.replay[id];
            (!Known(after, id) <==> (p.replay == 0 || a.c.receivedAt < now - p.replay) && (a.hold == None || a.hold.value < now)))
      && (id in log.receipts ==>
            (id !in after.receipts <==> log.receipts[id] < now - p.receipts && log.receipts[id] < now - p.retention))
  {
    if Known(log, id) { LostIff(log, moved, p, now, id); }
    LastDrop(Move(Dropped(log, p, now), moved, now), p, now, id);
  }

  /** Nothing younger than the retention that applies to it is ever lost, from either tier. */
  lemma NothingYoungIsLost(log: Log, moved: set<string>, p: Policy, now: int, cutoff: int, locked: set<string>, id: string)
    requires Consistent(log) && Known(log, id) && moved <= Movable(Dropped(log, p, now).hot, cutoff, locked) && (p.replay == 0 ==> moved == {})
    requires var r := Lookup(log, id).value;
      r.c.receivedAt >= now - (if r.c.env == "sandbox" then Least(p.retention, p.sandbox) else p.retention)
      && (p.replay > 0 ==> r.c.receivedAt >= now - p.replay) && (p.replay == 0 ==> id in log.hot)
    ensures Known(Pruned(log, moved, p, now), id) && Lookup(Pruned(log, moved, p, now), id) == Lookup(log, id)
  {
    LostIff(log, moved, p, now, id);
  }

  /** A held row outlives any age. */
  lemma HeldRowsStay(log: Log, moved: set<string>, p: Policy, now: int, id: string)
    requires Consistent(log) && id in log.replay && log.replay[id].hold.Some? && log.replay[id].hold.value >= now
    requires moved <= Dropped(log, p, now).hot.Keys
    ensures id in Pruned(log, moved, p, now).replay && Pruned(log, moved, p, now).replay[id] == log.replay[id]
  {
  }

  /** A prune is three transactions of the store, so all that holds over runs holds over prunes. */
  lemma PruneIsARun(log: Log, moved: set<string>, p: Policy, now: int)
    ensures var kept := Move(Dropped(log, p, now), moved, now);
      Pruned(log, moved, p, now)
        == Run(log, [Retire(HotGone(log, p, now), {}, {}), MoveOut(moved, now), Retire({}, ReplayGone(kept, p, now), ReceiptsGone(kept, p, now))])
  {
    var kept := Move(Dropped(log, p, now), moved, now);
    var a, b := Retire(HotGone(log, p, now), {}, {}), MoveOut(moved, now);
    var c := Retire({}, ReplayGone(kept, p, now), ReceiptsGone(kept, p, now));
    assert [a, b, c][..2] == [a, b] && [a, b][..1] == [a] && [a][..0] == [];
    assert Run(log, [a]) == Apply(log, a);
    assert Run(log, [a, b]) == Apply(Apply(log, a), b);
  }

  /** An id accepted within the receipt retention is remembered across a prune, so publishing it again stores nothing. */
  lemma PruneRemembers(log: Log, moved: set<string>, p: Policy, now: int, e: Envelope, ctx: Publish)
    requires Consistent(log) && PublishProofs.Remembers(log, e)
    requires e.id in log.receipts && log.receipts[e.id] >= now - Most(p.receipts, p.retention)
    ensures var after := Pruned(log, moved, p, now);
      PublishProofs.Remembers(after, e) && PublishAll(after, [e], ctx).Ok? && PublishAll(after, [e], ctx).value.0 == after
  {
    var after := Pruned(log, moved, p, now);
    assert e.id in after.receipts;
    PublishProofs.RepeatChangesNothing(after, [e], ctx);
  }
}
