/**
 What a reader's statements see of the event store while transactions run between them: rows are added above the head, emptied in
 place, or dropped.
 */
module StoreReads {
  import opened Archive
  import opened Redaction
  import opened EventLog
  import opened Scan
  import PublishProofs
  import TierProofs

  function SnapshotOf(log: Log): Snapshot
    requires OnePosition(log)
  {
    Snapshot(TierProofs.Timeline(log), log.lastSeq)
  }

  /** `r` is `was` as it stands later: itself, or its tombstone. */
  ghost predicate Stands(r: Row, was: Row) { r == was || exists who, at :: r == Tombstone(was, who, at) }

  lemma StandsTwice(r: Row, mid: Row, was: Row)
    requires Stands(r, mid) && Stands(mid, was)
    ensures Stands(r, was)
  {
    if r != mid && mid != was {
      var who, at :| r == Tombstone(mid, who, at);
      assert r == Tombstone(was, who, at);
    }
  }

  /** Every row a scan spans after was spanned before, as it stood then, unless it is new. */
  ghost predicate Evolves(p: Log, q: Log) {
    && p.lastSeq <= q.lastSeq && p.epoch == q.epoch
    && forall r | r in TierProofs.Spanned(q) && r.c.pos <= p.lastSeq :: exists was :: was in TierProofs.Spanned(p) && Stands(r, was)
  }

  lemma EvolvesTwice(p: Log, mid: Log, q: Log)
    requires Evolves(p, mid) && Evolves(mid, q)
    ensures Evolves(p, q)
  {
    forall r | r in TierProofs.Spanned(q) && r.c.pos <= p.lastSeq
      ensures exists was :: was in TierProofs.Spanned(p) && Stands(r, was)
    {
      var m :| m in TierProofs.Spanned(mid) && Stands(r, m);
      var was :| was in TierProofs.Spanned(p) && Stands(m, was);
      StandsTwice(r, m, was);
    }
  }

  lemma RewriteEvolves(log: Log, targets: set<string>, who: string, now: int)
    ensures Evolves(log, Rewrite(log, targets, who, now))
  {
    var after := Rewrite(log, targets, who, now);
    forall r | r in TierProofs.Spanned(after) ensures exists was :: was in TierProofs.Spanned(log) && Stands(r, was) {
      if id :| id in after.hot && after.hot[id] == r {
        assert log.hot[id] in TierProofs.Spanned(log) && Stands(r, log.hot[id]);
      } else {
        var id :| id in after.replay && after.replay[id].epoch == after.epoch && Unpack(after.replay[id]) == r;
        var was := Unpack(log.replay[id]);
        assert was in TierProofs.Spanned(log);
        assert r == was || r == Tombstone(was, who, now);
      }
    }
  }

  lemma InsertEvolves(log: Log, e: Envelope, ctx: Publish)
    ensures Evolves(log, Insert(log, e, ctx))
  {
    var after := Insert(log, e, ctx);
    forall r | r in TierProofs.Spanned(after) && r.c.pos <= log.lastSeq ensures r in TierProofs.Spanned(log) {
      if id :| id in after.hot && after.hot[id] == r { assert log.hot[id] == r; }
    }
  }

  lemma PublishOneEvolves(log: Log, e: Envelope, ctx: Publish)
    requires PublishOne(log, e, ctx).Ok?
    ensures Evolves(log, PublishOne(log, e, ctx).value.0)
  {
    var after := PublishOne(log, e, ctx).value.0;
    if !Known(log, e.id) && e.id !in log.receipts {
      PublishProofs.PublishOneShape(log, e, ctx);
      var next := Insert(log, e, ctx);
      InsertEvolves(log, e, ctx);
      if after != next {
        var targets :| after == Rewrite(next, targets, e.id, ctx.now);
        RewriteEvolves(next, targets, e.id, ctx.now);
        EvolvesTwice(log, next, after);
      }
    } else {
      assert after == log;
    }
  }

  lemma {:induction false} PublishAllEvolves(log: Log, items: seq<Envelope>, ctx: Publish)
    requires PublishAll(log, items, ctx).Ok?
    ensures Evolves(log, PublishAll(log, items, ctx).value.0)
  {
    if items != [] {
      var front := items[..|items| - 1];
      var mid := PublishAll(log, front, ctx).value.0;
      PublishAllEvolves(log, front, ctx);
      PublishOneEvolves(mid, items[|items| - 1], ctx);
      EvolvesTwice(log, mid, PublishAll(log, items, ctx).value.0);
    }
  }

  lemma MoveEvolves(log: Log, ids: set<string>, at: int)
    requires Consistent(log)
    ensures Evolves(log, Move(log, ids, at))
  {
    TierProofs.MoveKeepsSpan(log, ids, at);
  }

  lemma DropEvolves(log: Log, hot: set<string>, replay: set<string>, receipts: set<string>)
    ensures Evolves(log, Drop(log, hot, replay, receipts))
  {
    var after := Drop(log, hot, replay, receipts);
    forall r | r in TierProofs.Spanned(after) ensures r in TierProofs.Spanned(log) {
      if id :| id in after.hot && after.hot[id] == r { assert log.hot[id] == r; }
      else {
        var id :| id in after.replay && after.replay[id].epoch == after.epoch && Unpack(after.replay[id]) == r;
        assert Unpack(log.replay[id]) == r;
      }
    }
  }

  lemma StepEvolves(log: Log, s: Step)
    requires Consistent(log)
    ensures Evolves(log, Apply(log, s))
  {
    match s
    case Batch(items, ctx) => if PublishAll(log, items, ctx).Ok? { PublishAllEvolves(log, items, ctx); }
    case Redaction(who, d, at) => RewriteEvolves(log, Targets(log, who, d), who.id, at);
    case MoveOut(ids, at) => MoveEvolves(log, ids, at);
    case Retire(hot, replay, receipts) => DropEvolves(log, hot, replay, receipts);
  }

  lemma {:induction false} RunEvolves(log: Log, steps: seq<Step>)
    requires Consistent(log)
    ensures Evolves(log, Run(log, steps))
  {
    if steps != [] {
      var mid := Run(log, steps[..|steps| - 1]);
      RunEvolves(log, steps[..|steps| - 1]);
      PublishProofs.EveryRunIsConsistent(log, steps[..|steps| - 1]);
      StepEvolves(mid, steps[|steps| - 1]);
      EvolvesTwice(log, mid, Run(log, steps));
    }
  }

  lemma SnapshotIsSane(log: Log)
    requires Consistent(log)
    ensures Sane(SnapshotOf(log))
    ensures forall k | k in SnapshotOf(log).rows :: SnapshotOf(log).rows[k] in TierProofs.Spanned(log)
    ensures forall r | r in TierProofs.Spanned(log) :: r.c.pos in SnapshotOf(log).rows && SnapshotOf(log).rows[r.c.pos] == r
  {
    forall r | r in TierProofs.Spanned(log) ensures r.c.pos <= log.lastSeq {}
    var rows := TierProofs.Timeline(log);
    forall k | k in rows ensures rows[k] in TierProofs.Spanned(log) && rows[k].c.pos == k {}
  }

  lemma StandingShows(r: Row, was: Row, q: Query)
    requires Stands(r, was) && NeverReveals(q)
    ensures SameEnvelope(r, was) && (Wanted(q, r) ==> Wanted(q, was))
  {
  }

  lemma EvolvedRow(p: Log, q: Log, query: Query, k: nat)
    requires Consistent(p) && Consistent(q) && Evolves(p, q) && NeverReveals(query)
    requires k in SnapshotOf(q).rows && k <= p.lastSeq
    ensures var s, t := SnapshotOf(p), SnapshotOf(q);
      k in s.rows && SameEnvelope(t.rows[k], s.rows[k]) && (Wanted(query, t.rows[k]) ==> Wanted(query, s.rows[k]))
  {
    SnapshotIsSane(p);
    SnapshotIsSane(q);
    var r := SnapshotOf(q).rows[k];
    var was :| was in TierProofs.Spanned(p) && Stands(r, was);
    StandingShows(r, was, query);
  }

  lemma EvolvedIsLater(p: Log, q: Log, query: Query)
    requires Consistent(p) && Consistent(q) && Evolves(p, q) && NeverReveals(query)
    ensures LaterTo(query, SnapshotOf(p), SnapshotOf(q))
  {
    var s, t := SnapshotOf(p), SnapshotOf(q);
    forall k | k in t.rows && k <= s.head
      ensures k in s.rows && SameEnvelope(t.rows[k], s.rows[k]) && (Wanted(query, t.rows[k]) ==> Wanted(query, s.rows[k]))
    {
      EvolvedRow(p, q, query, k);
    }
  }

  ghost predicate Reached(p: Log, q: Log) { exists steps :: q == Run(p, steps) }

  ghost predicate Follows(logs: nat -> Log, n: nat) { Reached(logs(n), logs(n + 1)) }

  /** The log at each statement of a reader; any transactions run in between. */
  ghost predicate Runs(logs: nat -> Log) { Consistent(logs(0)) && forall n: nat {:trigger Follows(logs, n)} :: Follows(logs, n) }

  lemma ReachedIsConsistent(p: Log, q: Log)
    requires Consistent(p) && Reached(p, q)
    ensures Consistent(q) && p.lastSeq <= q.lastSeq
  {
    var steps :| q == Run(p, steps);
    PublishProofs.EveryRunIsConsistent(p, steps);
  }

  lemma ReachedOnce(p: Log, q: Log)
    requires Consistent(p) && Reached(p, q)
    ensures Evolves(p, q)
  {
    var steps :| q == Run(p, steps);
    RunEvolves(p, steps);
  }

  lemma NextIsReached(logs: nat -> Log, n: nat)
    requires n > 0 && Runs(logs)
    ensures Reached(logs(n - 1), logs(n))
  {
    assert Follows(logs, n - 1);
  }

  lemma {:induction false} ConsistentAt(logs: nat -> Log, n: nat)
    requires Runs(logs)
    ensures Consistent(logs(n))
  {
    if n > 0 {
      ConsistentAt(logs, n - 1);
      NextIsReached(logs, n);
      ReachedIsConsistent(logs(n - 1), logs(n));
    }
  }

  lemma NextEvolves(logs: nat -> Log, n: nat)
    requires n > 0 && Runs(logs)
    ensures Evolves(logs(n - 1), logs(n))
  {
    ConsistentAt(logs, n - 1);
    NextIsReached(logs, n);
    ReachedOnce(logs(n - 1), logs(n));
  }

  lemma EvolvesSelf(p: Log)
    ensures Evolves(p, p)
  {
    forall r | r in TierProofs.Spanned(p) ensures exists was :: was in TierProofs.Spanned(p) && Stands(r, was) { assert Stands(r, r); }
  }

  lemma {:induction false} ReachedEvolves(logs: nat -> Log, i: nat, j: nat)
    requires Runs(logs) && i <= j
    ensures Evolves(logs(i), logs(j))
    decreases j
  {
    if i == j {
      EvolvesSelf(logs(i));
    } else {
      ReachedEvolves(logs, i, j - 1);
      NextEvolves(logs, j);
      EvolvesTwice(logs(i), logs(j - 1), logs(j));
    }
  }

  /** Whatever transactions run between a reader's statements, the store it sees only grows, empties rows and drops them. */
  lemma StoresGrow(logs: nat -> Log, at: nat -> Snapshot, q: Query)
    requires Runs(logs) && forall n: nat :: OnePosition(logs(n)) && at(n) == SnapshotOf(logs(n))
    requires NeverReveals(q)
    ensures Growing(at, q)
  {
    forall i: nat ensures Sane(at(i)) {
      ConsistentAt(logs, i);
      SnapshotIsSane(logs(i));
    }
    forall i: nat, j: nat | i <= j ensures LaterTo(q, at(i), at(j)) {
      ConsistentAt(logs, i);
      ConsistentAt(logs, j);
      ReachedEvolves(logs, i, j);
      EvolvedIsLater(logs(i), logs(j), q);
    }
  }
}
