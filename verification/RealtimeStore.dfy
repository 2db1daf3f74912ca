/**
 The realtime stream over the event store: runs of the store's transactions give the stream's proofs the reads and the announced rows
 they ask for.
 */
module RealtimeStore {
  import opened Archive
  import opened EventLog
  import opened Scan
  import opened StoreReads
  import opened Realtime
  import EventStore
  import RepeatProofs
  import RealtimeRun

  /** `mid` is the log right after the transaction, before statement n and not before statement n - 1, that handed out k. */
  ghost predicate Handed(logs: nat -> Log, k: nat, r: Row, n: nat, mid: Log) {
    && Consistent(mid) && Reached(mid, logs(n)) && r in TierProofs.Spanned(mid) && r.c.pos == k
    && (n > 0 ==> Reached(logs(n - 1), mid) && logs(n - 1).lastSeq < k)
  }

  /** Row `r` is the row of position k as the transaction that committed it left it. */
  ghost predicate Committed(logs: nat -> Log, k: nat, r: Row) { exists n: nat, mid :: Handed(logs, k, r, n, mid) }

  /** What is announced under a position a statement can see is its committed row. */
  ghost predicate Announces(logs: nat -> Log, row: nat -> Row) {
    forall k: nat ::
      row(k).c.pos == k &&
      ((exists n: nat :: OnePosition(logs(n)) && k in SnapshotOf(logs(n)).rows) ==> Committed(logs, k, row(k)))
  }

  /** The rows of a batch are stored, above all that was stored before. */
  lemma BatchIsStored(pre: Log, items: seq<Envelope>, ctx: Publish, rows: seq<Row>, i: int)
    requires Consistent(pre) && PublishAll(pre, items, ctx).Ok? && 0 <= i < |rows|
    requires EventStore.Announced(PublishAll(pre, items, ctx).value.0.hot, rows, PublishAll(pre, items, ctx).value.1)
    ensures var mid := PublishAll(pre, items, ctx).value.0;
      Consistent(mid) && rows[i] in TierProofs.Spanned(mid) && pre.lastSeq < rows[i].c.pos
  {
    var (mid, answers) := PublishAll(pre, items, ctx).value;
    PublishProofs.PublishAllIsConsistent(pre, items, ctx);
    RepeatProofs.BatchRises(pre, items, ctx);
    assert EventStore.PositionsOf(rows)[i] == rows[i].c.pos;
    assert mid.hot[rows[i].c.id] in TierProofs.Spanned(mid);
  }

  lemma HandsOut(logs: nat -> Log, k: nat, r: Row, n: nat, mid: Log)
    requires Consistent(mid) && Reached(logs(n), mid) && Reached(mid, logs(n + 1))
    requires r in TierProofs.Spanned(mid) && r.c.pos == k && logs(n).lastSeq < k
    ensures Committed(logs, k, r)
  {
    assert Handed(logs, k, r, n + 1, mid);
  }

  /** The rows a batch keeps in memory, and announces after its commit, are the committed rows of the positions it handed out. */
  lemma BatchAnnounces(logs: nat -> Log, n: nat, pre: Log, items: seq<Envelope>, ctx: Publish, rows: seq<Row>, i: int)
    requires Consistent(logs(n)) && Reached(logs(n), pre)
    requires PublishAll(pre, items, ctx).Ok? && Reached(PublishAll(pre, items, ctx).value.0, logs(n + 1))
    requires EventStore.Announced(PublishAll(pre, items, ctx).value.0.hot, rows, PublishAll(pre, items, ctx).value.1)
    requires 0 <= i < |rows|
    ensures Committed(logs, rows[i].c.pos, rows[i])
  {
    ReachedIsConsistent(logs(n), pre);
    BatchIsStored(pre, items, ctx, rows, i);
    RunsOn(logs(n), pre, items, ctx);
    HandsOut(logs, rows[i].c.pos, rows[i], n, PublishAll(pre, items, ctx).value.0);
  }

  lemma RunsOn(log: Log, pre: Log, items: seq<Envelope>, ctx: Publish)
    requires Reached(log, pre) && PublishAll(pre, items, ctx).Ok?
    ensures Reached(log, PublishAll(pre, items, ctx).value.0)
  {
    var steps :| pre == Run(log, steps);
    var batch := Batch(items, ctx);
    assert (steps + [batch])[..|steps|] == steps;
    assert Run(log, steps + [batch]) == Apply(pre, batch);
  }

  lemma OneAtPosition(log: Log, r: Row, s: Row)
    requires Consistent(log) && r in TierProofs.Spanned(log) && s in TierProofs.Spanned(log) && r.c.pos == s.c.pos
    ensures r == s && r.c.pos <= log.lastSeq
  {
    SnapshotIsSane(log);
  }

  lemma SeenIsSpanned(log: Log, k: nat)
    requires Consistent(log) && k in SnapshotOf(log).rows
    ensures SnapshotOf(log).rows[k] in TierProofs.Spanned(log) && SnapshotOf(log).rows[k].c.pos == k
  {
    SnapshotIsSane(log);
  }

  lemma SpannedStands(mid: Log, q: Log, now: Row) returns (was: Row)
    requires Evolves(mid, q) && now in TierProofs.Spanned(q) && now.c.pos <= mid.lastSeq
    ensures was in TierProofs.Spanned(mid) && Stands(now, was) && was.c.pos == now.c.pos
  {
    was :| was in TierProofs.Spanned(mid) && Stands(now, was);
  }

  lemma StandsAs(mid: Log, q: Log, k: nat, r: Row)
    requires Consistent(mid) && Consistent(q) && Evolves(mid, q) && r in TierProofs.Spanned(mid) && r.c.pos == k
    requires k in SnapshotOf(q).rows
    ensures Stands(SnapshotOf(q).rows[k], r)
  {
    SeenIsSpanned(q, k);
    OneAtPosition(mid, r, r);
    var was := SpannedStands(mid, q, SnapshotOf(q).rows[k]);
    OneAtPosition(mid, r, was);
  }

  lemma SeenIsHandedOut(logs: nat -> Log, n: nat, k: nat)
    requires Runs(logs) && OnePosition(logs(n)) && k in SnapshotOf(logs(n)).rows
    ensures k <= logs(n).lastSeq
  {
    ConsistentAt(logs, n);
    SnapshotIsSane(logs(n));
  }

  lemma SequencesRise(logs: nat -> Log, i: nat, j: nat)
    requires Runs(logs) && i <= j
    ensures logs(i).lastSeq <= logs(j).lastSeq
  {
    ReachedEvolves(logs, i, j);
  }

  /** No statement before the commit sees the position. */
  lemma SeenAfter(logs: nat -> Log, n: nat, m: nat, k: nat)
    requires Runs(logs) && OnePosition(logs(n)) && k in SnapshotOf(logs(n)).rows && (m > 0 ==> logs(m - 1).lastSeq < k)
    ensures m <= n
  {
    SeenIsHandedOut(logs, n, k);
    if n < m { SequencesRise(logs, n, m - 1); }
  }

  lemma EvolvesFrom(logs: nat -> Log, mid: Log, m: nat, n: nat)
    requires Runs(logs) && Consistent(mid) && Reached(mid, logs(m)) && m <= n
    ensures Consistent(logs(n)) && Evolves(mid, logs(n))
  {
    ReachedOnce(mid, logs(m));
    ConsistentAt(logs, n);
    ReachedEvolves(logs, m, n);
    EvolvesTwice(mid, logs(m), logs(n));
  }

  /** A stored row of a committed position is the committed row or its tombstone. */
  lemma StandsAsCommitted(logs: nat -> Log, n: nat, k: nat, r: Row)
    requires Runs(logs) && Committed(logs, k, r) && OnePosition(logs(n)) && k in SnapshotOf(logs(n)).rows
    ensures Stands(SnapshotOf(logs(n)).rows[k], r)
  {
    var m: nat, mid :| Handed(logs, k, r, m, mid);
    SeenAfter(logs, n, m, k);
    EvolvesFrom(logs, mid, m, n);
    StandsAs(mid, logs(n), k, r);
  }

  /** Runs of the store give the stream what its theorems ask: reads that only grow, and rows announced as they were committed. */
  lemma StoreIsSound(logs: nat -> Log, at: nat -> Snapshot, row: nat -> Row, q: Request)
    requires Runs(logs) && Announces(logs, row) && forall n: nat :: OnePosition(logs(n)) && at(n) == SnapshotOf(logs(n))
    ensures RealtimeRun.Sound(RealtimeRun.Env(at, row), q)
  {
    var env := RealtimeRun.Env(at, row);
    StreamsNeverReveal(q);
    StoresGrow(logs, at, Seen(q));
    forall n: nat, k: nat ensures RealtimeRun.AsAnnounced(env, q, n, k) {
      if k in at(n).rows {
        assert OnePosition(logs(n)) && k in SnapshotOf(logs(n)).rows;
        StandsAsCommitted(logs, n, k, row(k));
        StandingShows(at(n).rows[k], row(k), Seen(q));
      }
    }
  }

  /**
   Over every run of the store's transactions, whatever of the stream interleaves with them: once a stream is live, every event
   above the client's position that is stored, that its topics match and that the viewer may see was sent or lies in a sent gap.
   */
  lemma StreamsLoseNothing(logs: nat -> Log, env: RealtimeRun.Env, q: Request, time: nat, joined: nat, actions: seq<RealtimeRun.Action>, k: nat)
    requires Runs(logs) && Announces(logs, env.row) && forall n: nat :: OnePosition(logs(n)) && env.at(n) == SnapshotOf(logs(n))
    requires joined <= env.at(time).head
    requires var w := RealtimeRun.Run(env, q, RealtimeRun.Start(q, time, joined), actions);
      && w.phase.Live? && !w.conn.closed && k in env.at(w.time).rows && Wanted(Seen(q), env.at(w.time).rows[k])
      && RealtimeRun.Floor(q, w.phase.latest) < k && (k <= w.phase.latest || k <= w.announced)
    ensures RealtimeRun.Told(RealtimeRun.Run(env, q, RealtimeRun.Start(q, time, joined), actions).conn.sent, k)
  {
    StoreIsSound(logs, env.at, env.row, q);
    RealtimeRun.NothingIsLostSilently(env, q, time, joined, actions, k);
  }
}
