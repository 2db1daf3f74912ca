/** Moving events to the replay tier cannot be seen: not by id, not in a scan, not by a redaction. */
module TierProofs {
  import opened Wrappers
  import opened Archive
  import opened Redaction
  import opened EventLog
  import PublishProofs

  /** Rows of both tiers a scan spans: hot, and replay of the current epoch. */
  function Spanned(log: Log): set<Row> {
    (set id | id in log.hot :: log.hot[id]) + (set id | id in log.replay && log.replay[id].epoch == log.epoch :: Unpack(log.replay[id]))
  }

  /** The merged log, by position. */
  function Timeline(log: Log): map<nat, Row>
    requires OnePosition(log)
  {
    map r | r in Spanned(log) :: r.c.pos := r
  }

  lemma MoveLosesNone(log: Log, ids: set<string>, at: int)
    requires log.hot.Keys !! log.replay.Keys
    ensures Spanned(log) <= Spanned(Move(log, ids, at))
  {
    var after := Move(log, ids, at);
    forall r | r in Spanned(log) ensures r in Spanned(after) {
      if id :| id in log.hot && log.hot[id] == r {
        if id in ids { assert Unpack(after.replay[id]) == r; } else { assert after.hot[id] == r; }
      } else {
        var id :| id in log.replay && log.replay[id].epoch == log.epoch && Unpack(log.replay[id]) == r;
        assert after.replay[id] == log.replay[id];
      }
    }
  }

  lemma MoveAddsNone(log: Log, ids: set<string>, at: int)
    ensures Spanned(Move(log, ids, at)) <= Spanned(log)
  {
    var after := Move(log, ids, at);
    forall r | r in Spanned(after) ensures r in Spanned(log) {
      if id :| id in after.hot && after.hot[id] == r {
        assert log.hot[id] == r;
      } else {
        var id :| id in after.replay && after.replay[id].epoch == after.epoch && Unpack(after.replay[id]) == r;
        if id in log.replay { assert Unpack(log.replay[id]) == r; } else { assert log.hot[id] == r; }
      }
    }
  }

  lemma MoveKeepsSpan(log: Log, ids: set<string>, at: int)
    requires Consistent(log)
    ensures Spanned(Move(log, ids, at)) == Spanned(log)
  {
    MoveLosesNone(log, ids, at);
    MoveAddsNone(log, ids, at);
  }

  /** The move changes no read: the same timeline, and the same row under every id. */
  lemma MoveIsInvisible(log: Log, ids: set<string>, at: int)
    requires Consistent(log)
    ensures Consistent(Move(log, ids, at)) && Timeline(Move(log, ids, at)) == Timeline(log)
    ensures forall id :: Lookup(Move(log, ids, at), id) == Lookup(log, id)
  {
    PublishProofs.MoveIsConsistent(log, ids, at);
    MoveKeepsSpan(log, ids, at);
  }

  lemma WithoutTwice<T>(m: map<string, T>, a: set<string>, b: set<string>)
    ensures Without(Without(m, a), b) == Without(m, a + b)
  {
  }

  lemma ArchivedTwice(replay: map<string, Archived>, hot: map<string, Row>, a: set<string>, b: set<string>, epoch: nat, at: int)
    ensures WithArchived(WithArchived(replay, hot, a, epoch, at), Without(hot, a), b, epoch, at) == WithArchived(replay, hot, a + b, epoch, at)
  {
  }

  lemma ForgottenTwice(q: Deliveries.Queue, a: set<string>, b: set<string>)
    ensures Deliveries.Forget(Deliveries.Forget(q, a), b) == Deliveries.Forget(q, a + b)
  {
    assert Deliveries.Forget(Deliveries.Forget(q, a), b).rows == Deliveries.Forget(q, a + b).rows;
  }

  /** Moves made at one time, in any order or at once, add up. */
  lemma MovesAdd(log: Log, a: set<string>, b: set<string>, at: int)
    ensures Move(Move(log, a, at), b, at) == Move(log, a + b, at)
  {
    WithoutTwice(log.hot, a, b);
    ArchivedTwice(log.replay, log.hot, a, b, log.epoch, at);
    ForgottenTwice(log.queue, a * log.hot.Keys, b * Without(log.hot, a).Keys);
    assert a * log.hot.Keys + b * Without(log.hot, a).Keys == (a + b) * log.hot.Keys;
  }

  /** The replay rows of `ids` with another archived_at. */
  function Restamped(replay: map<string, Archived>, ids: set<string>, at: int): map<string, Archived> {
    map id | id in replay :: if id in ids then replay[id].(archivedAt := at) else replay[id]
  }

  /** A move at another time is the same move, but for the archived_at of the rows it took. */
  lemma MovedLater(log: Log, ids: set<string>, at: int, later: int)
    ensures Move(log, ids, later)
         == Move(log, ids, at).(replay := Restamped(Move(log, ids, at).replay, ids * log.hot.Keys - log.replay.Keys, later))
  {
    assert Move(log, ids, later).replay == Restamped(Move(log, ids, at).replay, ids * log.hot.Keys - log.replay.Keys, later);
  }

  /**
   Moves of any batches at any times add up: one after the other they leave what one move of all leaves, but that the rows of the
   second have its time.
   */
  lemma MovesCombine(log: Log, a: set<string>, b: set<string>, at: int, later: int)
    ensures Move(Move(log, a, at), b, later)
         == Move(log, a + b, at).(replay := Restamped(Move(log, a + b, at).replay, (b - a) * log.hot.Keys - log.replay.Keys, later))
  {
    var mid := Move(log, a, at);
    MovesAdd(log, a, b, at);
    MovedLater(mid, b, at, later);
    assert b * mid.hot.Keys - mid.replay.Keys == (b - a) * log.hot.Keys - log.replay.Keys;
  }

  lemma RewriteWithout(hot: map<string, Row>, ids: set<string>, targets: set<string>, who: string, now: int)
    ensures RewriteHot(Without(hot, ids), targets, who, now) == Without(RewriteHot(hot, targets, who, now), ids)
  {
  }

  /** Packing a tombstone is packing the row and then making the packed row a tombstone. */
  lemma RewriteArchived(replay: map<string, Archived>, hot: map<string, Row>, ids: set<string>, targets: set<string>, who: string, now: int, epoch: nat, at: int)
    requires hot.Keys !! replay.Keys
    ensures RewriteReplay(WithArchived(replay, hot, ids, epoch, at), Without(hot, ids).Keys, targets, who, now)
         == WithArchived(RewriteReplay(replay, hot.Keys, targets, who, now), RewriteHot(hot, targets, who, now), ids, epoch, at)
  {
    var one := RewriteReplay(WithArchived(replay, hot, ids, epoch, at), Without(hot, ids).Keys, targets, who, now);
    var two := WithArchived(RewriteReplay(replay, hot.Keys, targets, who, now), RewriteHot(hot, targets, who, now), ids, epoch, at);
    assert one.Keys == two.Keys;
    forall id | id in one ensures one[id] == two[id] {
      if id in replay { assert id !in hot; }
    }
  }

  /** What a directive reaches depends on the rows by id, not on their tier. */
  lemma SameTargets(p: Log, q: Log, who: Columns, d: Directive)
    requires p.hot.Keys + p.replay.Keys == q.hot.Keys + q.replay.Keys
    requires forall id :: Lookup(p, id) == Lookup(q, id)
    ensures Targets(p, who, d) == Targets(q, who, d)
  {
  }

  lemma SameForeign(p: Log, q: Log, who: Columns, d: Directive)
    requires forall id :: Lookup(p, id) == Lookup(q, id) && Known(p, id) == Known(q, id)
    ensures Foreign(p, who, d) == Foreign(q, who, d)
  {
  }

  lemma MoveKeepsIds(log: Log, ids: set<string>, at: int)
    ensures var moved := Move(log, ids, at);
      && moved.hot.Keys + moved.replay.Keys == log.hot.Keys + log.replay.Keys
      && forall id :: Known(moved, id) == Known(log, id)
  {
  }

  lemma MoveKeepsTargets(log: Log, ids: set<string>, who: Columns, d: Directive, at: int)
    requires Consistent(log)
    ensures Targets(Move(log, ids, at), who, d) == Targets(log, who, d) && Foreign(Move(log, ids, at), who, d) == Foreign(log, who, d)
  {
    MoveIsInvisible(log, ids, at);
    MoveKeepsIds(log, ids, at);
    SameTargets(Move(log, ids, at), log, who, d);
    SameForeign(Move(log, ids, at), log, who, d);
  }

  /** A redaction and a move may come in either order. */
  lemma RedactionCommutesWithMove(log: Log, ids: set<string>, who: Columns, d: Directive, now: int, at: int)
    requires Consistent(log)
    ensures match Redact(log, who, d, now)
      case Err(f) => Redact(Move(log, ids, at), who, d, now) == Err(f)
      case Ok(after) => Redact(Move(log, ids, at), who, d, now) == Ok(Move(after, ids, at))
  {
    MoveKeepsTargets(log, ids, who, d, at);
    var t := Targets(log, who, d);
    RewriteWithout(log.hot, ids, t, who.id, now);
    RewriteArchived(log.replay, log.hot, ids, t, who.id, now, log.epoch, at);
    assert RewriteHot(log.hot, t, who.id, now).Keys == log.hot.Keys;
    assert Rewrite(Move(log, ids, at), t, who.id, now) == Move(Rewrite(log, t, who.id, now), ids, at);
  }
}
