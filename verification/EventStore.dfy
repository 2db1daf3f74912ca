/**
 The store object: publish with its loop guard, fan-out and redaction, the move to the replay tier and retention, as
 methods that change its tables row by row. Each is proved equal to its function in EventLog.
 */
module EventStore {
  import opened Wrappers
  import opened Archive
  import opened Redaction
  import opened EventLog
  import PublishProofs
  import Apps
  import Deliveries

  lemma {:induction false} FirstIsFound(ids: seq<string>, bad: set<string>, i: nat)
    requires i < |ids| && ids[i] in bad && forall j | 0 <= j < i :: ids[j] !in bad
    ensures FirstOf(ids, bad) == ids[i]
  {
    if i > 0 { FirstIsFound(ids[1..], bad, i - 1); }
  }

  /** Rows of the batch kept in memory for the fan-out after the commit are the stored rows. */
  predicate InStore(hot: map<string, Row>, rows: seq<Row>) {
    forall i | 0 <= i < |rows| :: rows[i].c.id in hot && hot[rows[i].c.id] == rows[i]
  }

  /** The rows are those of the batch's new events as they are stored, by position. */
  predicate Announced(hot: map<string, Row>, rows: seq<Row>, answers: seq<Answer>) {
    InStore(hot, rows) && PositionsOf(rows) == PublishProofs.StoredAt(answers)
  }

  lemma OneMoreAnswer(answers: seq<Answer>, a: Answer)
    ensures PublishProofs.StoredAt(answers + [a]) == PublishProofs.StoredAt(answers) + (if a.Stored? then [a.pos] else [])
  {
    assert (answers + [a])[..|answers|] == answers;
  }

  function PositionsOf(rows: seq<Row>): seq<nat> { seq(|rows|, i requires 0 <= i < |rows| => rows[i].c.pos) }

  lemma RowsStayInStore(log: Log, e: Envelope, ctx: Publish, redacted: set<string>, mine: seq<Row>, rows: seq<Row>, patched: bool)
    requires InStore(log.hot, mine) && e.id !in log.hot && e.id !in redacted && |rows| == |mine|
    requires forall i | 0 <= i < |mine| ::
               rows[i] == if patched && mine[i].c.id in redacted then Tombstone(mine[i], e.id, ctx.now) else mine[i]
    ensures var next := Insert(log, e, ctx); var all := rows + [NewRow(log, e, ctx)];
      InStore(if patched then Rewrite(next, redacted, e.id, ctx.now).hot else next.hot, all)
      && PositionsOf(all) == PositionsOf(mine) + [log.lastSeq + 1]
  {
  }

  /** Hot rows old enough to move that no other transaction holds. */
  function Movable(hot: map<string, Row>, cutoff: int, locked: set<string>): set<string> {
    set id | id in hot && hot[id].c.receivedAt < cutoff && hot[id].c.env != "sandbox" && id !in locked
  }

  /** The columns of the rows still to be redacted that a subject names, over both tiers. */
  function BySubject(log: Log, who: Columns, subjectType: string, subjectId: string): set<string> {
    set id | id in log.hot.Keys + log.replay.Keys && Redactable(Lookup(log, id).value) && SameOwner(who, Lookup(log, id).value.c)
      && Lookup(log, id).value.c.subjectType == subjectType && Lookup(log, id).value.c.subjectId == subjectId
  }

  class Store {
    var hot: map<string, Row>
    var replay: map<string, Archived>
    var lastSeq: nat
    var epoch: nat
    var receipts: map<string, int>
    var queue: Deliveries.Queue
    var subscribers: map<string, Apps.Subscriber>

    constructor ()
      ensures State() == Log(map[], map[], 0, 0, map[], Deliveries.Queue(map[], map[]), map[])
    {
      hot, replay, lastSeq, epoch, receipts := map[], map[], 0, 0, map[];
      queue, subscribers := Deliveries.Queue(map[], map[]), map[];
    }

    function State(): Log
      reads this
    {
      Log(hot, replay, lastSeq, epoch, receipts, queue, subscribers)
    }

    /** The ids a directive names, refusing at the first foreign one. */
    method CollectNamed(who: Columns, d: Directive) returns (r: Result<set<string>, Refusal>)
      ensures match r
        case Ok(targets) => Foreign(State(), who, d) == {}
          && targets == set id | id in d.eventIds && Known(State(), id) && Redactable(Lookup(State(), id).value)
        case Err(f) => Foreign(State(), who, d) != {} && f == RedactionNotAllowed(who.id, FirstOf(d.eventIds, Foreign(State(), who, d)))
    {
      var targets: set<string> := {};
      for i := 0 to |d.eventIds|
        invariant forall j | 0 <= j < i :: d.eventIds[j] !in Foreign(State(), who, d)
        invariant targets == set id | id in d.eventIds[..i] && Known(State(), id) && Redactable(Lookup(State(), id).value)
      {
        var id := d.eventIds[i];
        assert d.eventIds[..i + 1] == d.eventIds[..i] + [id];
        var row := Lookup(State(), id);
        if row.Some? {
          if !SameOwner(who, row.value.c) {
            FirstIsFound(d.eventIds, Foreign(State(), who, d), i);
            return Err(RedactionNotAllowed(who.id, id));
          }
          if Redactable(row.value) { targets := targets + {id}; }
        }
      }
      assert d.eventIds[..|d.eventIds|] == d.eventIds;
      assert Foreign(State(), who, d) == {};
      r := Ok(targets);
    }

    /** The owner's rows of each subject a directive names. */
    method CollectSubjects(who: Columns, subjectType: string, subjectIds: seq<string>) returns (targets: set<string>)
      ensures targets == set id | id in hot.Keys + replay.Keys && Redactable(Lookup(State(), id).value)
        && SameOwner(who, Lookup(State(), id).value.c) && Lookup(State(), id).value.c.subjectType == subjectType
        && Lookup(State(), id).value.c.subjectId in subjectIds
    {
      targets := {};
      for i := 0 to |subjectIds|
        invariant targets == set id | id in hot.Keys + replay.Keys && Redactable(Lookup(State(), id).value)
          && SameOwner(who, Lookup(State(), id).value.c) && Lookup(State(), id).value.c.subjectType == subjectType
          && Lookup(State(), id).value.c.subjectId in subjectIds[..i]
      {
        assert subjectIds[..i + 1] == subjectIds[..i] + [subjectIds[i]];
        targets := targets + BySubject(State(), who, subjectType, subjectIds[i]);
      }
      assert subjectIds[..|subjectIds|] == subjectIds;
    }

    /** Collect what a directive names, or refuse; then rewrite row by row. */
    method ApplyRedaction(who: Columns, d: Directive, now: int) returns (r: Result<set<string>, Refusal>)
      requires Keyed(State())
      modifies this`hot, this`replay
      ensures match Redact(old(State()), who, d, now)
        case Ok(after) => State() == after && r == Ok(Targets(old(State()), who, d))
        case Err(f) => State() == old(State()) && r == Err(f)
    {
      var named := CollectNamed(who, d);
      if named.Err? { return Err(named.error); }
      var targets := named.value;
      if d.subjectType.Some? {
        var mine := CollectSubjects(who, d.subjectType.value, d.subjectIds);
        targets := targets + mine;
      }
      targets := targets - {who.id};
      assert targets == Targets(State(), who, d);
      RewriteRows(targets, who.id, now);
      r := Ok(targets);
    }

    /** Each target is rewritten in the tier it is in. */
    method RewriteRows(targets: set<string>, who: string, now: int)
      modifies this`hot, this`replay
      ensures State() == Rewrite(old(State()), targets, who, now)
    {
      var todo := targets;
      ghost var h, p := hot, replay;
      while todo != {}
        invariant todo <= targets
        invariant hot == RewriteHot(h, targets - todo, who, now)
        invariant replay == RewriteReplay(p, h.Keys, targets - todo, who, now)
        decreases todo
      {
        var id :| id in todo;
        todo := todo - {id};
        if id in hot {
          hot := hot[id := Tombstone(hot[id], who, now)];
        } else if id in replay {
          replay := replay[id := Repack(replay[id], Tombstone(Unpack(replay[id]), who, now))];
        }
      }
      assert targets - {} == targets;
    }

    /** The event row, its receipt and one delivery row for each receiver. */
    method AddRow(e: Envelope, ctx: Publish, row: Row, receivers: set<string>)
      requires row == NewRow(State(), e, ctx) && receivers == Receivers(State(), row)
      modifies this
      ensures State() == Insert(old(State()), e, ctx)
    {
      lastSeq := lastSeq + 1;
      hot := hot[e.id := row];
      receipts := receipts[e.id := ctx.now];
      queue := Deliveries.FanOut(queue, e.id, lastSeq, e.priority, ctx.keyOf(e), receivers, ctx.now);
    }

    /** Store one event that is not known yet; its deliveries and the redaction it asks for go with it. */
    method StoreNew(e: Envelope, ctx: Publish, asked: Parsed) returns (r: Result<Row, Refusal>, redacted: set<string>)
      requires Consistent(State()) && !Known(State(), e.id) && e.id !in receipts && Hops(State(), e, ctx) <= ctx.maxHops
      requires asked == ParseDirective(e.payload) && !asked.Malformed?
      modifies this
      ensures match PublishOne(old(State()), e, ctx)
        case Ok((after, answer)) => State() == after && r.Ok? && answer == Stored(e.id, r.value.c.pos, epoch)
          && State() == (if asked.Absent? then Insert(old(State()), e, ctx) else Rewrite(Insert(old(State()), e, ctx), redacted, e.id, ctx.now))
          && r.value == NewRow(old(State()), e, ctx) && e.id !in redacted
        case Err(f) => r == Err(f)
    {
      redacted := {};
      var row := NewRow(State(), e, ctx);
      ghost var before := State();
      var receivers := Receivers(State(), row);
      PublishProofs.InsertIsConsistent(before, e, ctx);
      AddRow(e, ctx, row, receivers);
      if asked.Redacts? {
        var done := ApplyRedaction(row.c, asked.directive, ctx.now);
        if done.Err? { return Err(done.error), {}; }
        redacted := done.value;
      }
      r := Ok(row);
    }

    /** Rows published earlier in the batch go out as the tombstones they now are. */
    static method Patch(rows: seq<Row>, redacted: set<string>, who: string, now: int) returns (out: seq<Row>)
      ensures |out| == |rows|
      ensures forall i | 0 <= i < |rows| :: out[i] == if rows[i].c.id in redacted then Tombstone(rows[i], who, now) else rows[i]
    {
      out := [];
      for i := 0 to |rows|
        invariant |out| == i
        invariant forall j | 0 <= j < i :: out[j] == if rows[j].c.id in redacted then Tombstone(rows[j], who, now) else rows[j]
      {
        out := out + [if rows[i].c.id in redacted then Tombstone(rows[i], who, now) else rows[i]];
      }
    }

    /** One item of a batch. `mine` are the rows the batch inserted so far. */
    method InsertOne(e: Envelope, ctx: Publish, mine: seq<Row>) returns (r: Result<Answer, Refusal>, rows: seq<Row>)
      requires Consistent(State()) && InStore(hot, mine)
      modifies this
      ensures match PublishOne(old(State()), e, ctx)
        case Ok((after, answer)) => State() == after && r == Ok(answer) && InStore(hot, rows)
          && PositionsOf(rows) == PositionsOf(mine) + (if answer.Stored? then [answer.pos] else [])
        case Err(f) => r == Err(f)
    {
      rows := mine;
      var existing := Lookup(State(), e.id);
      if existing.Some? {
        if existing.value.c.source != e.source || existing.value.c.eventType != e.eventType { return Err(IdConflict(e.id)), mine; }
        return Ok(Duplicate(e.id, existing.value.c.pos, if e.id in hot then epoch else replay[e.id].epoch)), mine;
      }
      if e.id in receipts { return Ok(Pruned(e.id)), mine; }
      if Hops(State(), e, ctx) > ctx.maxHops { return Err(LoopDetected(e.id)), mine; }
      var asked := ParseDirective(e.payload);
      if asked.Malformed? { return Err(InvalidRedaction(e.id, asked.fault)), mine; }
      ghost var before := State();
      var stored, redacted := StoreNew(e, ctx, asked);
      if stored.Err? { return Err(stored.error), mine; }
      if asked.Redacts? { rows := Patch(mine, redacted, e.id, ctx.now); }
      RowsStayInStore(before, e, ctx, redacted, mine, rows, asked.Redacts?);
      rows := rows + [stored.value];
      r := Ok(Stored(e.id, stored.value.c.pos, epoch));
    }

    /** A batch is stored as a whole, or refused and the tables are as before. */
    method InsertBatch(items: seq<Envelope>, ctx: Publish) returns (r: Result<seq<Answer>, Refusal>, inserted: seq<Row>)
      requires Consistent(State())
      modifies this
      ensures Consistent(State())
      ensures match PublishAll(old(State()), items, ctx)
        case Ok((after, answers)) => State() == after && r == Ok(answers)
          && Announced(hot, inserted, answers)
        case Err(f) => State() == old(State()) && r == Err(f) && inserted == []
    {
      var start := State();
      var answers: seq<Answer> := [];
      inserted := [];
      for i := 0 to |items|
        invariant PublishAll(start, items[..i], ctx) == Ok((State(), answers))
        invariant Consistent(State()) && Announced(hot, inserted, answers)
      {
        assert items[..i + 1][..i] == items[..i];
        var one;
        if PublishOne(State(), items[i], ctx).Ok? { PublishProofs.PublishOneIsConsistent(State(), items[i], ctx); }
        one, inserted := InsertOne(items[i], ctx, inserted);
        if one.Err? {
          RefusedAt(start, items, i, ctx);
          Rollback(start);
          return Err(one.error), [];
        }
        OneMoreAnswer(answers, one.value);
        answers := answers + [one.value];
      }
      assert items[..|items|] == items;
      r := Ok(answers);
    }

    /** The transaction's rows as they were. */
    method Rollback(start: Log)
      modifies this
      ensures State() == start
    {
      hot, replay, lastSeq, epoch, receipts, queue, subscribers :=
        start.hot, start.replay, start.lastSeq, start.epoch, start.receipts, start.queue, start.subscribers;
    }

    /** Rows deleted from either tier, and receipts from theirs; deliveries go with their hot row. */
    method Delete(hotGone: set<string>, replayGone: set<string>, receiptsGone: set<string>)
      modifies this
      ensures State() == Drop(old(State()), hotGone, replayGone, receiptsGone)
    {
      queue := Deliveries.Forget(queue, hotGone * hot.Keys);
      hot, replay, receipts := Without(hot, hotGone), Without(replay, replayGone), Without(receipts, receiptsGone);
    }

    /** Up to `limit` of the oldest positions received before `cutoff`, skipping rows another transaction holds. */
    method MoveBatch(cutoff: int, limit: nat, locked: set<string>, now: int) returns (moved: set<string>)
      modifies this`hot, this`replay, this`queue
      ensures State() == Move(old(State()), moved, now)
      ensures moved <= Movable(old(hot), cutoff, locked) && |moved| <= limit
      ensures |moved| < limit ==> moved == Movable(old(hot), cutoff, locked)
      ensures forall a, b | a in moved && b in Movable(old(hot), cutoff, locked) - moved :: old(hot)[a].c.pos <= old(hot)[b].c.pos
      ensures forall id | id in moved :: id in old(hot) && id !in locked && OfAge(old(hot)[id].c, cutoff)
      ensures forall id | id in old(hot) && id !in moved && id !in locked && OfAge(old(hot)[id].c, cutoff) ::
                |moved| == limit && forall a | a in moved :: old(hot)[a].c.pos <= old(hot)[id].c.pos
    {
      moved := Oldest(hot, cutoff, limit, locked);
      MovableIff(hot, cutoff, locked);
      replay := WithArchived(replay, hot, moved, epoch, now);
      queue := Deliveries.Forget(queue, moved * hot.Keys);
      hot := Without(hot, moved);
    }
  }

  /** What may enter the replay tier, in the row's columns. */
  predicate OfAge(c: Columns, cutoff: int) { c.receivedAt < cutoff && c.env != "sandbox" }

  lemma MovableIff(hot: map<string, Row>, cutoff: int, locked: set<string>)
    ensures forall id :: id in Movable(hot, cutoff, locked) <==> id in hot && id !in locked && OfAge(hot[id].c, cutoff)
  {
  }

  /** SELECT … ORDER BY seq LIMIT … FOR UPDATE SKIP LOCKED. */
  method Oldest(hot: map<string, Row>, cutoff: int, limit: nat, locked: set<string>) returns (moved: set<string>)
    ensures moved <= Movable(hot, cutoff, locked) && |moved| <= limit
    ensures |moved| < limit ==> moved == Movable(hot, cutoff, locked)
    ensures forall a, b | a in moved && b in Movable(hot, cutoff, locked) - moved :: hot[a].c.pos <= hot[b].c.pos
  {
    moved := {};
    var rest := Movable(hot, cutoff, locked);
    while |moved| < limit && rest != {}
      invariant moved !! rest && moved + rest == Movable(hot, cutoff, locked) && |moved| <= limit
      invariant forall a, b | a in moved && b in rest :: hot[a].c.pos <= hot[b].c.pos
      decreases rest
    {
      var first := Lowest(hot, rest);
      moved, rest := moved + {first}, rest - {first};
    }
    assert Movable(hot, cutoff, locked) - moved <= rest;
  }

  /** The lowest position of a set of hot rows. */
  method Lowest(hot: map<string, Row>, ids: set<string>) returns (r: string)
    requires ids != {} && ids <= hot.Keys
    ensures r in ids && forall id | id in ids :: hot[r].c.pos <= hot[id].c.pos
  {
    r :| r in ids;
    var todo := ids - {r};
    while todo != {}
      invariant todo <= ids && r in ids
      invariant forall id | id in ids && id !in todo :: hot[r].c.pos <= hot[id].c.pos
      decreases todo
    {
      var id :| id in todo;
      todo := todo - {id};
      if hot[id].c.pos < hot[r].c.pos { r := id; }
    }
  }

  /** A batch is refused with its first refused item's reason. */
  lemma {:induction false} RefusedAt(log: Log, items: seq<Envelope>, i: nat, ctx: Publish)
    requires i < |items| && PublishAll(log, items[..i], ctx).Ok?
    requires PublishOne(PublishAll(log, items[..i], ctx).value.0, items[i], ctx).Err?
    ensures PublishAll(log, items, ctx) == Err(PublishOne(PublishAll(log, items[..i], ctx).value.0, items[i], ctx).error)
  {
    var front := items[..|items| - 1];
    if i < |items| - 1 {
      assert front[..i] == items[..i];
      RefusedAt(log, front, i, ctx);
    }
  }
}
