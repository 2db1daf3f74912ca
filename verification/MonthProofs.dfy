/** Exports and restores conserve rows: whatever transactions run meanwhile, database and object together hold every event. */
module MonthProofs {
  import opened Wrappers
  import opened Archive
  import opened Redaction
  import opened MonthArchive
  import Envelopes
  import EventLog
  import EventStore
  import PublishProofs
  import Retention

  /** What the table and the month's object hold together, the database copy winning. */
  function View(t: Table, lines: map<string, Line>): map<string, Line> { lines + LinesOf(t) }

  /** What transactions may have made of a row: nothing, or a tombstone of a row that was none. */
  predicate Told(a: Archived, b: Archived) {
    b == a || (a.c.redactedAt.None? && b.c.redactedAt.Some? && b.c.receivedAt == a.c.receivedAt)
  }

  /** Each exported row that is still there is as it was, or its marker tells. */
  predicate Evolves(read: Table, meanwhile: Table, ids: set<string>) {
    forall id | id in ids && id in read && id in meanwhile :: Told(read[id], meanwhile[id])
  }

  /** A row whose marker did not move is the row that was read, so its line is the one written. */
  lemma MarkerTells(read: Table, meanwhile: Table, start: int, cutoff: int, id: string)
    requires Evolves(read, meanwhile, MonthIds(read, start, cutoff))
    requires id in Unchanged(meanwhile, Found(read, start, cutoff))
    ensures ToLine(meanwhile[id]) == Found(read, start, cutoff)[id]
  {
    assert id in read && Found(read, start, cutoff)[id] == ToLine(read[id]);
    assert Told(read[id], meanwhile[id]);
  }

  /** Deleting what was exported cannot be seen in the view. */
  lemma DeleteIsInvisible(read: Table, meanwhile: Table, had: map<string, Line>, start: int, cutoff: int)
    requires Evolves(read, meanwhile, MonthIds(read, start, cutoff))
    ensures var found := Found(read, start, cutoff);
      View(Without(meanwhile, Unchanged(meanwhile, found)), had + found) == View(meanwhile, had + found)
  {
    var found := Found(read, start, cutoff);
    forall id | id in Unchanged(meanwhile, found) ensures ToLine(meanwhile[id]) == found[id] {
      MarkerTells(read, meanwhile, start, cutoff, id);
    }
  }

  lemma NothingFound(t: Table, start: int, cutoff: int)
    ensures var found := Found(t, start, cutoff); Found(Without(t, Unchanged(t, found)), start, cutoff) == map[]
  {
    var found := Found(t, start, cutoff);
    forall id | id in MonthIds(t, start, cutoff) ensures id in Unchanged(t, found) {}
  }

  /** A rerun changes nothing: it finds no rows, keeps the object's lines and deletes nothing. */
  lemma RerunChangesNothing(t: Table, had: map<string, Line>, start: int, cutoff: int)
    ensures var found := Found(t, start, cutoff);
      var after := Without(t, Unchanged(t, found));
      var again := Found(after, start, cutoff);
      had + found + again == had + found && Without(after, Unchanged(after, again)) == after
  {
    NothingFound(t, start, cutoff);
    var after := Without(t, Unchanged(t, Found(t, start, cutoff)));
    assert Unchanged(after, map[]) == {};
  }

  // ---------------------------------------------------------------- restore

  lemma RestoreIsIdempotent(t: Table, lines: map<string, Line>, hold: int, later: int)
    ensures Restored(Restored(t, lines, hold), lines, later) == Restored(t, lines, hold)
  {
  }

  /** Export and then restore: every row is back as it was, held, and rows of other months are untouched. */
  lemma RestoreUndoesExport(t: Table, had: map<string, Line>, start: int, cutoff: int, hold: int, id: string)
    requires id in t
    ensures var found := Found(t, start, cutoff);
      var back := Restored(Without(t, Unchanged(t, found)), had + found, hold);
      && id in back && ToLine(back[id]) == ToLine(t[id])
      && (if id in MonthIds(t, start, cutoff) then back[id] == t[id].(hold := Some(hold)) else back[id] == t[id])
  {
    var found := Found(t, start, cutoff);
    if id in MonthIds(t, start, cutoff) {
      assert id in Unchanged(t, found);
      assert found[id] == ToLine(t[id]);
    }
  }

  // ---------------------------------------------------------------- the store's transactions

  /** The store still has the event's row, or knows that it once accepted the id. */
  predicate Remembered(log: EventLog.Log, id: string) { EventLog.Known(log, id) || id in log.receipts }

  /** No move of the run takes the id out of the hot tier: an event published anew under it stays there. */
  predicate KeepsOne(log: EventLog.Log, steps: seq<EventLog.Step>, id: string) {
    steps == [] ||
    (var front, s := steps[..|steps| - 1], steps[|steps| - 1];
     KeepsOne(log, front, id) && (s.MoveOut? && id in s.ids ==> id !in EventLog.Run(log, front).hot))
  }

  predicate Keeps(log: EventLog.Log, steps: seq<EventLog.Step>, ids: set<string>) { forall id | id in ids :: KeepsOne(log, steps, id) }

  /** What a run leaves of the replay row `was`: it, its tombstone, or nothing; never a row published anew. */
  predicate Follows(was: Archived, log: EventLog.Log, id: string) {
    id in log.replay ==> id !in log.hot && Told(was, log.replay[id])
  }

  lemma RedactFollows(was: Archived, log: EventLog.Log, who: Columns, d: Directive, now: int, id: string)
    requires Follows(was, log, id)
    ensures Follows(was, EventLog.Rewrite(log, EventLog.Targets(log, who, d), who.id, now), id)
  {
  }

  lemma PublishFollows(was: Archived, log: EventLog.Log, e: EventLog.Envelope, ctx: EventLog.Publish, id: string)
    requires EventLog.PublishOne(log, e, ctx).Ok? && Follows(was, log, id)
    ensures Follows(was, EventLog.PublishOne(log, e, ctx).value.0, id)
  {
    if !EventLog.Known(log, e.id) && e.id !in log.receipts {
      var next := EventLog.Insert(log, e, ctx);
      assert Follows(was, next, id);
      if ParseDirective(e.payload).Redacts? {
        RedactFollows(was, next, EventLog.NewRow(log, e, ctx).c, ParseDirective(e.payload).directive, ctx.now, id);
      }
    }
  }

  lemma {:induction false} BatchFollows(was: Archived, log: EventLog.Log, items: seq<EventLog.Envelope>, ctx: EventLog.Publish, id: string)
    requires EventLog.PublishAll(log, items, ctx).Ok? && Follows(was, log, id)
    ensures Follows(was, EventLog.PublishAll(log, items, ctx).value.0, id)
  {
    if items != [] {
      BatchFollows(was, log, items[..|items| - 1], ctx, id);
      PublishFollows(was, EventLog.PublishAll(log, items[..|items| - 1], ctx).value.0, items[|items| - 1], ctx, id);
    }
  }

  lemma StepFollows(was: Archived, log: EventLog.Log, s: EventLog.Step, id: string)
    requires Follows(was, log, id) && (s.MoveOut? && id in s.ids ==> id !in log.hot)
    ensures Follows(was, EventLog.Apply(log, s), id)
  {
    match s
    case Batch(items, ctx) => if EventLog.PublishAll(log, items, ctx).Ok? { BatchFollows(was, log, items, ctx, id); }
    case Redaction(who, d, at) => RedactFollows(was, log, who, d, at, id);
    case MoveOut(_, _) =>
    case Retire(_, _, _) =>
  }

  lemma {:induction false} RunFollows(log: EventLog.Log, steps: seq<EventLog.Step>, id: string)
    requires EventLog.Consistent(log) && id in log.replay && KeepsOne(log, steps, id)
    ensures Follows(log.replay[id], EventLog.Run(log, steps), id)
  {
    if steps != [] {
      RunFollows(log, steps[..|steps| - 1], id);
      StepFollows(log.replay[id], EventLog.Run(log, steps[..|steps| - 1]), steps[|steps| - 1], id);
    }
  }

  /** Whatever batches, redactions, moves and prunes run, the exported rows stay, become tombstones or go. */
  lemma RunEvolves(log: EventLog.Log, steps: seq<EventLog.Step>, ids: set<string>)
    requires EventLog.Consistent(log) && Keeps(log, steps, ids)
    ensures Evolves(log.replay, EventLog.Run(log, steps).replay, ids)
  {
    forall id | id in ids && id in log.replay && id in EventLog.Run(log, steps).replay
      ensures Told(log.replay[id], EventLog.Run(log, steps).replay[id])
    {
      RunFollows(log, steps, id);
    }
  }

  // ---------------------------------------------------------------- runs that do so

  /** No transaction of the run takes both the row and the receipt of the event. */
  predicate RememberedThrough(log: EventLog.Log, steps: seq<EventLog.Step>, id: string) {
    steps == [] || (RememberedThrough(log, steps[..|steps| - 1], id) && Remembered(EventLog.Run(log, steps), id))
  }

  lemma PublishLeavesCold(log: EventLog.Log, e: EventLog.Envelope, ctx: EventLog.Publish, id: string)
    requires EventLog.PublishOne(log, e, ctx).Ok? && id !in log.hot && Remembered(log, id)
    ensures var after := EventLog.PublishOne(log, e, ctx).value.0; id !in after.hot && Remembered(after, id)
  {
    if !EventLog.Known(log, e.id) && e.id !in log.receipts {
      PublishProofs.PublishOneShape(log, e, ctx);
    }
  }

  lemma {:induction false} BatchLeavesCold(log: EventLog.Log, items: seq<EventLog.Envelope>, ctx: EventLog.Publish, id: string)
    requires EventLog.PublishAll(log, items, ctx).Ok? && id !in log.hot && Remembered(log, id)
    ensures var after := EventLog.PublishAll(log, items, ctx).value.0; id !in after.hot && Remembered(after, id)
  {
    if items != [] {
      BatchLeavesCold(log, items[..|items| - 1], ctx, id);
      PublishLeavesCold(EventLog.PublishAll(log, items[..|items| - 1], ctx).value.0, items[|items| - 1], ctx, id);
    }
  }

  lemma StepLeavesCold(log: EventLog.Log, s: EventLog.Step, id: string)
    requires id !in log.hot && Remembered(log, id)
    ensures id !in EventLog.Apply(log, s).hot
  {
    if s.Batch? && EventLog.PublishAll(log, s.items, s.ctx).Ok? { BatchLeavesCold(log, s.items, s.ctx, id); }
  }

  /** While its id is remembered no event is published anew under it. */
  lemma {:induction false} RememberedIsKept(log: EventLog.Log, steps: seq<EventLog.Step>, id: string)
    requires id in log.replay && id !in log.hot && RememberedThrough(log, steps, id)
    ensures KeepsOne(log, steps, id) && id !in EventLog.Run(log, steps).hot && Remembered(EventLog.Run(log, steps), id)
  {
    if steps != [] {
      RememberedIsKept(log, steps[..|steps| - 1], id);
      StepLeavesCold(EventLog.Run(log, steps[..|steps| - 1]), steps[|steps| - 1], id);
    }
  }

  /** What is published comes after `read`, and moves take only what came before it: the hot retention is longer than the run. */
  predicate MovesOlder(log: EventLog.Log, steps: seq<EventLog.Step>, read: int) {
    steps == [] ||
    (var before, s := EventLog.Run(log, steps[..|steps| - 1]), steps[|steps| - 1];
     && MovesOlder(log, steps[..|steps| - 1], read)
     && (s.Batch? ==> s.ctx.now >= read)
     && (s.MoveOut? ==> forall x | x in s.ids && x in before.hot :: before.hot[x].c.receivedAt < read))
  }

  predicate Fresh(log: EventLog.Log, read: int, id: string) { id in log.hot ==> log.hot[id].c.receivedAt >= read }

  lemma PublishLeavesFresh(log: EventLog.Log, e: EventLog.Envelope, ctx: EventLog.Publish, read: int, id: string)
    requires EventLog.PublishOne(log, e, ctx).Ok? && Fresh(log, read, id) && ctx.now >= read
    ensures Fresh(EventLog.PublishOne(log, e, ctx).value.0, read, id)
  {
    if !EventLog.Known(log, e.id) && e.id !in log.receipts {
      PublishProofs.PublishOneShape(log, e, ctx);
    }
  }

  lemma {:induction false} BatchLeavesFresh(log: EventLog.Log, items: seq<EventLog.Envelope>, ctx: EventLog.Publish, read: int, id: string)
    requires EventLog.PublishAll(log, items, ctx).Ok? && Fresh(log, read, id) && ctx.now >= read
    ensures Fresh(EventLog.PublishAll(log, items, ctx).value.0, read, id)
  {
    if items != [] {
      BatchLeavesFresh(log, items[..|items| - 1], ctx, read, id);
      PublishLeavesFresh(EventLog.PublishAll(log, items[..|items| - 1], ctx).value.0, items[|items| - 1], ctx, read, id);
    }
  }

  lemma StepLeavesFresh(log: EventLog.Log, s: EventLog.Step, read: int, id: string)
    requires Fresh(log, read, id) && (s.Batch? ==> s.ctx.now >= read)
    ensures Fresh(EventLog.Apply(log, s), read, id)
  {
    if s.Batch? && EventLog.PublishAll(log, s.items, s.ctx).Ok? { BatchLeavesFresh(log, s.items, s.ctx, read, id); }
  }

  /** Whatever is forgotten, an export shorter than the hot retention never meets a row published anew. */
  lemma {:induction false} ShortExportIsKept(log: EventLog.Log, steps: seq<EventLog.Step>, read: int, id: string)
    requires id !in log.hot && MovesOlder(log, steps, read)
    ensures KeepsOne(log, steps, id) && Fresh(EventLog.Run(log, steps), read, id)
  {
    if steps != [] {
      ShortExportIsKept(log, steps[..|steps| - 1], read, id);
      StepLeavesFresh(EventLog.Run(log, steps[..|steps| - 1]), steps[|steps| - 1], read, id);
    }
  }

  // ---------------------------------------------------------------- an export while the store runs

  /** Every row an export deletes equals its stored line, whatever transactions ran since it was read. */
  lemma DeletedAsStored(log: EventLog.Log, steps: seq<EventLog.Step>, start: int, cutoff: int, id: string)
    requires EventLog.Consistent(log) && Keeps(log, steps, MonthIds(log.replay, start, cutoff))
    requires id in Unchanged(EventLog.Run(log, steps).replay, Found(log.replay, start, cutoff))
    ensures ToLine(EventLog.Run(log, steps).replay[id]) == Found(log.replay, start, cutoff)[id]
  {
    RunEvolves(log, steps, MonthIds(log.replay, start, cutoff));
    MarkerTells(log.replay, EventLog.Run(log, steps).replay, start, cutoff, id);
  }

  /**
   A completed export conserves rows, whatever transactions run while it does: with none of its rows pruned meanwhile, database
   and object hold together exactly what they held; pruned or not, nothing they held is gone.
   */
  lemma ExportConserves(log: EventLog.Log, steps: seq<EventLog.Step>, had: map<string, Line>, start: int, cutoff: int)
    requires EventLog.Consistent(log) && Keeps(log, steps, MonthIds(log.replay, start, cutoff))
    ensures var found, meanwhile := Found(log.replay, start, cutoff), EventLog.Run(log, steps).replay;
      var after := View(Without(meanwhile, Unchanged(meanwhile, found)), had + found);
      && (found.Keys <= meanwhile.Keys ==> after == View(meanwhile, had))
      && (forall id | id in View(meanwhile, had) :: id in after && (id in meanwhile || id !in found ==> after[id] == View(meanwhile, had)[id]))
  {
    RunEvolves(log, steps, MonthIds(log.replay, start, cutoff));
    DeleteIsInvisible(log.replay, EventLog.Run(log, steps).replay, had, start, cutoff);
    ViewsAgree(EventLog.Run(log, steps).replay, had, Found(log.replay, start, cutoff));
  }

  /** Below a table's own rows, new lines show only where the table has none. */
  lemma ViewsAgree(t: Table, had: map<string, Line>, found: map<string, Line>)
    ensures found.Keys <= t.Keys ==> View(t, had + found) == View(t, had)
    ensures forall id | id in View(t, had) ::
              id in View(t, had + found) && (id in t || id !in found ==> View(t, had + found)[id] == View(t, had)[id])
  {
  }

  /** A row redacted while an export ran stays in the table, and the next export takes its tombstone. */
  lemma RerunTakesTombstones(log: EventLog.Log, steps: seq<EventLog.Step>, had: map<string, Line>, start: int, cutoff: int, id: string)
    requires EventLog.Consistent(log) && Keeps(log, steps, MonthIds(log.replay, start, cutoff))
    requires id in MonthIds(log.replay, start, cutoff)
    requires id in EventLog.Run(log, steps).replay && EventLog.Run(log, steps).replay[id] != log.replay[id]
    ensures var found, meanwhile := Found(log.replay, start, cutoff), EventLog.Run(log, steps).replay;
      var after := Without(meanwhile, Unchanged(meanwhile, found));
      var again := Found(after, start, cutoff);
      && id in after && after[id] == meanwhile[id]
      && (had + found + again)[id] == ToLine(meanwhile[id]) && id !in Without(after, Unchanged(after, again))
  {
    RunFollows(log, steps, id);
    var found, meanwhile := Found(log.replay, start, cutoff), EventLog.Run(log, steps).replay;
    assert found[id] == ToLine(log.replay[id]);
    var after := Without(meanwhile, Unchanged(meanwhile, found));
    assert id in MonthIds(after, start, cutoff);
  }

  /** A prune forgets a replay row's id exactly when the row is past the replay retention and its receipt past its own. */
  lemma PruneForgetsIff(log: EventLog.Log, moved: set<string>, p: Retention.Policy, now: int, id: string)
    requires EventLog.Consistent(log) && id in log.replay && moved <= Retention.Dropped(log, p, now).hot.Keys && (p.replay == 0 ==> moved == {})
    ensures !Remembered(Retention.Pruned(log, moved, p, now), id) <==>
              && Retention.ReplayExpired(log.replay[id], p, now)
              && (id in log.receipts ==> log.receipts[id] < now - Retention.Most(p.receipts, p.retention))
  {
    Retention.LostIff(log, moved, p, now, id);
    Retention.LastDrop(EventLog.Move(Retention.Dropped(log, p, now), moved, now), p, now, id);
  }

  /** Fields that are not those of the row that was read. */
  function OtherFields(was: Archived): map<string, Json> {
    if was.body.text.payload == Json.Obj(map[]) then map["again" := Json.Bool(true)] else map[]
  }

  lemma OthersDiffer(was: Archived)
    ensures Json.Obj(OtherFields(was)) != was.body.text.payload && "redacts" !in OtherFields(was)
  {
    if was.body.text.payload == Json.Obj(map[]) {
      assert "again" in OtherFields(was);
      assert "again"[0] != "redacts"[0];
    }
  }

  /** One validated event published under the id at `now`, and a prune's move of it at `at`, when it is past the hot retention. */
  ghost predicate PublishedAndMoved(log: EventLog.Log, more: seq<EventLog.Step>, id: string, now: int, at: int, retention: nat) {
    && |more| == 2 && more[0].Batch? && more[0].ctx.now == now && more[1] == EventLog.MoveOut({id}, at)
    && (forall e | e in more[0].items :: Envelopes.Valid(e))
    && id in EventStore.Movable(EventLog.Run(log, more[..1]).hot, at - retention, {})
  }

  lemma TwoSteps(log: EventLog.Log, x: EventLog.Step, y: EventLog.Step)
    ensures EventLog.Run(log, [x, y][..1]) == EventLog.Apply(log, x)
    ensures EventLog.Run(log, [x, y]) == EventLog.Apply(EventLog.Apply(log, x), y)
  {
    assert [x, y][..1] == [x] && [x][..0] == [];
    assert EventLog.Run(log, [x]) == EventLog.Apply(log, x);
  }

  /** A publish of one event under a limit that lets it through. */
  function Lenient(log: EventLog.Log, e: EventLog.Envelope, now: int): EventLog.Publish {
    var quiet := EventLog.Publish(None, "", now, 0, (e: EventLog.Envelope) => None);
    quiet.(maxHops := EventLog.Hops(log, e, quiet))
  }

  lemma LenientIsStored(log: EventLog.Log, e: EventLog.Envelope, now: int)
    requires !Remembered(log, e.id) && ParseDirective(e.payload).Absent?
    ensures EventLog.Apply(log, EventLog.Batch([e], Lenient(log, e, now))) == EventLog.Insert(log, e, Lenient(log, e, now))
  {
    Envelopes.PublishedAlone(log, e, Lenient(log, e, now));
  }

  lemma NewRowIsMovable(log: EventLog.Log, e: EventLog.Envelope, ctx: EventLog.Publish, cutoff: int)
    requires !EventLog.Known(log, e.id) && ctx.project.None? && ctx.now < cutoff
    ensures e.id in EventStore.Movable(EventLog.Insert(log, e, ctx).hot, cutoff, {})
  {
  }

  lemma IsPublishedAndMoved(log: EventLog.Log, e: EventLog.Envelope, ctx: EventLog.Publish, at: int, retention: nat)
    requires Envelopes.Valid(e) && e.id in EventStore.Movable(EventLog.Apply(log, EventLog.Batch([e], ctx)).hot, at - retention, {})
    ensures PublishedAndMoved(log, [EventLog.Batch([e], ctx), EventLog.MoveOut({e.id}, at)], e.id, ctx.now, at, retention)
  {
    TwoSteps(log, EventLog.Batch([e], ctx), EventLog.MoveOut({e.id}, at));
  }

  lemma StoredAndMoved(log: EventLog.Log, e: EventLog.Envelope, now: int, at: int)
    requires !Remembered(log, e.id) && ParseDirective(e.payload).Absent?
    ensures var ctx := Lenient(log, e, now);
      var after := EventLog.Run(log, [EventLog.Batch([e], ctx), EventLog.MoveOut({e.id}, at)]).replay;
      e.id in after && after[e.id] == Store(EventLog.NewRow(log, e, ctx), log.epoch, at)
  {
    var ctx := Lenient(log, e, now);
    LenientIsStored(log, e, now);
    TwoSteps(log, EventLog.Batch([e], ctx), EventLog.MoveOut({e.id}, at));
    NewRowIsMoved(log, e, ctx, at);
  }

  lemma AnotherIsStored(log: EventLog.Log, id: string, was: Archived, now: int, at: int, retention: nat) returns (more: seq<EventLog.Step>)
    requires !Remembered(log, id) && EventId(id) && now < at - retention
    ensures PublishedAndMoved(log, more, id, now, at, retention)
    ensures var after := EventLog.Run(log, more).replay;
      id in after && after[id].c.redactedAt.None? && after[id].body.text.payload != was.body.text.payload
  {
    var e := Envelopes.Plain(id, Envelopes.TRACE, "chat", "1", OtherFields(was));
    Envelopes.TraceIsValid();
    OthersDiffer(was);
    Envelopes.PlainIsValid(id, Envelopes.TRACE, "chat", "1", OtherFields(was));
    StoredAndMoved(log, e, now, at);
    LenientIsStored(log, e, now);
    NewRowIsMovable(log, e, Lenient(log, e, now), at - retention);
    IsPublishedAndMoved(log, e, Lenient(log, e, now), at, retention);
    more := [EventLog.Batch([e], Lenient(log, e, now)), EventLog.MoveOut({id}, at)];
  }

  lemma NewRowIsMoved(log: EventLog.Log, e: EventLog.Envelope, ctx: EventLog.Publish, at: int)
    requires !EventLog.Known(log, e.id)
    ensures var next := EventLog.Insert(log, e, ctx);
      var after := EventLog.Move(next, {e.id}, at).replay;
      && e.id in next.hot && next.hot[e.id] == EventLog.NewRow(log, e, ctx)
      && e.id in after && after[e.id] == Store(EventLog.NewRow(log, e, ctx), log.epoch, at)
  {
  }

  lemma {:induction false} RunsOn(log: EventLog.Log, steps: seq<EventLog.Step>, more: seq<EventLog.Step>)
    ensures EventLog.Run(log, steps + more) == EventLog.Run(EventLog.Run(log, steps), more)
  {
    if more == [] {
      assert steps + more == steps;
    } else {
      RunsOn(log, steps, more[..|more| - 1]);
      assert (steps + more)[..|steps + more| - 1] == steps + more[..|more| - 1];
    }
  }

  /**
   Why no event published anew under an exported id may be moved. Once a run took both the row and the receipt of an unredacted one, another validated
   event can be published under its id and, if the export goes on for longer than the hot retention, be moved to the replay tier with
   the marker of the stored line: the export would delete a row it never stored.
   */
  lemma ForgottenRowIsLost(log: EventLog.Log, steps: seq<EventLog.Step>, start: int, cutoff: int, id: string, now: int, at: int, retention: nat)
    returns (more: seq<EventLog.Step>)
    requires id in MonthIds(log.replay, start, cutoff) && log.replay[id].c.redactedAt.None? && EventId(id)
    requires !Remembered(EventLog.Run(log, steps), id) && now < at - retention
    ensures PublishedAndMoved(EventLog.Run(log, steps), more, id, now, at, retention)
    ensures var found, meanwhile := Found(log.replay, start, cutoff), EventLog.Run(log, steps + more).replay;
      id in Unchanged(meanwhile, found) && ToLine(meanwhile[id]) != found[id]
  {
    more := AnotherIsStored(EventLog.Run(log, steps), id, log.replay[id], now, at, retention);
    RunsOn(log, steps, more);
    assert Found(log.replay, start, cutoff)[id] == ToLine(log.replay[id]);
  }
}
