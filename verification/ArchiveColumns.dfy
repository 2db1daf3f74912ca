/**
 Packing a hot row into a replay row and back, column by column: some columns stay as they are, the others go into one
 compressed JSON object.
 */
module ArchiveColumns {
  import opened Wrappers
  import opened Archive

  /** A database row or a JSON object: values by name; a name that is absent is undefined. */
  type Cells = map<string, Json>

  const COLUMNS := ["id", "seq", "event_type", "source", "subject_type", "subject_id", "visibility", "project_id", "env", "received_at", "redacted_at", "redacts"]

  const BODY := ["version", "actor", "subject_revision", "trace_id", "priority", "occurred_at", "payload", "hops", "publisher", "request_id", "size_bytes", "redacted_by"]

  function Names(list: seq<string>): set<string> { set c | c in list }

  /** The cells of some names, null where one is undefined. */
  function Filled(row: Cells, names: set<string>): Cells { map c | c in names :: if c in row then row[c] else Null }

  function Taken(row: Cells, names: set<string>): Cells { map c | c in names && c in row :: row[c] }

  /** gzip and JSON together, and what opens them. */
  datatype Codec = Codec(zip: Cells -> string, unzip: string -> Cells)

  ghost predicate Faithful(z: Codec) { forall x :: z.unzip(z.zip(x)) == x }

  /** A replay row: its columns, its compressed rest and its epoch. */
  datatype Replayed = Replayed(cells: Cells, body: string, epoch: int)

  function Moved(row: Cells, epoch: int, z: Codec): Replayed { Replayed(Taken(row, Names(COLUMNS)), z.zip(Filled(row, Names(BODY))), epoch) }

  function Unpacked(a: Replayed, z: Codec): Cells {
    (Taken(a.cells, Names(COLUMNS)) + Filled(z.unzip(a.body), Names(BODY)))["epoch" := Num(a.epoch)]
  }

  lemma FillNext(start: Cells, from: Cells, names: set<string>, c: string)
    ensures start + Filled(from, names + {c}) == (start + Filled(from, names))[c := if c in from then from[c] else Null]
  {
  }

  /** The cells of a list of names, set one by one over `start`. */
  method Fill(start: Cells, from: Cells, list: seq<string>) returns (row: Cells)
    ensures row == start + Filled(from, Names(list))
  {
    row := start;
    for i := 0 to |list|
      invariant row == start + Filled(from, Names(list[..i]))
    {
      assert Names(list[..i + 1]) == Names(list[..i]) + {list[i]};
      FillNext(start, from, Names(list[..i]), list[i]);
      row := row[list[i] := if list[i] in from then from[list[i]] else Null];
    }
    assert list[..|list|] == list;
  }

  method Copy(from: Cells, list: seq<string>) returns (row: Cells)
    ensures row == Taken(from, Names(list))
  {
    row := map[];
    for i := 0 to |list|
      invariant row == Taken(from, Names(list[..i]))
    {
      assert Names(list[..i + 1]) == Names(list[..i]) + {list[i]};
      if list[i] in from { row := row[list[i] := from[list[i]]]; }
    }
    assert list[..|list|] == list;
  }

  method Pack(row: Cells, z: Codec) returns (body: string)
    ensures body == z.zip(Filled(row, Names(BODY)))
  {
    var cells := Fill(map[], row, BODY);
    assert map[] + Filled(row, Names(BODY)) == Filled(row, Names(BODY));
    body := z.zip(cells);
  }

  method Unpack(a: Replayed, z: Codec) returns (row: Cells)
    ensures row == Unpacked(a, z)
  {
    row := Copy(a.cells, COLUMNS);
    row := Fill(row, z.unzip(a.body), BODY);
    row := row["epoch" := Num(a.epoch)];
  }

  /** The two lists share no name, so neither overwrites the other, and the epoch is a name of its own. */
  lemma ListsAreApart()
    ensures Names(COLUMNS) !! Names(BODY) && "epoch" !in Names(COLUMNS) + Names(BODY)
  {
    forall c | c in Names(COLUMNS) ensures c !in Names(BODY) && c != "epoch" {
      assert c in COLUMNS;
    }
    forall c | c in Names(BODY) ensures c != "epoch" {
      assert c in BODY;
    }
  }

  /** A moved row unpacks to exactly the hot row it was, with its epoch: every column of the two lists, and nothing else. */
  lemma UnpackUndoesMove(row: Cells, epoch: int, z: Codec)
    requires Faithful(z) && row.Keys == Names(COLUMNS) + Names(BODY)
    ensures Unpacked(Moved(row, epoch, z), z) == row["epoch" := Num(epoch)]
  {
    ListsAreApart();
    assert Filled(Filled(row, Names(BODY)), Names(BODY)) == Filled(row, Names(BODY));
  }

  /** A row that lacks columns comes back with null for its missing body columns and still without the others. */
  lemma MissingBecomesNull(row: Cells, epoch: int, z: Codec, c: string)
    requires Faithful(z) && c !in row
    ensures var back := Unpacked(Moved(row, epoch, z), z);
      (c in Names(BODY) ==> c in back && back[c] == Null) && (c in Names(COLUMNS) ==> c !in back)
  {
    ListsAreApart();
  }

  // ---------------------------------------------------------------- the rows of the event store

  /** The columns the store's proofs do not look into. */
  datatype Others = Others(version: Json, revision: Json, occurredAt: Json, publisher: Json, sizeBytes: Json)

  function TextOrNull(o: Option<string>): Json { if o.Some? then Str(o.value) else Null }

  function KeptCells(c: Columns): Cells {
    map["id" := Str(c.id), "seq" := Num(c.pos), "event_type" := Str(c.eventType), "source" := Str(c.source),
        "subject_type" := Str(c.subjectType), "subject_id" := Str(c.subjectId), "visibility" := Str(c.visibility),
        "project_id" := TextOrNull(c.projectId), "env" := Str(c.env), "received_at" := Num(c.receivedAt),
        "redacted_at" := (if c.redactedAt.Some? then Num(c.redactedAt.value) else Null), "redacts" := Bool(c.redacts)]
  }

  function BodyCells(b: Body, others: string -> Others): Cells {
    var o := others(b.other);
    map["version" := o.version, "actor" := Arr([Str(b.actor.kind), Str(b.actor.id)]), "subject_revision" := o.revision,
        "trace_id" := Str(b.traceId), "priority" := Num(b.priority), "occurred_at" := o.occurredAt, "payload" := b.payload,
        "hops" := Num(b.hops), "publisher" := o.publisher, "request_id" := TextOrNull(b.requestId), "size_bytes" := o.sizeBytes,
        "redacted_by" := TextOrNull(b.redactedBy)]
  }

  /** A stored row, column by column. */
  function CellsOf(r: Row, others: string -> Others): Cells { KeptCells(r.c) + BodyCells(r.b, others) }

  lemma NamesOfCells(r: Row, others: string -> Others)
    ensures KeptCells(r.c).Keys == Names(COLUMNS) && BodyCells(r.b, others).Keys == Names(BODY)
  {
    assert forall c | c in KeptCells(r.c) :: c in COLUMNS;
    assert forall c | c in BodyCells(r.b, others) :: c in BODY;
    assert forall c | c in COLUMNS :: c in KeptCells(r.c);
    assert forall c | c in BODY :: c in BodyCells(r.b, others);
  }

  lemma CellsSplit(r: Row, others: string -> Others)
    ensures Taken(CellsOf(r, others), Names(COLUMNS)) == KeptCells(r.c) && Filled(CellsOf(r, others), Names(BODY)) == BodyCells(r.b, others)
    ensures CellsOf(r, others).Keys == Names(COLUMNS) + Names(BODY)
  {
    NamesOfCells(r, others);
    ListsAreApart();
  }

  /** What the event store's proofs take a move and a read of a replay row to be is what packing and unpacking its columns does. */
  lemma StoreIsPacked(r: Row, others: string -> Others, z: Codec, epoch: nat, at: int)
    requires Faithful(z)
    ensures var back := Unpacked(Moved(CellsOf(r, others), epoch, z), z);
      back == CellsOf(Archive.Unpack(Store(r, epoch, at)), others)["epoch" := Num(Store(r, epoch, at).epoch)]
  {
    CellsSplit(r, others);
    UnpackUndoesMove(CellsOf(r, others), epoch, z);
  }

  /** Two rows have the same packed body exactly when their bodies are the same. */
  lemma SamePackedIff(r: Row, s: Row, others: string -> Others, z: Codec, epoch: int)
    requires Faithful(z) && (forall a, b :: others(a) == others(b) ==> a == b)
    ensures Moved(CellsOf(r, others), epoch, z).body == Moved(CellsOf(s, others), epoch, z).body <==> Archive.Pack(r) == Archive.Pack(s)
  {
    CellsSplit(r, others);
    CellsSplit(s, others);
    if Moved(CellsOf(r, others), epoch, z).body == Moved(CellsOf(s, others), epoch, z).body {
      assert z.unzip(Moved(CellsOf(r, others), epoch, z).body) == BodyCells(r.b, others);
      SameBody(r.b, s.b, others);
    }
  }

  lemma SameBody(a: Body, b: Body, others: string -> Others)
    requires BodyCells(a, others) == BodyCells(b, others) && (forall x, y :: others(x) == others(y) ==> x == y)
    ensures a == b
  {
    var m, n := BodyCells(a, others), BodyCells(b, others);
    assert m["actor"] == Arr([Str(a.actor.kind), Str(a.actor.id)]) && n["actor"] == Arr([Str(b.actor.kind), Str(b.actor.id)]);
    assert m["actor"].items[0] == Str(a.actor.kind) && m["actor"].items[1] == Str(a.actor.id);
    assert n["actor"].items[0] == Str(b.actor.kind) && n["actor"].items[1] == Str(b.actor.id);
    assert m["trace_id"] == n["trace_id"] && m["priority"] == n["priority"] && m["payload"] == n["payload"] && m["hops"] == n["hops"];
    assert m["request_id"] == n["request_id"] && m["redacted_by"] == n["redacted_by"];
    assert m["version"] == n["version"] && m["subject_revision"] == n["subject_revision"] && m["occurred_at"] == n["occurred_at"];
    assert m["publisher"] == n["publisher"] && m["size_bytes"] == n["size_bytes"];
    assert others(a.other) == others(b.other);
  }
}
