/** An event's row in the hot tier and in the replay tier. */
module Archive {
  import opened Wrappers

  /** Parsed JSON. A date's ISO text is kept as its milliseconds. */
  datatype Json = Null | Bool(b: bool) | Num(n: int) | Str(s: string) | Time(ms: int) | Arr(items: seq<Json>) | Obj(fields: map<string, Json>)

  datatype Actor = Actor(kind: string, id: string)

  /** The columns both tiers keep as they are. `pos` is the event's seq. */
  datatype Columns = Columns(
    id: string,
    pos: nat,
    eventType: string,
    source: string,
    subjectType: string,
    subjectId: string,
    visibility: string,
    projectId: Option<string>,
    env: string,
    receivedAt: int,
    redactedAt: Option<int>,
    redacts: bool)

  /** The columns a replay row keeps in its compressed body. `other`: version, revision, occurred_at, publisher, size_bytes. */
  datatype Body = Body(
    actor: Actor,
    traceId: string,
    priority: nat,
    payload: Json,
    hops: nat,
    requestId: Option<string>,
    redactedBy: Option<string>,
    other: string)

  datatype Row = Row(c: Columns, b: Body)

  /** gzip of a JSON text: an opaque value only `Gunzip` opens. */
  datatype Packed = Gzip(text: Body)

  /** A replay row; `hold`: an operator's restore keeps it until then. */
  datatype Archived = Archived(c: Columns, body: Packed, epoch: nat, archivedAt: int, hold: Option<int>)

  function Pack(r: Row): Packed { Gzip(r.b) }

  function Unpack(a: Archived): Row { Row(a.c, a.body.text) }

  function Store(r: Row, epoch: nat, at: int): Archived { Archived(r.c, Pack(r), epoch, at, None) }

  /** UPDATE of the body and the redaction marker. */
  function Repack(a: Archived, r: Row): Archived { a.(c := r.c, body := Pack(r)) }
}
