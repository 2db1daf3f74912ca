/** The realtime stream of one connection: catch-up from the store, interleaved with what publishes announce. */
module Realtime {
  import opened Wrappers
  import opened Archive
  import opened Scan
  import Cursor
  import Pull
  import Redaction

  // ---------------------------------------------------------------- who sees what

  datatype Viewer = Anonymous | User(subjectId: string) | Service

  predicate VisibleTo(viewer: Viewer, r: Row) {
    if r.c.projectId.Some? || r.c.env != "production" then false
    else if r.c.visibility == "public" || viewer.Service? then true
    else
      && r.c.visibility == "subject" && viewer.User? && viewer.subjectId != ""
      && (r.b.actor == Actor("user", viewer.subjectId) || (r.c.subjectType == "user" && r.c.subjectId == viewer.subjectId))
  }

  /** A connection's request. `window`: the first position inside the public replay window, when there is one. */
  datatype Request = Request(viewer: Viewer, topics: seq<string>, last: Option<Cursor.Position>, epoch: nat, window: Option<nat>, replayMax: nat)

  /** What the viewer asked for and may see. */
  function Seen(q: Request): Query { Query(q.topics, r => VisibleTo(q.viewer, r), q.replayMax, q.replayMax * 50) }

  /** The replay also leaves out public events from before the window. */
  function Replayed(q: Request, publicFrom: nat): Query {
    Seen(q).(accept := r => VisibleTo(q.viewer, r) && !(r.c.visibility == "public" && r.c.pos < publicFrom))
  }

  lemma StreamsNeverReveal(q: Request)
    ensures NeverReveals(Seen(q))
  {
    forall r, name, at | VisibleTo(q.viewer, Redaction.Tombstone(r, name, at)) ensures VisibleTo(q.viewer, r) {
      var t := Redaction.Tombstone(r, name, at);
      assert t.c == r.c.(redactedAt := t.c.redactedAt) && t.b.actor.kind != "user";
    }
  }

  lemma WindowGrows(at: nat -> Snapshot, q: Request, publicFrom: nat)
    requires Growing(at, Seen(q))
    ensures Growing(at, Replayed(q, publicFrom))
  {
    forall i, j | 0 <= i <= j ensures LaterTo(Replayed(q, publicFrom), at(i), at(j)) {
      assert LaterTo(Seen(q), at(i), at(j)) && Sane(at(j));
      forall k | k in at(j).rows && k <= at(i).head && Wanted(Replayed(q, publicFrom), at(j).rows[k])
        ensures Wanted(Replayed(q, publicFrom), at(i).rows[k])
      {
        assert Wanted(Seen(q), at(j).rows[k]);
      }
    }
  }

  // ---------------------------------------------------------------- the connection

  datatype Reason = Epoch | CursorAhead | Retention | PublicWindow | ReplayLimit

  datatype Message = Event(row: Row) | Gap(reason: Reason, from: nat, to: nat)

  /** `pending`: rows announced during the catch-up; none once the stream is live. */
  datatype Conn = Conn(lastSeq: nat, pending: Option<seq<Row>>, closed: bool, sent: seq<Message>)

  function Write(c: Conn, m: Message): Conn { if c.closed then c else c.(sent := c.sent + [m]) }

  function SendEvent(c: Conn, r: Row): Conn { Write(c.(lastSeq := r.c.pos), Event(r)) }

  function SendAll(c: Conn, rows: seq<Row>): Conn {
    if rows == [] then c else SendEvent(SendAll(c, rows[..|rows| - 1]), rows[|rows| - 1])
  }

  function SendGap(c: Conn, gap: Option<Message>): Conn { if gap.Some? then Write(c, gap.value) else c }

  /** publish() for one connection and one newly stored row. */
  function Hear(c: Conn, q: Request, r: Row): Conn {
    if c.closed || (c.pending.None? && r.c.pos <= c.lastSeq) || !Wanted(Seen(q), r) then c
    else if c.pending.Some? then c.(pending := Some(c.pending.value + [r]))
    else SendEvent(c, r)
  }

  function HearAll(c: Conn, q: Request, rows: seq<Row>): Conn {
    if rows == [] then c else Hear(HearAll(c, q, rows[..|rows| - 1]), q, rows[|rows| - 1])
  }

  /** The rows that waited follow the replay, skipping what is at or below its head. */
  function Flush(c: Conn, rows: seq<Row>): Conn {
    if rows == [] then c
    else
      var mid, r := Flush(c, rows[..|rows| - 1]), rows[|rows| - 1];
      if r.c.pos > mid.lastSeq then SendEvent(mid, r) else mid
  }

  function HandOver(c: Conn): Conn { if c.pending.None? then c else Flush(c.(pending := None), c.pending.value) }

  // ---------------------------------------------------------------- the catch-up

  function PosOf(q: Request): nat { if q.last.Some? then q.last.value.pos else 0 }

  predicate Stale(q: Request) { q.last.Some? && q.last.value.epoch != q.epoch }

  function FirstGap(q: Request, latest: nat, oldest: nat): Option<Message> {
    if Stale(q) then Some(Gap(Epoch, 1, Pull.Below(oldest)))
    else if PosOf(q) > latest then Some(Gap(CursorAhead, latest + 1, PosOf(q)))
    else if PosOf(q) + 1 < oldest then Some(Gap(Retention, PosOf(q) + 1, oldest - 1))
    else None
  }

  function StartAt(q: Request, latest: nat, oldest: nat): nat {
    if Stale(q) then Pull.Below(oldest)
    else if PosOf(q) > latest then latest
    else if PosOf(q) + 1 < oldest then oldest - 1
    else PosOf(q)
  }

  function PublicFrom(q: Request, latest: nat): nat {
    if q.viewer.Service? then 0 else if q.window.Some? then q.window.value else latest + 1
  }

  function WindowGap(start: nat, publicFrom: nat): Option<Message> {
    if start + 1 < publicFrom then Some(Gap(PublicWindow, start + 1, publicFrom - 1)) else None
  }

  function ScanStart(q: Request, start: nat, publicFrom: nat): nat {
    if start + 1 < publicFrom && q.viewer.Anonymous? then publicFrom - 1 else start
  }

  function LimitGap(cursor: nat, latest: nat): Option<Message> {
    if cursor < latest then Some(Gap(ReplayLimit, cursor + 1, latest)) else None
  }

  /** The replay and the end of the catch-up. */
  function Replay(c: Conn, out: Scanned, latest: nat): Conn {
    SendGap(SendAll(c, out.rows), LimitGap(out.cursor, latest)).(lastSeq := latest)
  }

  // ---------------------------------------------------------------- the object

  class Connection {
    const request: Request
    var lastSeq: nat
    var pending: Option<seq<Row>>
    var closed: bool
    var sent: seq<Message>

    constructor (q: Request)
      ensures request == q && State() == Joined(q)
    {
      request := q;
      lastSeq, pending, closed, sent := PosOf(q), Some([]), false, [];
    }

    function State(): Conn
      reads this
    {
      Conn(lastSeq, pending, closed, sent)
    }

    method Put(m: Message)
      modifies this`sent
      ensures State() == Write(old(State()), m)
    {
      if !closed { sent := sent + [m]; }
    }

    method Send(r: Row)
      modifies this`lastSeq, this`sent
      ensures State() == SendEvent(old(State()), r)
    {
      lastSeq := r.c.pos;
      Put(Event(r));
    }

    method Shut()
      modifies this`closed
      ensures State() == old(State()).(closed := true)
    {
      closed := true;
    }

    /** What a publish stored, in position order. */
    method Publish(rows: seq<Row>)
      modifies this`lastSeq, this`pending, this`sent
      ensures State() == HearAll(old(State()), request, rows)
    {
      ghost var before := State();
      for i := 0 to |rows|
        invariant State() == HearAll(before, request, rows[..i])
      {
        assert rows[..i + 1][..i] == rows[..i];
        var row := rows[i];
        if closed || (pending.None? && row.c.pos <= lastSeq) { continue; }
        if !Wanted(Seen(request), row) { continue; }
        if pending.Some? { pending := Some(pending.value + [row]); } else { Send(row); }
      }
      assert rows[..|rows|] == rows;
    }

    method StartReplay(latest: nat, oldest: nat) returns (start: nat)
      modifies this`sent
      ensures start == StartAt(request, latest, oldest)
      ensures State() == SendGap(old(State()), FirstGap(request, latest, oldest))
    {
      start := PosOf(request);
      if Stale(request) {
        Put(Gap(Epoch, 1, Pull.Below(oldest)));
        start := Pull.Below(oldest);
      } else if start > latest {
        Put(Gap(CursorAhead, latest + 1, start));
        start := latest;
      } else if start + 1 < oldest {
        Put(Gap(Retention, start + 1, oldest - 1));
        start := oldest - 1;
      }
    }

    method LimitToWindow(start: nat, publicFrom: nat) returns (from: nat)
      modifies this`sent
      ensures from == ScanStart(request, start, publicFrom)
      ensures State() == SendGap(old(State()), WindowGap(start, publicFrom))
    {
      from := start;
      if start + 1 < publicFrom {
        Put(Gap(PublicWindow, start + 1, publicFrom - 1));
        if request.viewer.Anonymous? { from := publicFrom - 1; }
      }
    }

    method SendReplay(out: Scanned, latest: nat)
      modifies this`lastSeq, this`sent
      ensures State() == Replay(old(State()), out, latest)
    {
      ghost var before := State();
      for i := 0 to |out.rows|
        invariant State() == SendAll(before, out.rows[..i])
      {
        assert out.rows[..i + 1][..i] == out.rows[..i];
        Send(out.rows[i]);
      }
      assert out.rows[..|out.rows|] == out.rows;
      if out.cursor < latest { Put(Gap(ReplayLimit, out.cursor + 1, latest)); }
      lastSeq := latest;
    }

    method GoLive()
      modifies this`lastSeq, this`pending, this`sent
      ensures State() == HandOver(old(State()))
    {
      if pending.None? { return; }
      var rows := pending.value;
      pending := None;
      ghost var before := State();
      for i := 0 to |rows|
        invariant State() == Flush(before, rows[..i])
      {
        assert rows[..i + 1][..i] == rows[..i];
        if rows[i].c.pos > lastSeq { Send(rows[i]); }
      }
      assert rows[..|rows|] == rows;
    }
  }

  function Joined(q: Request): Conn { Conn(PosOf(q), Some([]), false, []) }
}
