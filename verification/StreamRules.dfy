/** Whom a stream's events reach and what its gaps cover, in the columns of the tables, over every run of a stream. */
module StreamRules {
  import opened Wrappers
  import opened Archive
  import opened Scan
  import opened Realtime
  import opened RealtimeRun
  import opened ReadRules
  import Pull

  // ---------------------------------------------------------------- whom an event may reach

  /** The user acted in the event, or it is about that user. */
  predicate IsAbout(id: string, r: Row) {
    || (r.b.actor.kind == "user" && r.b.actor.id == id)
    || (r.c.subjectType == "user" && r.c.subjectId == id)
  }

  /** First-party production events only: public ones reach everyone, a subject's reach that user, and a service gets them all. */
  predicate MayReach(viewer: Viewer, r: Row) {
    && r.c.projectId == None && r.c.env == "production"
    && match viewer
       case Service => true
       case User(id) => r.c.visibility == "public" || (r.c.visibility == "subject" && id != "" && IsAbout(id, r))
       case Anonymous => r.c.visibility == "public"
  }

  /** One of the topics selects the event's type, and the event may reach the viewer. */
  predicate MayBeSent(q: Request, r: Row) { Chosen(q.topics, r.c.eventType) && MayReach(q.viewer, r) }

  lemma SeenIff(q: Request, r: Row)
    requires AllValid(q.topics)
    ensures Wanted(Seen(q), r) <==> MayBeSent(q, r)
  {
    WantedIff(Seen(q), r);
  }

  // ---------------------------------------------------------------- every event sent may reach the viewer

  predicate Proper(q: Request, rows: seq<Row>) { forall i | 0 <= i < |rows| :: MayBeSent(q, rows[i]) }

  predicate OnlyProper(q: Request, c: Conn) {
    && (forall i | 0 <= i < |c.sent| && c.sent[i].Event? :: MayBeSent(q, c.sent[i].row))
    && (c.pending.Some? ==> Proper(q, c.pending.value))
  }

  lemma {:induction false} SendAllIsProper(q: Request, c: Conn, rows: seq<Row>)
    requires OnlyProper(q, c) && Proper(q, rows)
    ensures OnlyProper(q, SendAll(c, rows)) && OnlyProper(q, Flush(c, rows))
  {
    if rows != [] { SendAllIsProper(q, c, rows[..|rows| - 1]); }
  }

  lemma HandOverIsProper(q: Request, c: Conn)
    requires OnlyProper(q, c)
    ensures OnlyProper(q, HandOver(c))
  {
    if c.pending.Some? { SendAllIsProper(q, c.(pending := None), c.pending.value); }
  }

  lemma ReplayIsProper(q: Request, c: Conn, out: Scanned, latest: nat)
    requires OnlyProper(q, c) && Proper(q, out.rows)
    ensures OnlyProper(q, Replay(c, out, latest))
  {
    SendAllIsProper(q, c, out.rows);
  }

  /** Whatever its statements see, a scan returns rows its query wants. */
  lemma {:induction false} ScansWanted(at: nat -> Snapshot, n: nat, q: Query, rows: seq<Row>, cursor: nat, scanned: nat)
    returns (out: Scanned)
    requires forall i | 0 <= i < |rows| :: Wanted(q, rows[i])
    ensures out == ScanFrom(at, n, q, rows, cursor, scanned)
    ensures forall i | 0 <= i < |out.rows| :: Wanted(q, out.rows[i])
    decreases q.scanMax - scanned
  {
    var page, taken := Fetch(at(n), Narrowing(q), cursor, PAGE), Taken(at(n), q, |rows|, cursor, scanned);
    var more, next, seen := rows + Select(q, taken), LastOf(taken, cursor), scanned + |taken|;
    SelectIn(q, taken);
    forall i | 0 <= i < |more| ensures Wanted(q, more[i]) {
      if i >= |rows| { assert more[i] in Select(q, taken); }
    }
    ScanUnfolds(at, n, q, rows, cursor, scanned, more, next, seen);
    if |more| < q.limit && seen < q.scanMax && |page| >= PAGE {
      out := ScansWanted(at, n + 1, q, more, next, seen);
    } else {
      out := ScanFrom(at, n, q, rows, cursor, scanned);
    }
  }

  lemma ReplayedIsSeen(q: Request, publicFrom: nat, r: Row)
    ensures Wanted(Replayed(q, publicFrom), r) <==> Wanted(Seen(q), r) && !(r.c.visibility == "public" && r.c.pos < publicFrom)
  {
    assert Topical(Replayed(q, publicFrom), r) <==> Topical(Seen(q), r);
  }

  lemma WantedIsProper(q: Request, publicFrom: nat, rows: seq<Row>)
    requires AllValid(q.topics) && forall i | 0 <= i < |rows| :: Wanted(Replayed(q, publicFrom), rows[i])
    ensures Proper(q, rows)
  {
    forall i | 0 <= i < |rows| ensures MayBeSent(q, rows[i]) {
      ReplayedIsSeen(q, publicFrom, rows[i]);
      SeenIff(q, rows[i]);
    }
  }

  lemma ReplayedIsProper(at: nat -> Snapshot, n: nat, q: Request, publicFrom: nat, from: nat)
    requires AllValid(q.topics)
    ensures Proper(q, ScanFrom(at, n, Replayed(q, publicFrom), [], from, 0).rows)
  {
    var out := ScansWanted(at, n, Replayed(q, publicFrom), [], from, 0);
    WantedIsProper(q, publicFrom, out.rows);
  }

  /** What was sent, what waits and what a scan holds for sending. */
  predicate ProperWorld(q: Request, w: World) { OnlyProper(q, w.conn) && (w.phase.Sending? ==> Proper(q, w.phase.how.out.rows)) }

  lemma NextIsProper(env: Env, q: Request, w: World)
    requires AllValid(q.topics) && ProperWorld(q, w)
    ensures ProperWorld(q, Next(env, q, w))
  {
    match w.phase
    case Joining => HandOverIsProper(q, w.conn.(lastSeq := env.at(w.time).head));
    case Reading(latest) =>
    case Checked(latest, read) => ReplayedIsProper(env.at, w.time, q, PublicFrom(q, latest), FromOf(env, q, latest, read));
    case Sending(how) =>
      ReplayIsProper(q, w.conn, how.out, how.latest);
      HandOverIsProper(q, Replay(w.conn, how.out, how.latest));
    case Live(_, _, _) =>
  }

  lemma ApplyIsProper(env: Env, q: Request, w: World, a: Action)
    requires AllValid(q.topics) && ProperWorld(q, w)
    ensures ProperWorld(q, Apply(env, q, w, a))
  {
    if a.Step? {
      NextIsProper(env, q, w);
    } else if a.Announce? {
      SeenIff(q, env.row(w.announced + 1));
    }
  }

  /**
   In every run of a stream, over any store, every event it was sent is a first-party production event one of its topics selects, and it
   is public, or the viewer is a service, or it is for its subject and the viewer is the user who acted in it or whom it is about.
   */
  lemma {:induction false} SentMayReach(env: Env, q: Request, time: nat, joined: nat, actions: seq<Action>)
    requires AllValid(q.topics)
    ensures var w := Run(env, q, Start(q, time, joined), actions);
      && ProperWorld(q, w)
      && forall r | Event(r) in w.conn.sent :: MayBeSent(q, r)
  {
    if actions != [] {
      SentMayReach(env, q, time, joined, actions[..|actions| - 1]);
      ApplyIsProper(env, q, Run(env, q, Start(q, time, joined), actions[..|actions| - 1]), actions[|actions| - 1]);
    }
  }

  // ---------------------------------------------------------------- every announced event that may is sent

  lemma InEvents(rows: seq<Row>, r: Row)
    ensures Event(r) in Events(rows) <==> r in rows
  {
    if Event(r) in Events(rows) {
      var i :| 0 <= i < |rows| && Events(rows)[i] == Event(r);
      assert rows[i] == r;
    }
    if r in rows {
      var i :| 0 <= i < |rows| && rows[i] == r;
      assert Events(rows)[i] == Event(r);
    }
  }

  /**
   Once a stream is live, an announced event above the head it read was sent after the catch-up exactly when one of its topics selects it
   and it may reach the viewer.
   */
  lemma AnnouncedIsSentIff(env: Env, q: Request, time: nat, joined: nat, actions: seq<Action>, k: nat)
    requires Sound(env, q) && AllValid(q.topics) && joined <= env.at(time).head
    requires var w := Run(env, q, Start(q, time, joined), actions); w.phase.Live? && !w.conn.closed && w.phase.latest < k <= w.announced
    ensures var w := Run(env, q, Start(q, time, joined), actions);
      w.phase.mark <= |w.conn.sent| && (Event(env.row(k)) in w.conn.sent[w.phase.mark..] <==> MayBeSent(q, env.row(k)))
  {
    EveryRunIsOk(env, q, time, joined, actions);
    var w := Run(env, q, Start(q, time, joined), actions);
    HeardIsIn(env, q, w.phase.latest, w.announced);
    SeenIff(q, env.row(k));
    InEvents(Heard(env, q, w.phase.latest, w.announced), env.row(k));
  }

  // ---------------------------------------------------------------- what the gaps cover

  predicate Covers(m: Message, reason: Reason, k: nat) { m.Gap? && m.reason == reason && m.from <= k <= m.to }

  /** A gap of that reason was sent, and the position lies in it. */
  predicate InGap(sent: seq<Message>, reason: Reason, k: nat) { exists i | 0 <= i < |sent| :: Covers(sent[i], reason, k) }

  /** Below everything stored, or up to the head read next when nothing is. */
  predicate BelowStored(s: Snapshot, t: Snapshot, k: nat) { if s.rows == map[] then k <= t.head else forall j | j in s.rows :: k < j }

  /** Before the window in which public events are replayed to a browser; without a window nothing stored is in it. */
  predicate BeforeWindow(q: Request, latest: nat, k: nat) {
    !q.viewer.Service? && match q.window case Some(first) => k < first case None => k <= latest
  }

  lemma InGapParts(a: seq<Message>, b: seq<Message>, reason: Reason, k: nat)
    ensures InGap(a + b, reason, k) <==> InGap(a, reason, k) || InGap(b, reason, k)
  {
    if i :| 0 <= i < |a| && Covers(a[i], reason, k) { assert Covers((a + b)[i], reason, k); }
    if i :| 0 <= i < |b| && Covers(b[i], reason, k) { assert Covers((a + b)[|a| + i], reason, k); }
    if i :| 0 <= i < |a + b| && Covers((a + b)[i], reason, k) {
      if i < |a| { assert Covers(a[i], reason, k); } else { assert Covers(b[i - |a|], reason, k); }
    }
  }

  lemma OneGap(m: Option<Message>, reason: Reason, k: nat)
    ensures InGap(Maybe(m), reason, k) <==> m.Some? && Covers(m.value, reason, k)
  {
    if m.Some? { assert Maybe(m)[0] == m.value; }
  }

  /** The gaps of a catch-up are its first, the window's and the limit's. */
  lemma CatchUpGaps(env: Env, q: Request, how: CatchUp, reason: Reason, k: nat)
    ensures var first := FirstGap(q, how.latest, OldestAt(env, how.read));
      var window := WindowGap(StartOf(env, q, how.latest, how.read), how.publicFrom);
      var limit := LimitGap(how.out.cursor, how.latest);
      InGap(CaughtUp(env, q, how), reason, k) <==>
        || (first.Some? && Covers(first.value, reason, k))
        || (window.Some? && Covers(window.value, reason, k))
        || (limit.Some? && Covers(limit.value, reason, k))
  {
    var first := FirstGap(q, how.latest, OldestAt(env, how.read));
    var window := WindowGap(StartOf(env, q, how.latest, how.read), how.publicFrom);
    var limit := LimitGap(how.out.cursor, how.latest);
    InGapParts(Maybe(first), Maybe(window), reason, k);
    InGapParts(Maybe(first) + Maybe(window), Events(how.out.rows), reason, k);
    InGapParts(Maybe(first) + Maybe(window) + Events(how.out.rows), Maybe(limit), reason, k);
    OneGap(first, reason, k);
    OneGap(window, reason, k);
    OneGap(limit, reason, k);
  }

  lemma OldestIsAbove(env: Env, q: Request, n: nat, k: nat)
    requires Growing(env.at, Seen(q)) && k > 0
    ensures k < OldestAt(env, n) <==> BelowStored(env.at(n), env.at(n + 1), k)
  {
    assert Sane(env.at(n));
    Pull.LeastIsFirst(env.at(n), 0);
  }

  lemma LiveGaps(sent: seq<Message>, mark: nat, rows: seq<Row>, reason: Reason, k: nat)
    requires mark <= |sent| && sent[mark..] == Events(rows)
    ensures InGap(sent, reason, k) <==> InGap(sent[..mark], reason, k)
  {
    assert sent == sent[..mark] + sent[mark..];
    InGapParts(sent[..mark], sent[mark..], reason, k);
  }

  /**
   What the gaps of a catch-up cover. Epoch: everything below the oldest stored event, exactly when the cursor is of another epoch.
   Cursor ahead: from the head to the cursor. Retention: what lies above the cursor and below the oldest stored event. Public window: what
   is left of the positions before the window. Replay limit: nothing the replay reached.
   */
  predicate Cover(env: Env, q: Request, how: CatchUp, sent: seq<Message>, k: nat)
    requires q.last.Some?
  {
    var last, lost := q.last.value, BelowStored(env.at(how.read), env.at(how.read + 1), k);
    && (InGap(sent, Epoch, k) <==> last.epoch != q.epoch && lost)
    && (InGap(sent, CursorAhead, k) <==> last.epoch == q.epoch && how.latest < k <= last.pos)
    && (InGap(sent, Retention, k) <==> last.epoch == q.epoch && last.pos <= how.latest && last.pos < k && lost)
    && (InGap(sent, PublicWindow, k) ==> BeforeWindow(q, how.latest, k))
    && (last.epoch != q.epoch || last.pos <= how.latest ==>
          (InGap(sent, PublicWindow, k) <==> (last.epoch != q.epoch || last.pos < k) && !lost && BeforeWindow(q, how.latest, k)))
    && (InGap(sent, ReplayLimit, k) ==> k <= how.latest && forall r | r in how.out.rows :: r.c.pos < k)
  }

  lemma CatchUpCovers(env: Env, q: Request, how: CatchUp, time: nat, k: nat)
    requires Sound(env, q) && Timely(env, q, how, time) && q.last.Some? && k > 0
    ensures Cover(env, q, how, CaughtUp(env, q, how), k)
  {
    OldestIsAbove(env, q, how.read, k);
    CatchUpGaps(env, q, how, Epoch, k);
    CatchUpGaps(env, q, how, CursorAhead, k);
    CatchUpGaps(env, q, how, Retention, k);
    CatchUpGaps(env, q, how, PublicWindow, k);
    CatchUpGaps(env, q, how, ReplayLimit, k);
  }

  lemma LiveCovers(env: Env, q: Request, how: CatchUp, sent: seq<Message>, mark: nat, rows: seq<Row>, k: nat)
    requires q.last.Some? && Cover(env, q, how, CaughtUp(env, q, how), k)
    requires mark <= |sent| && sent[..mark] == CaughtUp(env, q, how) && sent[mark..] == Events(rows)
    ensures Cover(env, q, how, sent, k)
  {
    LiveGaps(sent, mark, rows, Epoch, k);
    LiveGaps(sent, mark, rows, CursorAhead, k);
    LiveGaps(sent, mark, rows, Retention, k);
    LiveGaps(sent, mark, rows, PublicWindow, k);
    LiveGaps(sent, mark, rows, ReplayLimit, k);
  }

  /** The gaps of every live stream that resumed at a cursor cover exactly those positions. */
  lemma GapsCover(env: Env, q: Request, time: nat, joined: nat, actions: seq<Action>, k: nat)
    requires Sound(env, q) && joined <= env.at(time).head && k > 0
    requires var w := Run(env, q, Start(q, time, joined), actions); w.phase.Live? && !w.conn.closed && w.phase.from.Some? && q.last.Some?
    ensures var w := Run(env, q, Start(q, time, joined), actions); Cover(env, q, w.phase.from.value, w.conn.sent, k)
  {
    EveryRunIsOk(env, q, time, joined, actions);
    var w := Run(env, q, Start(q, time, joined), actions);
    CatchUpCovers(env, q, w.phase.from.value, w.time, k);
    LiveCovers(env, q, w.phase.from.value, w.conn.sent, w.phase.mark, Heard(env, q, w.phase.latest, w.announced), k);
  }

  /** The replay is in position order, above the client's position, and to a browser shows public events of the window only. */
  lemma ReplayKeepsWindow(env: Env, q: Request, time: nat, joined: nat, actions: seq<Action>, r: Row)
    requires Sound(env, q) && joined <= env.at(time).head
    requires var w := Run(env, q, Start(q, time, joined), actions); w.phase.Live? && !w.conn.closed && w.phase.from.Some? && q.last.Some?
    requires r in Run(env, q, Start(q, time, joined), actions).phase.from.value.out.rows
    ensures var w := Run(env, q, Start(q, time, joined), actions);
      && (r.c.visibility == "public" ==> !BeforeWindow(q, w.phase.latest, r.c.pos))
      && (q.last.value.epoch == q.epoch && q.last.value.pos <= w.phase.latest ==> q.last.value.pos < r.c.pos)
  {
    EveryRunIsOk(env, q, time, joined, actions);
    var how := Run(env, q, Start(q, time, joined), actions).phase.from.value;
    assert Wanted(Replayed(q, how.publicFrom), r) && FromOf(env, q, how.latest, how.read) < r.c.pos;
  }
}
