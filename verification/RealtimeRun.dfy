/** Whole runs of one stream: commits, announcements and the handler's steps in any order. */
module RealtimeRun {
  import opened Wrappers
  import opened Archive
  import opened Scan
  import opened Realtime
  import Cursor
  import Pull
  import Topics

  /** The store as its statements see it, and each committed row as it was announced. */
  datatype Env = Env(at: nat -> Snapshot, row: nat -> Row)

  ghost predicate Sound(env: Env, q: Request) {
    && Growing(env.at, Seen(q))
    && (forall k: nat :: env.row(k).c.pos == k)
    && forall n: nat, k: nat {:trigger AsAnnounced(env, q, n, k)} :: AsAnnounced(env, q, n, k)
  }

  /** What a viewer may see of a stored row, it may see of the row as it was announced. */
  predicate AsAnnounced(env: Env, q: Request, n: nat, k: nat) {
    k in env.at(n).rows && Wanted(Seen(q), env.at(n).rows[k]) ==> Wanted(Seen(q), env.row(k))
  }

  /** What a catch-up read: the head, the statement that read the oldest position, the window, and what the scan returned. */
  datatype CatchUp = CatchUp(latest: nat, read: nat, publicFrom: nat, out: Scanned)

  /** Where the handler is; between two phases anything may happen. `mark`: how much was sent before the stream was live. */
  datatype Phase =
    | Joining
    | Reading(latest: nat)
    | Checked(latest: nat, read: nat)
    | Sending(how: CatchUp)
    | Live(latest: nat, mark: nat, from: Option<CatchUp>)

  datatype World = World(time: nat, announced: nat, phase: Phase, conn: Conn)

  /** Commit: other transactions ran. Announce: the next row, once committed, is published to the stream. */
  datatype Action = Commit | Announce | Step | Close

  function OldestAt(env: Env, n: nat): nat { Pull.Oldest(env.at(n), env.at(n + 1)) }

  function StartOf(env: Env, q: Request, latest: nat, read: nat): nat { StartAt(q, latest, OldestAt(env, read)) }

  function FromOf(env: Env, q: Request, latest: nat, read: nat): nat {
    ScanStart(q, StartOf(env, q, latest, read), PublicFrom(q, latest))
  }

  function Next(env: Env, q: Request, w: World): World {
    match w.phase
    case Joining =>
      var latest := env.at(w.time).head;
      if q.last.None? then w.(phase := Live(latest, |w.conn.sent|, None), conn := HandOver(w.conn.(lastSeq := latest)))
      else w.(phase := Reading(latest))
    case Reading(latest) =>
      World(w.time + 1, w.announced, Checked(latest, w.time), SendGap(w.conn, FirstGap(q, latest, OldestAt(env, w.time))))
    case Checked(latest, read) =>
      var publicFrom := PublicFrom(q, latest);
      var out := ScanFrom(env.at, w.time, Replayed(q, publicFrom), [], FromOf(env, q, latest, read), 0);
      World(out.page + 1, w.announced, Sending(CatchUp(latest, read, publicFrom, out)), SendGap(w.conn, WindowGap(StartOf(env, q, latest, read), publicFrom)))
    case Sending(how) =>
      var replayed := Replay(w.conn, how.out, how.latest);
      w.(phase := Live(how.latest, |replayed.sent|, Some(how)), conn := HandOver(replayed))
    case Live(_, _, _) => w
  }

  function Apply(env: Env, q: Request, w: World, a: Action): World {
    match a
    case Commit => w.(time := w.time + 1)
    case Announce =>
      if w.announced < env.at(w.time).head
      then w.(announced := w.announced + 1, conn := Hear(w.conn, q, env.row(w.announced + 1)))
      else w
    case Step => Next(env, q, w)
    case Close => w.(conn := w.conn.(closed := true))
  }

  function Run(env: Env, q: Request, w: World, actions: seq<Action>): World {
    if actions == [] then w else Apply(env, q, Run(env, q, w, actions[..|actions| - 1]), actions[|actions| - 1])
  }

  function Start(q: Request, time: nat, announced: nat): World { World(time, announced, Joining, Joined(q)) }

  // ---------------------------------------------------------------- what was heard and sent

  /** The announced rows above `from` up to `to` the viewer asked for and may see. */
  function Heard(env: Env, q: Request, from: nat, to: nat): seq<Row> {
    if to <= from then [] else Heard(env, q, from, to - 1) + if Wanted(Seen(q), env.row(to)) then [env.row(to)] else []
  }

  function Events(rows: seq<Row>): seq<Message> { seq(|rows|, i requires 0 <= i < |rows| => Event(rows[i])) }

  function Maybe(m: Option<Message>): seq<Message> { if m.Some? then [m.value] else [] }

  /** Everything a catch-up sends. */
  function CaughtUp(env: Env, q: Request, how: CatchUp): seq<Message> {
    Maybe(FirstGap(q, how.latest, OldestAt(env, how.read))) + Maybe(WindowGap(StartOf(env, q, how.latest, how.read), how.publicFrom))
    + Events(how.out.rows) + Maybe(LimitGap(how.out.cursor, how.latest))
  }

  predicate Waiting(env: Env, q: Request, w: World, joined: nat) { w.conn.pending == Some(Heard(env, q, joined, w.announced)) }

  /** The scan came after the reads before it, and is complete. */
  predicate Timely(env: Env, q: Request, how: CatchUp, time: nat) {
    && how.publicFrom == PublicFrom(q, how.latest) && how.latest <= env.at(how.read).head && how.read < how.out.page < time
    && Complete(env.at, Replayed(q, how.publicFrom), FromOf(env, q, how.latest, how.read), how.out)
  }

  predicate LiveOk(env: Env, q: Request, w: World)
    requires w.phase.Live?
  {
    var c := w.conn;
    && c.pending.None? && w.phase.mark <= |c.sent|
    && c.sent[..w.phase.mark] == (if w.phase.from.Some? then CaughtUp(env, q, w.phase.from.value) else [])
    && c.sent[w.phase.mark..] == Events(Heard(env, q, w.phase.latest, w.announced))
    && w.phase.latest <= c.lastSeq && (c.lastSeq == w.phase.latest || c.lastSeq <= w.announced)
    && (w.phase.from.Some? ==> w.phase.from.value.latest == w.phase.latest && Timely(env, q, w.phase.from.value, w.time))
    && (w.phase.from.Some? <==> q.last.Some?)
  }

  predicate Ok(env: Env, q: Request, w: World, joined: nat) {
    && joined <= w.announced <= env.at(w.time).head
    && match w.phase
       case Joining => Waiting(env, q, w, joined) && w.conn.sent == []
       case Reading(latest) => Waiting(env, q, w, joined) && w.conn.sent == [] && joined <= latest <= env.at(w.time).head && q.last.Some?
       case Checked(latest, read) =>
         && Waiting(env, q, w, joined) && w.conn.sent == Maybe(FirstGap(q, latest, OldestAt(env, read)))
         && joined <= latest <= env.at(read).head && read + 1 <= w.time && q.last.Some?
       case Sending(how) =>
         && Waiting(env, q, w, joined)
         && w.conn.sent == Maybe(FirstGap(q, how.latest, OldestAt(env, how.read))) + Maybe(WindowGap(StartOf(env, q, how.latest, how.read), how.publicFrom))
         && joined <= how.latest && Timely(env, q, how, w.time) && q.last.Some?
       case Live(latest, _, _) => joined <= latest && LiveOk(env, q, w)
  }

  // ---------------------------------------------------------------- sending sequences

  lemma {:induction false} SendAllSends(c: Conn, rows: seq<Row>)
    requires !c.closed
    ensures var d := SendAll(c, rows); d.sent == c.sent + Events(rows) && d.pending == c.pending && !d.closed
  {
    if rows != [] {
      var front := rows[..|rows| - 1];
      SendAllSends(c, front);
      assert Events(rows) == Events(front) + [Event(rows[|rows| - 1])];
    }
  }

  lemma {:induction false} HeardIsIn(env: Env, q: Request, from: nat, to: nat)
    requires Sound(env, q)
    ensures forall r | r in Heard(env, q, from, to) :: from < r.c.pos <= to && r == env.row(r.c.pos) && Wanted(Seen(q), r)
    ensures forall k | from < k <= to && Wanted(Seen(q), env.row(k)) :: env.row(k) in Heard(env, q, from, to)
  {
    if to > from { HeardIsIn(env, q, from, to - 1); }
  }

  lemma {:induction false} HeardAscends(env: Env, q: Request, from: nat, to: nat)
    requires Sound(env, q)
    ensures Ascending(Heard(env, q, from, to))
  {
    if to > from {
      HeardAscends(env, q, from, to - 1);
      HeardIsIn(env, q, from, to - 1);
      var less := Heard(env, q, from, to - 1);
      forall i | 0 <= i < |less| ensures less[i].c.pos < to { assert less[i] in less; }
    }
  }

  /** Flushing what waited since `joined` sends what was heard above the replay's head, each once. */
  lemma {:induction false} FlushSends(env: Env, q: Request, c: Conn, joined: nat, to: nat)
    requires Sound(env, q) && !c.closed && joined <= c.lastSeq
    ensures var d := Flush(c, Heard(env, q, joined, to));
      && d.sent == c.sent + Events(Heard(env, q, c.lastSeq, to)) && d.pending == c.pending && !d.closed
      && c.lastSeq <= d.lastSeq && (d.lastSeq == c.lastSeq || d.lastSeq <= to)
  {
    if to <= joined {
      assert Events([]) == [];
    } else {
      FlushSends(env, q, c, joined, to - 1);
      var less, all := Heard(env, q, joined, to - 1), Heard(env, q, joined, to);
      var live := Heard(env, q, c.lastSeq, to);
      if Wanted(Seen(q), env.row(to)) {
        assert all[..|all| - 1] == less && all[|all| - 1] == env.row(to);
        if to > c.lastSeq {
          assert live == Heard(env, q, c.lastSeq, to - 1) + [env.row(to)];
          assert Events(live) == Events(Heard(env, q, c.lastSeq, to - 1)) + [Event(env.row(to))];
        }
      } else {
        assert all == less;
        assert live == Heard(env, q, c.lastSeq, to - 1);
      }
    }
  }

  lemma GoesLive(env: Env, q: Request, c: Conn, joined: nat, to: nat)
    requires Sound(env, q) && !c.closed && joined <= c.lastSeq && c.pending == Some(Heard(env, q, joined, to))
    ensures var d := HandOver(c);
      && d.pending.None? && !d.closed && |c.sent| <= |d.sent|
      && d.sent[..|c.sent|] == c.sent && d.sent[|c.sent|..] == Events(Heard(env, q, c.lastSeq, to))
      && c.lastSeq <= d.lastSeq && (d.lastSeq == c.lastSeq || d.lastSeq <= to)
  {
    FlushSends(env, q, c.(pending := None), joined, to);
  }

  lemma ReplaySends(c: Conn, out: Scanned, latest: nat)
    requires !c.closed
    ensures var d := Replay(c, out, latest);
      d.sent == c.sent + Events(out.rows) + Maybe(LimitGap(out.cursor, latest)) && d.pending == c.pending && !d.closed && d.lastSeq == latest
  {
    SendAllSends(c, out.rows);
  }

  // ---------------------------------------------------------------- every step keeps it

  lemma NextStaysOk(env: Env, q: Request, w: World, joined: nat)
    requires Sound(env, q) && Ok(env, q, w, joined) && !w.conn.closed
    ensures Ok(env, q, Next(env, q, w), joined)
  {
    match w.phase
    case Joining =>
      if q.last.None? { GoesLive(env, q, w.conn.(lastSeq := env.at(w.time).head), joined, w.announced); }
    case Reading(latest) => assert LaterTo(Seen(q), env.at(w.time), env.at(w.time + 1));
    case Checked(latest, read) => ChecksOut(env, q, w, joined);
    case Sending(how) => SendsOut(env, q, w, joined);
    case Live(_, _, _) =>
  }

  lemma ChecksOut(env: Env, q: Request, w: World, joined: nat)
    requires Sound(env, q) && Ok(env, q, w, joined) && !w.conn.closed && w.phase.Checked?
    ensures Ok(env, q, Next(env, q, w), joined)
  {
    var latest, read := w.phase.latest, w.phase.read;
    var from := FromOf(env, q, latest, read);
    WindowGrows(env.at, q, PublicFrom(q, latest));
    PagesForward(env.at, w.time, Replayed(q, PublicFrom(q, latest)), [], from, 0);
    var out := ScanIsComplete(env.at, w.time, Replayed(q, PublicFrom(q, latest)), from, [], from, 0);
    assert LaterTo(Seen(q), env.at(w.time), env.at(out.page + 1));
  }

  lemma SendsOut(env: Env, q: Request, w: World, joined: nat)
    requires Sound(env, q) && Ok(env, q, w, joined) && !w.conn.closed && w.phase.Sending?
    ensures Ok(env, q, Next(env, q, w), joined)
  {
    var how := w.phase.how;
    ReplaySends(w.conn, how.out, how.latest);
    GoesLive(env, q, Replay(w.conn, how.out, how.latest), joined, w.announced);
  }

  lemma AnnounceStaysOk(env: Env, q: Request, w: World, joined: nat)
    requires Sound(env, q) && Ok(env, q, w, joined) && !w.conn.closed && w.announced < env.at(w.time).head
    ensures Ok(env, q, Apply(env, q, w, Announce), joined)
  {
    var k, r := w.announced + 1, env.row(w.announced + 1);
    assert Heard(env, q, joined, k) == if Wanted(Seen(q), r) then Heard(env, q, joined, w.announced) + [r] else Heard(env, q, joined, w.announced);
    if w.phase.Live? { LiveHears(env, q, w); }
  }

  lemma LiveHears(env: Env, q: Request, w: World)
    requires Sound(env, q) && w.phase.Live? && LiveOk(env, q, w) && !w.conn.closed && w.announced < env.at(w.time).head
    ensures LiveOk(env, q, Apply(env, q, w, Announce))
  {
    var r, before := env.row(w.announced + 1), Heard(env, q, w.phase.latest, w.announced);
    if w.announced + 1 > w.phase.latest && Wanted(Seen(q), r) {
      OneMoreEvent(w.conn.sent, w.phase.mark, before, r);
      assert Hear(w.conn, q, r).sent == w.conn.sent + [Event(r)];
      assert Heard(env, q, w.phase.latest, w.announced + 1) == before + [r];
    } else {
      assert Hear(w.conn, q, r) == w.conn;
      assert Heard(env, q, w.phase.latest, w.announced + 1) == before;
    }
  }

  lemma OneMoreEvent(sent: seq<Message>, mark: nat, rows: seq<Row>, r: Row)
    requires mark <= |sent| && sent[mark..] == Events(rows)
    ensures (sent + [Event(r)])[..mark] == sent[..mark] && (sent + [Event(r)])[mark..] == Events(rows + [r])
  {
    assert (sent + [Event(r)])[mark..] == sent[mark..] + [Event(r)];
  }

  lemma CommitStaysOk(env: Env, q: Request, w: World, joined: nat)
    requires Sound(env, q) && Ok(env, q, w, joined)
    ensures Ok(env, q, w.(time := w.time + 1), joined)
  {
    assert LaterTo(Seen(q), env.at(w.time), env.at(w.time + 1));
  }

  /** In every run, what an open stream was sent is exactly its catch-up and then the announced rows above it. */
  lemma {:induction false} EveryRunIsOk(env: Env, q: Request, time: nat, joined: nat, actions: seq<Action>)
    requires Sound(env, q) && joined <= env.at(time).head
    ensures var w := Run(env, q, Start(q, time, joined), actions); w.conn.closed || Ok(env, q, w, joined)
  {
    if actions == [] {
      assert Heard(env, q, joined, joined) == [];
    } else {
      EveryRunIsOk(env, q, time, joined, actions[..|actions| - 1]);
      var w := Run(env, q, Start(q, time, joined), actions[..|actions| - 1]);
      if !w.conn.closed {
        match actions[|actions| - 1]
        case Commit => CommitStaysOk(env, q, w, joined);
        case Announce => if w.announced < env.at(w.time).head { AnnounceStaysOk(env, q, w, joined); }
        case Step => NextStaysOk(env, q, w, joined);
        case Close =>
      } else {
        ClosedStaysClosed(env, q, w, actions[|actions| - 1]);
      }
    }
  }

  lemma {:induction false} SendingKeepsClosed(c: Conn, rows: seq<Row>)
    ensures SendAll(c, rows).closed == c.closed && Flush(c, rows).closed == c.closed
  {
    if rows != [] { SendingKeepsClosed(c, rows[..|rows| - 1]); }
  }

  lemma HandOverKeepsClosed(c: Conn)
    ensures HandOver(c).closed == c.closed
  {
    if c.pending.Some? { SendingKeepsClosed(c.(pending := None), c.pending.value); }
  }

  lemma NextKeepsClosed(env: Env, q: Request, w: World)
    ensures Next(env, q, w).conn.closed == w.conn.closed
  {
    if w.phase.Sending? {
      SendingKeepsClosed(w.conn, w.phase.how.out.rows);
      HandOverKeepsClosed(Replay(w.conn, w.phase.how.out, w.phase.how.latest));
    } else if w.phase.Joining? {
      HandOverKeepsClosed(w.conn.(lastSeq := env.at(w.time).head));
    }
  }

  lemma ClosedStaysClosed(env: Env, q: Request, w: World, a: Action)
    requires w.conn.closed
    ensures Apply(env, q, w, a).conn.closed
  {
    if a.Step? { NextKeepsClosed(env, q, w); }
  }

  // ---------------------------------------------------------------- nothing is lost silently

  predicate IsEvent(m: Message, k: nat) { m.Event? && m.row.c.pos == k }

  predicate Tells(m: Message, k: nat) { IsEvent(m, k) || (m.Gap? && m.from <= k <= m.to) }

  /** The client got the event, or a gap that covers it. */
  predicate Told(sent: seq<Message>, k: nat) { exists i | 0 <= i < |sent| :: Tells(sent[i], k) }

  /** What the client already has: everything up to its cursor, or up to the head it started at. */
  function Floor(q: Request, latest: nat): nat { if q.last.None? then latest else if Stale(q) then 0 else PosOf(q) }

  lemma ToldIn(a: seq<Message>, b: seq<Message>, c: seq<Message>, k: nat)
    requires Told(b, k)
    ensures Told(a + b + c, k)
  {
    var i :| 0 <= i < |b| && Tells(b[i], k);
    assert (a + b + c)[|a| + i] == b[i];
  }

  lemma ToldAmongFour(a: seq<Message>, b: seq<Message>, c: seq<Message>, d: seq<Message>, k: nat)
    requires Told(a, k) || Told(b, k) || Told(c, k) || Told(d, k)
    ensures Told(a + b + c + d, k)
  {
    var all := a + b + c + d;
    if Told(a, k) {
      ToldIn([], a, b + c + d, k);
      assert [] + a + (b + c + d) == all;
    } else if Told(b, k) {
      ToldIn(a, b, c + d, k);
      assert a + b + (c + d) == all;
    } else if Told(c, k) {
      ToldIn(a + b, c, d, k);
    } else {
      ToldIn(a + b + c, d, [], k);
      assert a + b + c + d + [] == all;
    }
  }

  lemma ToldAlone(m: Message, k: nat)
    requires Tells(m, k)
    ensures Told(Maybe(Some(m)), k)
  {
    assert Maybe(Some(m))[0] == m;
  }

  /** A catch-up tells every position up to the head it read first: by a gap before the scan, by the scan, or by a gap after it. */
  lemma CatchUpTells(env: Env, q: Request, how: CatchUp, time: nat, k: nat)
    requires Sound(env, q) && Timely(env, q, how, time) && q.last.Some?
    requires k in env.at(time).rows && Wanted(Seen(q), env.at(time).rows[k]) && Floor(q, how.latest) < k <= how.latest
    ensures Told(CaughtUp(env, q, how), k)
  {
    var start := StartOf(env, q, how.latest, how.read);
    var first, window, limit := FirstGap(q, how.latest, OldestAt(env, how.read)), WindowGap(start, how.publicFrom), LimitGap(how.out.cursor, how.latest);
    if k <= start {
      ToldAlone(first.value, k);
    } else if k > how.out.cursor {
      ToldAlone(limit.value, k);
    } else if k < how.publicFrom && (q.viewer.Anonymous? || env.at(time).rows[k].c.visibility == "public") {
      ToldAlone(window.value, k);
    } else {
      ScanTells(env, q, how, time, k);
    }
    ToldAmongFour(Maybe(first), Maybe(window), Events(how.out.rows), Maybe(limit), k);
  }

  lemma ScanTells(env: Env, q: Request, how: CatchUp, time: nat, k: nat)
    requires Sound(env, q) && Timely(env, q, how, time)
    requires k in env.at(time).rows && Wanted(Seen(q), env.at(time).rows[k])
    requires FromOf(env, q, how.latest, how.read) < k <= how.latest && k <= how.out.cursor
    requires !(env.at(time).rows[k].c.visibility == "public" && k < how.publicFrom)
    ensures Told(Events(how.out.rows), k)
  {
    var query, out := Replayed(q, how.publicFrom), how.out;
    WindowGrows(env.at, q, how.publicFrom);
    assert Sane(env.at(time)) && LaterTo(query, env.at(out.page), env.at(time));
    assert LaterTo(query, env.at(how.read), env.at(out.page));
    assert Wanted(query, env.at(time).rows[k]);
    ToldOfRows(out.rows, k);
  }

  /**
   Nothing is lost silently: once a stream is live, every event above the client's position that is still stored, that its
   topics match and the viewer may see, and that was there at the head or announced since, was sent or lies in a sent gap.
   */
  lemma NothingIsLostSilently(env: Env, q: Request, time: nat, joined: nat, actions: seq<Action>, k: nat)
    requires Sound(env, q) && joined <= env.at(time).head
    requires var w := Run(env, q, Start(q, time, joined), actions);
      && w.phase.Live? && !w.conn.closed && k in env.at(w.time).rows && Wanted(Seen(q), env.at(w.time).rows[k])
      && Floor(q, w.phase.latest) < k && (k <= w.phase.latest || k <= w.announced)
    ensures Told(Run(env, q, Start(q, time, joined), actions).conn.sent, k)
  {
    EveryRunIsOk(env, q, time, joined, actions);
    var w := Run(env, q, Start(q, time, joined), actions);
    if k <= w.phase.latest { ToldByCatchUp(env, q, w, joined, k); } else { ToldLive(env, q, w, joined, k); }
  }

  lemma ToldByCatchUp(env: Env, q: Request, w: World, joined: nat, k: nat)
    requires Sound(env, q) && w.phase.Live? && Ok(env, q, w, joined)
    requires k in env.at(w.time).rows && Wanted(Seen(q), env.at(w.time).rows[k]) && Floor(q, w.phase.latest) < k <= w.phase.latest
    ensures Told(w.conn.sent, k)
  {
    CatchUpTells(env, q, w.phase.from.value, w.time, k);
    ToldInPart(w.conn.sent, w.phase.mark, k);
  }

  lemma ToldInPart(sent: seq<Message>, mark: nat, k: nat)
    requires mark <= |sent| && (Told(sent[..mark], k) || Told(sent[mark..], k))
    ensures Told(sent, k)
  {
    if i :| 0 <= i < mark && Tells(sent[..mark][i], k) {
      assert Tells(sent[i], k);
    } else {
      var i :| 0 <= i < |sent| - mark && Tells(sent[mark..][i], k);
      assert Tells(sent[mark + i], k);
    }
  }

  lemma ToldOfRows(rows: seq<Row>, k: nat)
    requires Has(rows, k)
    ensures Told(Events(rows), k)
  {
    var i :| 0 <= i < |rows| && rows[i].c.pos == k;
    assert Tells(Events(rows)[i], k);
  }

  lemma ToldLive(env: Env, q: Request, w: World, joined: nat, k: nat)
    requires Sound(env, q) && w.phase.Live? && Ok(env, q, w, joined)
    requires k in env.at(w.time).rows && Wanted(Seen(q), env.at(w.time).rows[k]) && w.phase.latest < k <= w.announced
    ensures Told(w.conn.sent, k)
  {
    assert AsAnnounced(env, q, w.time, k);
    HasHeard(env, q, w.phase.latest, w.announced, k);
    ToldOfRows(Heard(env, q, w.phase.latest, w.announced), k);
    ToldInPart(w.conn.sent, w.phase.mark, k);
  }

  /** After the hand-over the stream is only events, in strictly increasing order, all above the head the catch-up read. */
  lemma LiveEventsIncrease(env: Env, q: Request, time: nat, joined: nat, actions: seq<Action>)
    requires Sound(env, q) && joined <= env.at(time).head
    requires var w := Run(env, q, Start(q, time, joined), actions); w.phase.Live? && !w.conn.closed
    ensures var w := Run(env, q, Start(q, time, joined), actions);
      && (forall i | w.phase.mark <= i < |w.conn.sent| :: w.conn.sent[i].Event? && w.phase.latest < w.conn.sent[i].row.c.pos <= w.announced)
      && forall i, j | w.phase.mark <= i < j < |w.conn.sent| :: w.conn.sent[i].row.c.pos < w.conn.sent[j].row.c.pos
  {
    EveryRunIsOk(env, q, time, joined, actions);
    LiveIncreases(env, q, Run(env, q, Start(q, time, joined), actions), joined);
  }

  /** Messages from `mark` on that are the events of ascending rows. */
  lemma EventsIncrease(sent: seq<Message>, mark: nat, rows: seq<Row>)
    requires mark <= |sent| && sent[mark..] == Events(rows) && Ascending(rows)
    ensures forall i | mark <= i < |sent| :: sent[i].Event? && sent[i].row in rows
    ensures forall i, j | mark <= i < j < |sent| :: sent[i].row.c.pos < sent[j].row.c.pos
  {
    forall i | mark <= i < |sent| ensures sent[i] == Event(rows[i - mark]) { assert sent[i] == sent[mark..][i - mark]; }
  }

  lemma LiveIncreases(env: Env, q: Request, w: World, joined: nat)
    requires Sound(env, q) && w.phase.Live? && Ok(env, q, w, joined)
    ensures forall i | w.phase.mark <= i < |w.conn.sent| :: w.conn.sent[i].Event? && w.phase.latest < w.conn.sent[i].row.c.pos <= w.announced
    ensures forall i, j | w.phase.mark <= i < j < |w.conn.sent| :: w.conn.sent[i].row.c.pos < w.conn.sent[j].row.c.pos
  {
    HeardIsIn(env, q, w.phase.latest, w.announced);
    HeardAscends(env, q, w.phase.latest, w.announced);
    EventsIncrease(w.conn.sent, w.phase.mark, Heard(env, q, w.phase.latest, w.announced));
  }

  // ---------------------------------------------------------------- how often an event is sent

  function Times(sent: seq<Message>, k: nat): nat {
    if sent == [] then 0 else Times(sent[..|sent| - 1], k) + if IsEvent(sent[|sent| - 1], k) then 1 else 0
  }

  lemma {:induction false} TimesAdd(a: seq<Message>, b: seq<Message>, k: nat)
    ensures Times(a + b, k) == Times(a, k) + Times(b, k)
  {
    if b == [] {
      assert a + b == a;
    } else {
      TimesAdd(a, b[..|b| - 1], k);
      assert (a + b)[..|a + b| - 1] == a + b[..|b| - 1];
    }
  }

  lemma HasLast(rows: seq<Row>, k: nat)
    requires rows != []
    ensures Has(rows, k) <==> Has(rows[..|rows| - 1], k) || rows[|rows| - 1].c.pos == k
  {
    var front := rows[..|rows| - 1];
    if Has(rows, k) {
      var i :| 0 <= i < |rows| && rows[i].c.pos == k;
      if i < |front| { assert front[i].c.pos == k; }
    }
    if Has(front, k) {
      var i :| 0 <= i < |front| && front[i].c.pos == k;
      assert rows[i].c.pos == k;
    }
  }

  lemma {:induction false} TimesOfEvents(rows: seq<Row>, k: nat)
    requires Ascending(rows)
    ensures Times(Events(rows), k) == if Has(rows, k) then 1 else 0
  {
    if rows != [] {
      var front, last := rows[..|rows| - 1], rows[|rows| - 1];
      TimesOfEvents(front, k);
      assert Events(rows)[..|rows| - 1] == Events(front);
      HasLast(rows, k);
    }
  }

  lemma NoEvent(m: Option<Message>, k: nat)
    requires m.Some? ==> m.value.Gap?
    ensures Times(Maybe(m), k) == 0
  {
    if m.Some? { assert Maybe(m)[..0] == []; }
  }

  lemma HasHeard(env: Env, q: Request, from: nat, to: nat, k: nat)
    requires Sound(env, q)
    ensures Has(Heard(env, q, from, to), k) <==> from < k <= to && Wanted(Seen(q), env.row(k))
  {
    var heard := Heard(env, q, from, to);
    HeardIsIn(env, q, from, to);
    if Has(heard, k) {
      var i :| 0 <= i < |heard| && heard[i].c.pos == k;
      assert heard[i] in heard;
    }
    if from < k <= to && Wanted(Seen(q), env.row(k)) {
      assert env.row(k) in heard;
      var i :| 0 <= i < |heard| && heard[i] == env.row(k);
      assert heard[i].c.pos == k;
    }
  }

  lemma TimesCaughtUp(env: Env, q: Request, how: CatchUp, k: nat)
    requires Ascending(how.out.rows)
    ensures Times(CaughtUp(env, q, how), k) == if Has(how.out.rows, k) then 1 else 0
  {
    var start, out := StartOf(env, q, how.latest, how.read), how.out;
    var first, window := FirstGap(q, how.latest, OldestAt(env, how.read)), WindowGap(start, how.publicFrom);
    var limit := LimitGap(out.cursor, how.latest);
    NoEvent(first, k);
    NoEvent(window, k);
    NoEvent(limit, k);
    TimesOfEvents(out.rows, k);
    TimesAdd(Maybe(first), Maybe(window), k);
    TimesAdd(Maybe(first) + Maybe(window), Events(out.rows), k);
    TimesAdd(Maybe(first) + Maybe(window) + Events(out.rows), Maybe(limit), k);
  }

  lemma TimesInParts(sent: seq<Message>, mark: nat, k: nat)
    requires mark <= |sent|
    ensures Times(sent, k) == Times(sent[..mark], k) + Times(sent[mark..], k)
  {
    TimesAdd(sent[..mark], sent[mark..], k);
    assert sent == sent[..mark] + sent[mark..];
  }

  lemma TimesHeard(env: Env, q: Request, from: nat, to: nat, k: nat)
    requires Sound(env, q)
    ensures Times(Events(Heard(env, q, from, to)), k) == if from < k <= to && Wanted(Seen(q), env.row(k)) then 1 else 0
  {
    HeardAscends(env, q, from, to);
    TimesOfEvents(Heard(env, q, from, to), k);
    HasHeard(env, q, from, to, k);
  }

  lemma TimesLive(env: Env, q: Request, w: World, joined: nat, k: nat)
    requires Sound(env, q) && w.phase.Live? && Ok(env, q, w, joined)
    ensures Times(w.conn.sent, k) ==
      (if w.phase.from.Some? && Has(w.phase.from.value.out.rows, k) then 1 else 0)
      + (if w.phase.latest < k <= w.announced && Wanted(Seen(q), env.row(k)) then 1 else 0)
  {
    TimesInParts(w.conn.sent, w.phase.mark, k);
    TimesHeard(env, q, w.phase.latest, w.announced, k);
    if w.phase.from.Some? { TimesCaughtUp(env, q, w.phase.from.value, k); }
  }

  /** How often a live stream sent an event: once if the replay had it, and once more if it was announced above the head read first. */
  lemma SentExactly(env: Env, q: Request, time: nat, joined: nat, actions: seq<Action>, k: nat)
    requires Sound(env, q) && joined <= env.at(time).head
    requires var w := Run(env, q, Start(q, time, joined), actions); w.phase.Live? && !w.conn.closed
    ensures var w := Run(env, q, Start(q, time, joined), actions);
      Times(w.conn.sent, k) ==
        (if w.phase.from.Some? && Has(w.phase.from.value.out.rows, k) then 1 else 0)
        + (if w.phase.latest < k <= w.announced && Wanted(Seen(q), env.row(k)) then 1 else 0)
  {
    EveryRunIsOk(env, q, time, joined, actions);
    TimesLive(env, q, Run(env, q, Start(q, time, joined), actions), joined, k);
  }

  /** What the replay sent, by the store its last page saw: nothing committed later, and of that store what lies within its reach. */
  lemma ReplayHasIff(env: Env, q: Request, how: CatchUp, time: nat, k: nat)
    requires Sound(env, q) && Timely(env, q, how, time)
    ensures var seen := env.at(how.out.page);
      && (k > seen.head ==> !Has(how.out.rows, k))
      && (k in seen.rows && Wanted(Replayed(q, how.publicFrom), seen.rows[k]) ==>
            (Has(how.out.rows, k) <==> FromOf(env, q, how.latest, how.read) < k <= how.out.cursor))
  {
    WindowGrows(env.at, q, how.publicFrom);
    var out := how.out;
    assert Sane(env.at(out.page));
    if Has(out.rows, k) {
      var i :| 0 <= i < |out.rows| && out.rows[i].c.pos == k;
      assert out.rows[i] in out.rows;
      SeenIsBelow(env.at, Replayed(q, how.publicFrom), out.page, out.rows[i]);
    }
  }

  /**
   How often an event was sent, by when it was committed. After the last page of the replay's scan: once, when it is announced
   above the head read first. Before it: once when it lies within the scan's reach, and once more when it was committed after that
   head was read and announced since.
   */
  lemma SentByCommitTime(env: Env, q: Request, time: nat, joined: nat, actions: seq<Action>, k: nat)
    requires Sound(env, q) && joined <= env.at(time).head
    requires var w := Run(env, q, Start(q, time, joined), actions); w.phase.Live? && !w.conn.closed && w.phase.from.Some?
    ensures var w := Run(env, q, Start(q, time, joined), actions);
      var how, seen := w.phase.from.value, env.at(w.phase.from.value.out.page);
      && (k > seen.head ==> Times(w.conn.sent, k) == if how.latest < k <= w.announced && Wanted(Seen(q), env.row(k)) then 1 else 0)
      && (k in seen.rows && Wanted(Replayed(q, how.publicFrom), seen.rows[k]) ==>
            Times(w.conn.sent, k) ==
              (if FromOf(env, q, how.latest, how.read) < k <= how.out.cursor then 1 else 0)
              + (if how.latest < k <= w.announced then 1 else 0))
  {
    EveryRunIsOk(env, q, time, joined, actions);
    SentExactly(env, q, time, joined, actions, k);
    var w := Run(env, q, Start(q, time, joined), actions);
    var how := w.phase.from.value;
    ReplayHasIff(env, q, how, w.time, k);
    assert AsAnnounced(env, q, how.out.page, k);
  }

  // ---------------------------------------------------------------- twice can happen

  /** Event a is stored; b is committed right after the stream read the head. */
  function TwoCommits(a: Row, b: Row): nat -> Snapshot {
    n => if n == 0 then Snapshot(map[1 := a], 1) else Snapshot(map[1 := a, 2 := b], 2)
  }

  function Rows(a: Row, b: Row): nat -> Row { (k: nat) => if k == 1 then a else b.(c := b.c.(pos := k)) }

  function Resumes(): Request { Request(Service, ["a"], Some(Cursor.Position(1, 0)), 0, None, 10) }

  predicate Plain(r: Row, k: nat) { r.c.pos == k && r.c.eventType == "a" && r.c.projectId.None? && r.c.env == "production" }

  lemma PlainIsWanted(r: Row, k: nat)
    requires Plain(r, k)
    ensures Wanted(Seen(Resumes()), r)
  {
    LetterMatchesItself();
    assert Topics.Matches(Seen(Resumes()).patterns[0], "a");
  }

  lemma OneThenTwo(a: Row, b: Row, q: Query)
    requires a.c.pos == 1 && b.c.pos == 2
    ensures var s, t := Snapshot(map[1 := a], 1), Snapshot(map[1 := a, 2 := b], 2);
      Sane(s) && Sane(t) && LaterTo(q, s, s) && LaterTo(q, s, t) && LaterTo(q, t, t)
  {
  }

  lemma TwoCommitsGrow(a: Row, b: Row, q: Query)
    requires a.c.pos == 1 && b.c.pos == 2
    ensures Growing(TwoCommits(a, b), q)
  {
    var at, s, t := TwoCommits(a, b), Snapshot(map[1 := a], 1), Snapshot(map[1 := a, 2 := b], 2);
    OneThenTwo(a, b, q);
    forall i: nat ensures Sane(at(i)) { assert at(i) == s || at(i) == t; }
    forall i: nat, j: nat | i <= j ensures LaterTo(q, at(i), at(j)) {
      assert at(i) == (if i == 0 then s else t) && at(j) == (if j == 0 then s else t);
    }
  }

  lemma TwoCommitsAreSound(a: Row, b: Row)
    requires Plain(a, 1) && Plain(b, 2)
    ensures Sound(Env(TwoCommits(a, b), Rows(a, b)), Resumes()) && Wanted(Seen(Resumes()), a) && Wanted(Seen(Resumes()), b)
  {
    var env, q := Env(TwoCommits(a, b), Rows(a, b)), Resumes();
    TwoCommitsGrow(a, b, Seen(q));
    PlainIsWanted(a, 1);
    PlainIsWanted(b, 2);
    forall n: nat, k: nat ensures AsAnnounced(env, q, n, k) { PlainIsWanted(env.row(k), k); }
  }

  lemma RunNext(env: Env, q: Request, w: World, actions: seq<Action>, a: Action)
    ensures Run(env, q, w, actions + [a]) == Apply(env, q, Run(env, q, w, actions), a)
  {
    assert (actions + [a])[..|actions|] == actions;
  }

  /** The scan of that catch-up, from the client's position at the second statement. */
  function ScanTwo(a: Row, b: Row): Scanned { ScanFrom(TwoCommits(a, b), 1, Replayed(Resumes(), 0), [], 1, 0) }

  lemma ScanFindsIt(a: Row, b: Row)
    requires Plain(a, 1) && Plain(b, 2)
    ensures Has(ScanTwo(a, b).rows, 2) && ScanTwo(a, b).page >= 1
  {
    var at, q := TwoCommits(a, b), Replayed(Resumes(), 0);
    TwoCommitsGrow(a, b, q);
    PlainIsWanted(b, 2);
    var out := ScanIsComplete(at, 1, q, 1, [], 1, 0);
    PagesForward(at, 1, q, [], 1, 0);
    Pull.ScanAdvances(at, 1, q, [], 1, 0);
    assert at(out.page).rows[2] == b && Wanted(q, b);
  }

  lemma HeadAndOldestRead(a: Row, b: Row)
    requires Plain(a, 1) && Plain(b, 2)
    ensures var env, q := Env(TwoCommits(a, b), Rows(a, b)), Resumes();
      Run(env, q, Start(q, 0, 1), [Step, Step]) == World(1, 1, Checked(1, 0), Joined(q)) && StartOf(env, q, 1, 0) == 1
  {
    var env, q := Env(TwoCommits(a, b), Rows(a, b)), Resumes();
    RunNext(env, q, Start(q, 0, 1), [], Step);
    RunNext(env, q, Start(q, 0, 1), [Step], Step);
    assert [] + [Step] == [Step] && [Step] + [Step] == [Step, Step];
    TwoCommitsGrow(a, b, Seen(q));
    Pull.LeastIsFirst(env.at(0), 0);
    assert OldestAt(env, 0) == 1;
  }

  lemma ScanRead(a: Row, b: Row)
    requires Plain(a, 1) && Plain(b, 2)
    ensures var env, q := Env(TwoCommits(a, b), Rows(a, b)), Resumes();
      Run(env, q, Start(q, 0, 1), [Step, Step, Step]) == World(ScanTwo(a, b).page + 1, 1, Sending(CatchUp(1, 0, 0, ScanTwo(a, b))), Joined(q))
  {
    var env, q := Env(TwoCommits(a, b), Rows(a, b)), Resumes();
    HeadAndOldestRead(a, b);
    RunNext(env, q, Start(q, 0, 1), [Step, Step], Step);
    assert [Step, Step] + [Step] == [Step, Step, Step];
  }

  lemma BothAnnounced(a: Row, b: Row)
    requires Plain(a, 1) && Plain(b, 2)
    ensures var env, q := Env(TwoCommits(a, b), Rows(a, b)), Resumes();
      var w := Run(env, q, Start(q, 0, 1), [Step, Step, Step, Announce]);
      w.phase == Sending(CatchUp(1, 0, 0, ScanTwo(a, b))) && w.announced == 2 && !w.conn.closed
  {
    var env, q := Env(TwoCommits(a, b), Rows(a, b)), Resumes();
    ScanRead(a, b);
    RunNext(env, q, Start(q, 0, 1), [Step, Step, Step], Announce);
    assert [Step, Step, Step] + [Announce] == [Step, Step, Step, Announce];
  }

  /** An event committed between the head read and the scan is replayed, waits in the fan-out too, and is sent again. */
  lemma ReplayedAndSentAgain(a: Row, b: Row)
    requires Plain(a, 1) && Plain(b, 2)
    ensures var env, q := Env(TwoCommits(a, b), Rows(a, b)), Resumes();
      var w := Run(env, q, Start(q, 0, 1), [Step, Step, Step, Announce, Step]);
      Sound(env, q) && w.phase.Live? && !w.conn.closed && Times(w.conn.sent, 2) == 2
  {
    var env, q := Env(TwoCommits(a, b), Rows(a, b)), Resumes();
    TwoCommitsAreSound(a, b);
    BothAnnounced(a, b);
    RunNext(env, q, Start(q, 0, 1), [Step, Step, Step, Announce], Step);
    assert [Step, Step, Step, Announce] + [Step] == [Step, Step, Step, Announce, Step];
    NextKeepsClosed(env, q, Run(env, q, Start(q, 0, 1), [Step, Step, Step, Announce]));
    ScanFindsIt(a, b);
    assert env.row(2) == b;
    SentExactly(env, q, 0, 1, [Step, Step, Step, Announce, Step], 2);
  }
}
