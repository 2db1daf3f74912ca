/** The incremental reader of a NATS stream: bytes arrive in chunks, frames come out. A char is a byte. */
module NatsFrames {
  import opened Wrappers
  import Cursor

  const MAX_LINE := 65536
  const CRLF := "\r\n"

  // ---------------------------------------------------------------- a line's words

  function Words(line: string): (ws: seq<string>)
    ensures ws != []
  {
    if line == "" then [""]
    else if line[0] == ' ' then [""] + Words(line[1..])
    else
      var rest := Words(line[1..]);
      [[line[0]] + rest[0]] + rest[1..]
  }

  function Unwords(ws: seq<string>): string
    requires ws != []
  {
    if |ws| == 1 then ws[0] else ws[0] + " " + Unwords(ws[1..])
  }

  predicate Spaceless(w: string) { forall i | 0 <= i < |w| :: w[i] != ' ' }

  lemma {:induction false} WordsAhead(w: string, rest: string)
    requires Spaceless(w)
    ensures Words(w + rest) == [w + Words(rest)[0]] + Words(rest)[1..]
  {
    if w == "" {
      assert w + rest == rest;
      assert "" + Words(rest)[0] == Words(rest)[0];
    } else {
      WordsAhead(w[1..], rest);
      assert (w + rest)[1..] == w[1..] + rest;
      assert [w[0]] + (w[1..] + Words(rest)[0]) == w + Words(rest)[0];
    }
  }

  lemma {:induction false} WordsOfUnwords(ws: seq<string>)
    requires ws != [] && forall w | w in ws :: Spaceless(w)
    ensures Words(Unwords(ws)) == ws
  {
    if |ws| == 1 {
      WordsAhead(ws[0], "");
      assert ws[0] + "" == ws[0];
    } else {
      var tail := " " + Unwords(ws[1..]);
      WordsOfUnwords(ws[1..]);
      WordsAhead(ws[0], tail);
      assert tail[1..] == Unwords(ws[1..]);
      assert ws[0] + " " + Unwords(ws[1..]) == ws[0] + tail;
      assert ws[0] + "" == ws[0];
    }
  }

  function Upper(s: string): string {
    seq(|s|, i requires 0 <= i < |s| => if 'a' <= s[i] <= 'z' then s[i] - 'a' + 'A' else s[i])
  }

  function OpOf(line: string): string { Upper(Words(line)[0]) }

  function LastWord(line: string): string { Words(line)[|Words(line)| - 1] }

  /** What Number() makes of a word: a count of bytes, Infinity, or NaN. */
  datatype Size = Bytes(n: nat) | Endless | NotANumber

  /** The payload size a MSG line names. `num`: what Number() makes of a last word that is not all digits (hex, exponents, ""). */
  function CountOf(num: string -> Size, line: string): Size {
    var w := LastWord(line);
    if Cursor.Digits(w) then Bytes(Cursor.ValueOf(w)) else num(w)
  }

  // ---------------------------------------------------------------- one frame

  /** `end`: the two bytes after a payload, whatever they are. */
  datatype Frame = Line(text: string) | Message(head: string, payload: string, end: string)

  predicate AtCrlf(s: string, i: nat) { i + 2 <= |s| && s[i] == '\r' && s[i + 1] == '\n' }

  /** Where the first line ends. */
  function EndOfLine(s: string, i: nat): Option<nat>
    requires i <= |s|
    decreases |s| - i
  {
    if i == |s| then None else if AtCrlf(s, i) then Some(i) else EndOfLine(s, i + 1)
  }

  lemma {:induction false} EndOfLineIs(s: string, i: nat)
    requires i <= |s|
    ensures match EndOfLine(s, i)
      case None => forall j | i <= j :: !AtCrlf(s, j)
      case Some(e) => i <= e && AtCrlf(s, e) && forall j | i <= j < e :: !AtCrlf(s, j)
    decreases |s| - i
  {
    if i < |s| && !AtCrlf(s, i) { EndOfLineIs(s, i + 1); }
  }

  lemma EndOfLineAt(s: string, e: nat)
    requires AtCrlf(s, e) && forall j | 0 <= j < e :: !AtCrlf(s, j)
    ensures EndOfLine(s, 0) == Some(e)
  {
    EndOfLineIs(s, 0);
  }

  /** Jam: a MSG line whose last word is NaN, which the loop can never get past. */
  datatype Taken = Wait | Jam | Got(frame: Frame, rest: string)

  function Take(num: string -> Size, buf: string): Taken {
    var eol := EndOfLine(buf, 0);
    EndOfLineIs(buf, 0);
    if eol.None? then Wait
    else
      var line, body := buf[..eol.value], buf[eol.value + 2..];
      if OpOf(line) != "MSG" then Got(Line(line), body)
      else
        match CountOf(num, line)
        case NotANumber => Jam
        case Endless => Wait
        case Bytes(n) => if |body| < n + 2 then Wait else Got(Message(line, body[..n], body[n..n + 2]), body[n + 2..])
  }

  lemma TakeShortens(num: string -> Size, buf: string)
    requires Take(num, buf).Got?
    ensures |Take(num, buf).rest| < |buf|
  {
    EndOfLineIs(buf, 0);
  }

  // ---------------------------------------------------------------- a whole stream

  datatype Parsed = Parsed(frames: seq<Frame>, rest: string, jammed: bool)

  function Parse(num: string -> Size, buf: string): Parsed
    decreases |buf|
  {
    match Take(num, buf)
    case Wait => Parsed([], buf, false)
    case Jam => Parsed([], buf, true)
    case Got(f, rest) =>
      TakeShortens(num, buf);
      var p := Parse(num, rest);
      Parsed([f] + p.frames, p.rest, p.jammed)
  }

  function Text(f: Frame): string {
    match f
    case Line(text) => text + CRLF
    case Message(head, payload, end) => head + CRLF + payload + end
  }

  function TextOf(fs: seq<Frame>): string { if fs == [] then "" else Text(fs[0]) + TextOf(fs[1..]) }

  predicate OneLine(s: string) { forall j | 0 <= j < |s| :: !AtCrlf(s, j) }

  /** A frame the protocol can send: one line, and a payload of the size its line names. */
  predicate Sendable(num: string -> Size, f: Frame) {
    match f
    case Line(text) => OneLine(text) && OpOf(text) != "MSG"
    case Message(head, payload, end) => OneLine(head) && OpOf(head) == "MSG" && CountOf(num, head) == Bytes(|payload|) && |end| == 2
  }

  /** A line's end is found where it is, whatever follows: a CRLF inside a payload is never taken for it. */
  lemma LineEndsFirst(line: string, tail: string)
    requires OneLine(line)
    ensures var s := line + CRLF + tail; EndOfLine(s, 0) == Some(|line|) && s[..|line|] == line && s[|line| + 2..] == tail
  {
    var s := line + CRLF + tail;
    forall j: nat | j < |line| ensures !AtCrlf(s, j) {
      if j + 2 <= |line| { assert !AtCrlf(line, j); }
    }
    EndOfLineAt(s, |line|);
  }

  lemma TakesWhatWasSent(num: string -> Size, f: Frame, tail: string)
    requires Sendable(num, f)
    ensures Take(num, Text(f) + tail) == Got(f, tail)
  {
    match f
    case Line(text) => LineEndsFirst(text, tail);
    case Message(head, payload, end) =>
      LineEndsFirst(head, payload + end + tail);
      var body := payload + end + tail;
      assert Text(f) + tail == head + CRLF + body;
      assert body[..|payload|] == payload && body[|payload|..|payload| + 2] == end && body[|payload| + 2..] == tail;
  }

  lemma LineBeforeEnd(buf: string, e: nat)
    requires EndOfLine(buf, 0) == Some(e)
    ensures e + 2 <= |buf| && OneLine(buf[..e]) && buf == buf[..e] + CRLF + buf[e + 2..]
  {
    EndOfLineIs(buf, 0);
    OneLineBefore(buf, e);
    assert buf[e..e + 2] == CRLF;
    assert buf == buf[..e] + buf[e..e + 2] + buf[e + 2..];
  }

  lemma OneLineBefore(buf: string, e: nat)
    requires e <= |buf| && forall j | 0 <= j < e :: !AtCrlf(buf, j)
    ensures OneLine(buf[..e])
  {
    forall j | 0 <= j < e ensures !AtCrlf(buf[..e], j) { assert !AtCrlf(buf, j); }
  }

  lemma CutInThree(body: string, n: nat)
    requires n + 2 <= |body|
    ensures body == body[..n] + body[n..n + 2] + body[n + 2..]
  {
  }

  lemma Regroup(line: string, a: string, b: string, c: string)
    ensures line + CRLF + (a + b + c) == line + CRLF + a + b + c
  {
  }

  lemma TakenWasSent(num: string -> Size, buf: string)
    requires Take(num, buf).Got?
    ensures Sendable(num, Take(num, buf).frame) && buf == Text(Take(num, buf).frame) + Take(num, buf).rest
  {
    var e := EndOfLine(buf, 0).value;
    LineBeforeEnd(buf, e);
    if OpOf(buf[..e]) == "MSG" {
      var n, body := CountOf(num, buf[..e]).n, buf[e + 2..];
      CutInThree(body, n);
      Regroup(buf[..e], body[..n], body[n..n + 2], body[n + 2..]);
    }
  }

  lemma Associates(a: string, b: string, c: string)
    ensures a + b + c == a + (b + c)
  {
  }

  /** What is handled and what is left are the stream, and what is left is no whole frame. */
  lemma {:induction false} ParseIsExact(num: string -> Size, buf: string)
    ensures var p := Parse(num, buf);
      && buf == TextOf(p.frames) + p.rest && (forall f | f in p.frames :: Sendable(num, f)) && Take(num, p.rest) == if p.jammed then Jam else Wait
    decreases |buf|
  {
    if Take(num, buf).Got? {
      TakeShortens(num, buf);
      TakenWasSent(num, buf);
      ParseIsExact(num, Take(num, buf).rest);
      var p := Parse(num, Take(num, buf).rest);
      assert ([Take(num, buf).frame] + p.frames)[1..] == p.frames;
      Associates(Text(Take(num, buf).frame), TextOf(p.frames), p.rest);
    } else {
      assert buf == "" + buf;
    }
  }

  lemma ParsesFirst(num: string -> Size, f: Frame, tail: string)
    requires Sendable(num, f)
    ensures Parse(num, Text(f) + tail) == Parsed([f] + Parse(num, tail).frames, Parse(num, tail).rest, Parse(num, tail).jammed)
  {
    TakesWhatWasSent(num, f, tail);
  }

  lemma ParsesNext(num: string -> Size, f: Frame, fs: seq<Frame>, rest: string, jammed: bool)
    requires Sendable(num, f) && Parse(num, TextOf(fs) + rest) == Parsed(fs, rest, jammed)
    ensures Parse(num, Text(f) + (TextOf(fs) + rest)) == Parsed([f] + fs, rest, jammed)
  {
    ParsesFirst(num, f, TextOf(fs) + rest);
  }

  lemma TextAhead(fs: seq<Frame>, rest: string)
    requires fs != []
    ensures TextOf(fs) + rest == Text(fs[0]) + (TextOf(fs[1..]) + rest) && fs == [fs[0]] + fs[1..]
  {
    Associates(Text(fs[0]), TextOf(fs[1..]), rest);
  }

  /** And there is only one such reading: any frames, with payloads full of line ends, are read back as they were sent. */
  lemma {:induction false} ParseReadsBack(num: string -> Size, fs: seq<Frame>, rest: string)
    requires (forall f | f in fs :: Sendable(num, f)) && !Take(num, rest).Got?
    ensures Parse(num, TextOf(fs) + rest) == Parsed(fs, rest, Take(num, rest).Jam?)
  {
    if fs == [] {
      assert "" + rest == rest;
    } else {
      ParseReadsBack(num, fs[1..], rest);
      ParsesNext(num, fs[0], fs[1..], rest, Take(num, rest).Jam?);
      TextAhead(fs, rest);
    }
  }

  // ---------------------------------------------------------------- chunks

  lemma LineEndStays(buf: string, more: string, e: nat)
    requires EndOfLine(buf, 0) == Some(e)
    ensures e + 2 <= |buf| && EndOfLine(buf + more, 0) == Some(e) && (buf + more)[..e] == buf[..e]
    ensures (buf + more)[e + 2..] == buf[e + 2..] + more
  {
    EndOfLineIs(buf, 0);
    forall j: nat | j < e ensures !AtCrlf(buf + more, j) { assert !AtCrlf(buf, j); }
    EndOfLineAt(buf + more, e);
  }

  lemma TakeMore(num: string -> Size, buf: string, more: string)
    ensures Take(num, buf).Got? ==> Take(num, buf + more) == Got(Take(num, buf).frame, Take(num, buf).rest + more)
    ensures Take(num, buf).Jam? ==> Take(num, buf + more).Jam?
  {
    match Take(num, buf)
    case Wait =>
    case Jam => LineEndStays(buf, more, EndOfLine(buf, 0).value);
    case Got(f, rest) =>
      TakenWasSent(num, buf);
      TakesWhatWasSent(num, f, rest + more);
      Associates(Text(f), rest, more);
  }

  /** Reading on with more bytes is reading them all at once. */
  lemma {:induction false} ParseMore(num: string -> Size, buf: string, more: string)
    ensures var p := Parse(num, buf); var q := Parse(num, p.rest + more);
      Parse(num, buf + more) == Parsed(p.frames + q.frames, q.rest, q.jammed) && (p.jammed ==> q.jammed && q.frames == [])
    decreases |buf|
  {
    TakeMore(num, buf, more);
    match Take(num, buf)
    case Wait => assert [] + Parse(num, buf + more).frames == Parse(num, buf + more).frames;
    case Jam =>
    case Got(f, rest) =>
      TakeShortens(num, buf);
      ParseMore(num, rest, more);
      var p, q := Parse(num, rest), Parse(num, Parse(num, rest).rest + more);
      assert [f] + (p.frames + q.frames) == [f] + p.frames + q.frames;
  }

  /** The reader between two chunks. */
  datatype Reader = Reader(buf: string, handled: seq<Frame>, jammed: bool, dead: bool)

  predicate TooLong(rest: string) { EndOfLine(rest, 0).None? && |rest| > MAX_LINE }

  /** One data event. A destroyed socket reads nothing more; a jammed loop never returns to read. */
  function Feed(num: string -> Size, r: Reader, chunk: string): Reader {
    if r.dead || r.jammed then r
    else
      var p := Parse(num, r.buf + chunk);
      Reader(p.rest, r.handled + p.frames, p.jammed, TooLong(p.rest))
  }

  function FeedAll(num: string -> Size, chunks: seq<string>): Reader {
    if chunks == [] then Reader("", [], false, false) else Feed(num, FeedAll(num, chunks[..|chunks| - 1]), chunks[|chunks| - 1])
  }

  function Joined(chunks: seq<string>): string { if chunks == [] then "" else Joined(chunks[..|chunks| - 1]) + chunks[|chunks| - 1] }

  /** Some chunk ends inside a line of which too much has come. */
  predicate CutTooLong(num: string -> Size, chunks: seq<string>) { exists n | 0 < n <= |chunks| :: TooLong(Parse(num, Joined(chunks[..n])).rest) }

  lemma JammedIsNotLong(num: string -> Size, buf: string)
    ensures Parse(num, buf).jammed ==> !TooLong(Parse(num, buf).rest)
  {
    ParseIsExact(num, buf);
  }

  lemma {:induction false} JamStays(num: string -> Size, chunks: seq<string>, n: nat)
    requires n <= |chunks| && Parse(num, Joined(chunks[..n])).jammed
    ensures Parse(num, Joined(chunks)).jammed
  {
    if n < |chunks| {
      JamStays(num, chunks[..|chunks| - 1], n) by { assert chunks[..|chunks| - 1][..n] == chunks[..n]; }
      ParseMore(num, Joined(chunks[..|chunks| - 1]), chunks[|chunks| - 1]);
    } else {
      assert chunks[..n] == chunks;
    }
  }

  lemma CutInFront(num: string -> Size, chunks: seq<string>, n: nat)
    requires chunks != [] && 0 < n < |chunks|
    ensures TooLong(Parse(num, Joined(chunks[..n])).rest) <==> TooLong(Parse(num, Joined(chunks[..|chunks| - 1][..n])).rest)
  {
    assert chunks[..|chunks| - 1][..n] == chunks[..n];
  }

  lemma CutEarlier(num: string -> Size, chunks: seq<string>)
    requires chunks != []
    ensures CutTooLong(num, chunks) <==> CutTooLong(num, chunks[..|chunks| - 1]) || TooLong(Parse(num, Joined(chunks)).rest)
  {
    var front := chunks[..|chunks| - 1];
    assert chunks[..|chunks|] == chunks;
    if CutTooLong(num, chunks) {
      var n :| 0 < n <= |chunks| && TooLong(Parse(num, Joined(chunks[..n])).rest);
      if n < |chunks| { CutInFront(num, chunks, n); }
    }
    if CutTooLong(num, front) {
      var n :| 0 < n <= |front| && TooLong(Parse(num, Joined(front[..n])).rest);
      CutInFront(num, chunks, n);
    }
  }

  /**
   However a stream is cut, what is handled and what is left are those of the whole stream; the socket is destroyed exactly
   when some cut leaves an overlong unfinished line.
   */
  lemma {:induction false} ChunksDoNotMatter(num: string -> Size, chunks: seq<string>)
    ensures var r, p := FeedAll(num, chunks), Parse(num, Joined(chunks));
      && (r.dead <==> CutTooLong(num, chunks))
      && (!r.dead ==> r.handled == p.frames && r.jammed == p.jammed && (!r.jammed ==> r.buf == p.rest))
      && (r.dead ==> !r.jammed)
  {
    if chunks != [] {
      var front, last := chunks[..|chunks| - 1], chunks[|chunks| - 1];
      ChunksDoNotMatter(num, front);
      ParseMore(num, Joined(front), last);
      CutEarlier(num, chunks);
      JammedIsNotLong(num, Joined(chunks));
    } else {
      EndOfLineIs("", 0);
    }
  }

  // ---------------------------------------------------------------- short lines are never cut

  function LineOf(f: Frame): string { if f.Line? then f.text else f.head }

  /** Every line of the stream, and the one it ends in, fits. */
  predicate LinesFit(num: string -> Size, stream: string) {
    var p := Parse(num, stream);
    && (forall f | f in p.frames :: |LineOf(f)| < 65536)
    && match EndOfLine(p.rest, 0) case None => |p.rest| <= 65536 case Some(e) => e < 65536
  }

  /** An unfinished line is the start of the stream's next one. */
  lemma UnfinishedFits(num: string -> Size, rest: string, more: string)
    requires EndOfLine(rest, 0).None? && LinesFit(num, rest + more)
    ensures |rest| <= MAX_LINE
  {
    var s := rest + more;
    EndOfLineIs(rest, 0);
    EndOfLineIs(s, 0);
    if EndOfLine(s, 0).Some? {
      var e := EndOfLine(s, 0).value;
      assert !AtCrlf(rest, e);
      if Take(num, s).Got? {
        assert Parse(num, s).frames[0] == Take(num, s).frame;
        assert Take(num, s).frame in Parse(num, s).frames && LineOf(Take(num, s).frame) == s[..e];
      }
    }
  }

  lemma {:induction false} FitsAfter(num: string -> Size, buf: string, more: string)
    requires LinesFit(num, buf + more) && !Parse(num, buf).jammed
    ensures LinesFit(num, Parse(num, buf).rest + more)
  {
    ParseMore(num, buf, more);
    var p, q := Parse(num, buf), Parse(num, Parse(num, buf).rest + more);
    forall f | f in q.frames ensures f in p.frames + q.frames {}
  }

  lemma {:induction false} JoinedSplits(chunks: seq<string>, n: nat) returns (more: string)
    requires n <= |chunks|
    ensures Joined(chunks) == Joined(chunks[..n]) + more
  {
    if n == |chunks| {
      assert chunks[..n] == chunks;
      more := "";
    } else {
      var front := chunks[..|chunks| - 1];
      var less := JoinedSplits(front, n);
      assert front[..n] == chunks[..n];
      more := less + chunks[|chunks| - 1];
      assert Joined(front[..n]) + less + chunks[|chunks| - 1] == Joined(chunks[..n]) + more;
    }
  }

  /** A stream whose lines fit is never cut too long, wherever its chunks end. */
  lemma ShortLinesAreNeverCut(num: string -> Size, chunks: seq<string>)
    requires LinesFit(num, Joined(chunks))
    ensures !CutTooLong(num, chunks)
  {
    forall n | 0 < n <= |chunks| ensures !TooLong(Parse(num, Joined(chunks[..n])).rest) {
      var more := JoinedSplits(chunks, n);
      var buf := Joined(chunks[..n]);
      JammedIsNotLong(num, buf);
      if !Parse(num, buf).jammed {
        FitsAfter(num, buf, more);
        if EndOfLine(Parse(num, buf).rest, 0).None? { UnfinishedFits(num, Parse(num, buf).rest, more); }
      }
    }
  }

  lemma JoinsTwo(a: string, b: string)
    ensures Joined([a, b]) == a + b && Joined([a, b][..1]) == a
  {
    assert [a][..0] == [] && "" + a == a;
    assert Joined([a]) == a;
    assert [a, b][..1] == [a] && [a, b][1] == b;
    assert Joined([a, b]) == Joined([a, b][..1]) + b;
  }

  /** A line of MAX_LINE or more, cut between the two bytes that end it, is too long, whatever came before. */
  lemma LongLineIsCut(num: string -> Size, fs: seq<Frame>, line: string, tail: string)
    requires (forall f | f in fs :: Sendable(num, f)) && OneLine(line) && |line| >= MAX_LINE
    ensures CutTooLong(num, [TextOf(fs) + (line + "\r"), tail])
  {
    var rest := line + "\r";
    forall j: nat | j < |rest| ensures !AtCrlf(rest, j) {
      if j + 2 <= |line| { assert !AtCrlf(line, j); }
    }
    EndOfLineIs(rest, 0);
    ParseReadsBack(num, fs, rest);
    JoinsTwo(TextOf(fs) + rest, tail);
    assert TooLong(Parse(num, Joined([TextOf(fs) + rest, tail][..1])).rest);
  }

  lemma {:induction false} TextSplits(fs: seq<Frame>, i: nat)
    requires i < |fs|
    ensures TextOf(fs) == TextOf(fs[..i]) + (Text(fs[i]) + TextOf(fs[i + 1..]))
  {
    if i == 0 {
      assert "" + (Text(fs[0]) + TextOf(fs[1..])) == Text(fs[0]) + TextOf(fs[1..]);
    } else {
      TextSplits(fs[1..], i - 1);
      assert fs[1..][..i - 1] == fs[..i][1..] && fs[1..][i..] == fs[i + 1..];
      Associates(Text(fs[0]), TextOf(fs[..i][1..]), Text(fs[i]) + TextOf(fs[i + 1..]));
    }
  }

  lemma CutLine(before: string, line: string, after: string, tail: string)
    ensures before + (line + CRLF + after) + tail == (before + (line + "\r")) + ("\n" + after + tail)
  {
    assert CRLF == "\r" + "\n";
  }

  lemma FrameIsCut(num: string -> Size, fs: seq<Frame>, i: nat, rest: string) returns (chunks: seq<string>)
    requires (forall f | f in fs :: Sendable(num, f)) && i < |fs| && |LineOf(fs[i])| >= MAX_LINE
    ensures Joined(chunks) == TextOf(fs) + rest && CutTooLong(num, chunks)
  {
    var f := fs[i];
    assert f in fs && OneLine(LineOf(f));
    var after := (if f.Line? then "" else f.payload + f.end) + TextOf(fs[i + 1..]);
    assert Text(f) + TextOf(fs[i + 1..]) == LineOf(f) + CRLF + after;
    TextSplits(fs, i);
    CutLine(TextOf(fs[..i]), LineOf(f), after, rest);
    LongLineIsCut(num, fs[..i], LineOf(f), "\n" + after + rest);
    JoinsTwo(TextOf(fs[..i]) + (LineOf(f) + "\r"), "\n" + after + rest);
    chunks := [TextOf(fs[..i]) + (LineOf(f) + "\r"), "\n" + after + rest];
  }

  lemma RestIsCut(num: string -> Size, fs: seq<Frame>, rest: string) returns (chunks: seq<string>)
    requires (forall f | f in fs :: Sendable(num, f)) && EndOfLine(rest, 0).Some? && EndOfLine(rest, 0).value >= MAX_LINE
    ensures Joined(chunks) == TextOf(fs) + rest && CutTooLong(num, chunks)
  {
    var e := EndOfLine(rest, 0).value;
    LineBeforeEnd(rest, e);
    var line, after := rest[..e], rest[e + 2..];
    LongLineIsCut(num, fs, line, "\n" + after + "");
    CutLine(TextOf(fs), line, after, "");
    JoinsTwo(TextOf(fs) + (line + "\r"), "\n" + after + "");
    assert TextOf(fs) + (line + CRLF + after) + "" == TextOf(fs) + rest;
    chunks := [TextOf(fs) + (line + "\r"), "\n" + after + ""];
  }

  lemma WholeIsCut(num: string -> Size, stream: string) returns (chunks: seq<string>)
    requires TooLong(Parse(num, stream).rest)
    ensures Joined(chunks) == stream && CutTooLong(num, chunks)
  {
    JoinsTwo(stream, "");
    assert stream + "" == stream;
    chunks := [stream, ""];
    assert TooLong(Parse(num, Joined(chunks[..1])).rest);
  }

  /** Exactly when no way of cutting a stream destroys the socket: every line of it is shorter than MAX_LINE. */
  lemma LinesFitIff(num: string -> Size, stream: string)
    ensures LinesFit(num, stream) <==> forall chunks | Joined(chunks) == stream :: !FeedAll(num, chunks).dead
  {
    if LinesFit(num, stream) {
      forall chunks | Joined(chunks) == stream ensures !FeedAll(num, chunks).dead {
        ShortLinesAreNeverCut(num, chunks);
        ChunksDoNotMatter(num, chunks);
      }
    } else {
      var p := Parse(num, stream);
      ParseIsExact(num, stream);
      var chunks;
      if f :| f in p.frames && |LineOf(f)| >= MAX_LINE {
        var i :| 0 <= i < |p.frames| && p.frames[i] == f;
        chunks := FrameIsCut(num, p.frames, i, p.rest);
      } else if EndOfLine(p.rest, 0).Some? {
        chunks := RestIsCut(num, p.frames, p.rest);
      } else {
        chunks := WholeIsCut(num, stream);
      }
      ChunksDoNotMatter(num, chunks);
    }
  }

  /** The cut decides: whole frames in one chunk are always handled, and some way of cutting them kills the connection if a line is long. */
  lemma LongLinesDependOnTheCut(num: string -> Size, fs: seq<Frame>)
    requires forall f | f in fs :: Sendable(num, f)
    ensures FeedAll(num, [TextOf(fs)]) == Reader("", fs, false, false)
    ensures (exists chunks | Joined(chunks) == TextOf(fs) :: FeedAll(num, chunks).dead) <==> exists f | f in fs :: |LineOf(f)| >= MAX_LINE
  {
    EndOfLineIs("", 0);
    ParseReadsBack(num, fs, "");
    assert TextOf(fs) + "" == TextOf(fs);
    assert [TextOf(fs)][..0] == [] && "" + TextOf(fs) == TextOf(fs);
    assert FeedAll(num, []) == Reader("", [], false, false);
    assert [] + fs == fs;
    LinesFitIff(num, TextOf(fs));
  }

  // ---------------------------------------------------------------- the object

  /** One connection's read side. */
  class Connection {
    const num: string -> Size
    var buf: string
    var handled: seq<Frame>
    var jammed: bool
    var dead: bool

    constructor (number: string -> Size)
      ensures num == number && State() == Reader("", [], false, false)
    {
      num := number;
      buf, handled, jammed, dead := "", [], false, false;
    }

    function State(): Reader
      reads this
    {
      Reader(buf, handled, jammed, dead)
    }

    /** The first frame of the buffer. */
    method TakeFrame() returns (t: Taken)
      ensures t == Take(num, buf)
    {
      EndOfLineIs(buf, 0);
      var eol := EndOfLine(buf, 0);
      if eol.None? { return Wait; }
      var line, start := buf[..eol.value], eol.value + 2;
      if OpOf(line) != "MSG" { return Got(Line(line), buf[start..]); }
      var bytes := CountOf(num, line);
      if bytes.NotANumber? { return Jam; }
      if bytes.Endless? || |buf| < start + bytes.n + 2 { return Wait; }
      TakesMessage(num, buf, eol.value, bytes.n);
      var end := start + bytes.n;
      t := Got(Message(line, buf[start..end], buf[end..end + 2]), buf[end + 2..]);
    }

    /** The data handler: cut whole frames off the buffer until what is left is none. */
    method Data(chunk: string)
      modifies this
      ensures State() == Feed(num, old(State()), chunk)
    {
      if dead || jammed { return; }
      ghost var was, done := handled, [];
      ghost var whole := buf + chunk;
      buf := if |buf| > 0 then buf + chunk else chunk;
      assert buf == whole && [] + Parse(num, whole).frames == Parse(num, whole).frames;
      while true
        invariant !dead && !jammed && handled == was + done
        invariant Parse(num, whole) == Parsed(done + Parse(num, buf).frames, Parse(num, buf).rest, Parse(num, buf).jammed)
        decreases |buf|
      {
        var t := TakeFrame();
        match t
        case Wait =>
          if EndOfLine(buf, 0).None? && |buf| > MAX_LINE { dead := true; }
          assert Parse(num, whole) == Parsed(done + [], buf, false);
          return;
        case Jam =>
          jammed := true;
          EndOfLineIs(buf, 0);
          assert Parse(num, whole) == Parsed(done + [], buf, true);
          return;
        case Got(f, rest) =>
          TakenNext(num, whole, done, buf);
          handled := handled + [f];
          done := done + [f];
          buf := rest;
      }
    }
  }

  lemma TakesMessage(num: string -> Size, buf: string, e: nat, n: nat)
    requires EndOfLine(buf, 0) == Some(e) && e + 2 + n + 2 <= |buf| && OpOf(buf[..e]) == "MSG" && CountOf(num, buf[..e]) == Bytes(n)
    ensures Take(num, buf) == Got(Message(buf[..e], buf[e + 2..e + 2 + n], buf[e + 2 + n..e + 2 + n + 2]), buf[e + 2 + n + 2..])
  {
    var body := buf[e + 2..];
    assert body[..n] == buf[e + 2..e + 2 + n] && body[n..n + 2] == buf[e + 2 + n..e + 2 + n + 2] && body[n + 2..] == buf[e + 2 + n + 2..];
  }

  lemma TakenNext(num: string -> Size, whole: string, done: seq<Frame>, buf: string)
    requires Take(num, buf).Got? && Parse(num, whole) == Parsed(done + Parse(num, buf).frames, Parse(num, buf).rest, Parse(num, buf).jammed)
    ensures var rest := Take(num, buf).rest;
      |rest| < |buf| && Parse(num, whole) == Parsed(done + [Take(num, buf).frame] + Parse(num, rest).frames, Parse(num, rest).rest, Parse(num, rest).jammed)
  {
    TakeShortens(num, buf);
    var rest := Take(num, buf).rest;
    assert done + ([Take(num, buf).frame] + Parse(num, rest).frames) == done + [Take(num, buf).frame] + Parse(num, rest).frames;
  }

  // ---------------------------------------------------------------- message headers

  datatype Meta = Meta(subject: string, sid: nat, reply: Option<string>)

  /** What a MSG line says of its message. */
  function MetaOf(head: string): Option<Meta> {
    var ws := Words(head);
    if |ws| < 3 || !Cursor.Digits(ws[2]) then None
    else Some(Meta(ws[1], Cursor.ValueOf(ws[2]), if |ws| == 5 then Some(ws[3]) else None))
  }

  /** MSG subject sid [reply-to] #bytes */
  function HeaderWords(m: Meta, n: nat): seq<string> {
    var sid, count := Cursor.Decimal(m.sid), Cursor.Decimal(n);
    if m.reply.Some? then ["MSG", m.subject, sid, m.reply.value, count] else ["MSG", m.subject, sid, count]
  }

  predicate Token(w: string) { forall i | 0 <= i < |w| :: w[i] != ' ' && w[i] != '\r' }

  lemma {:induction false} NoReturns(ws: seq<string>)
    requires ws != [] && forall w | w in ws :: Token(w)
    ensures forall i | 0 <= i < |Unwords(ws)| :: Unwords(ws)[i] != '\r'
  {
    assert Token(ws[0]);
    if |ws| > 1 { NoReturns(ws[1..]); }
  }

  lemma DecimalIsToken(n: nat)
    ensures Token(Cursor.Decimal(n)) && Cursor.Digits(Cursor.Decimal(n)) && Cursor.ValueOf(Cursor.Decimal(n)) == n
  {
    Cursor.DecimalReadsBack(n);
    forall i | 0 <= i < |Cursor.Decimal(n)| ensures Cursor.Decimal(n)[i] != ' ' && Cursor.Decimal(n)[i] != '\r' {
      assert Cursor.Digit(Cursor.Decimal(n)[i]);
    }
  }

  lemma HeaderWordsAreTokens(m: Meta, n: nat)
    requires Token(m.subject) && (m.reply.Some? ==> Token(m.reply.value))
    ensures forall w | w in HeaderWords(m, n) :: Token(w)
  {
    DecimalIsToken(n);
    DecimalIsToken(m.sid);
    assert Token("MSG");
  }

  lemma HeaderReadsBack(m: Meta, n: nat)
    requires Token(m.subject) && (m.reply.Some? ==> Token(m.reply.value))
    ensures var head := Unwords(HeaderWords(m, n)); Words(head) == HeaderWords(m, n) && OneLine(head)
  {
    HeaderWordsAreTokens(m, n);
    forall w | w in HeaderWords(m, n) ensures Spaceless(w) { assert Token(w); }
    WordsOfUnwords(HeaderWords(m, n));
    NoReturns(HeaderWords(m, n));
  }

  lemma HeaderMeans(num: string -> Size, m: Meta, n: nat, head: string)
    requires Words(head) == HeaderWords(m, n)
    ensures OpOf(head) == "MSG" && CountOf(num, head) == Bytes(n) && MetaOf(head) == Some(m)
  {
    DecimalIsToken(n);
    DecimalIsToken(m.sid);
    assert Upper("MSG") == "MSG";
  }

  /** Any message is a frame the reader hands over whole: its subject, subscription, reply subject and every payload byte. */
  lemma MessagesReadBack(num: string -> Size, m: Meta, payload: string, tail: string)
    requires Token(m.subject) && (m.reply.Some? ==> Token(m.reply.value))
    ensures var head := Unwords(HeaderWords(m, |payload|));
      var f := Message(head, payload, CRLF);
      Take(num, Text(f) + tail) == Got(f, tail) && MetaOf(head) == Some(m)
  {
    var head := Unwords(HeaderWords(m, |payload|));
    HeaderReadsBack(m, |payload|);
    HeaderMeans(num, m, |payload|, head);
    TakesWhatWasSent(num, Message(head, payload, CRLF), tail);
  }
}
