/** Topic patterns: validity, the compiled regular expression, and the ILIKE form that narrows a scan. */
module Topics {
  import opened Wrappers

  // ---------------------------------------------------------------- segments

  predicate WordChar(c: char) { 'a' <= c <= 'z' || '0' <= c <= '9' || c == '_' }

  predicate Word(s: string) { s != "" && forall i | 0 <= i < |s| :: WordChar(s[i]) }

  predicate Words(ts: seq<string>) { forall i | 0 <= i < |ts| :: Word(ts[i]) }

  function Split(s: string): (ts: seq<string>)
    ensures ts != []
  {
    if s == "" then [""]
    else if s[0] == '.' then [""] + Split(s[1..])
    else
      var rest := Split(s[1..]);
      [[s[0]] + rest[0]] + rest[1..]
  }

  function Join(ts: seq<string>): string
    requires ts != []
  {
    if |ts| == 1 then ts[0] else ts[0] + "." + Join(ts[1..])
  }

  lemma JoinDot(ts: seq<string>)
    requires ts != []
    ensures Join([""] + ts) == "." + Join(ts)
  {
    assert ([""] + ts)[1..] == ts;
    assert "" + "." + Join(ts) == "." + Join(ts);
  }

  lemma JoinChar(c: char, ts: seq<string>)
    requires ts != []
    ensures Join([[c] + ts[0]] + ts[1..]) == [c] + Join(ts)
  {
    var us := [[c] + ts[0]] + ts[1..];
    assert us[1..] == ts[1..];
    if |ts| > 1 { assert [c] + ts[0] + "." + Join(ts[1..]) == [c] + (ts[0] + "." + Join(ts[1..])); }
  }

  lemma {:induction false} JoinSplit(s: string)
    ensures Join(Split(s)) == s
  {
    if s != "" {
      JoinSplit(s[1..]);
      if s[0] == '.' { JoinDot(Split(s[1..])); } else { JoinChar(s[0], Split(s[1..])); }
      assert s == [s[0]] + s[1..];
    }
  }

  predicate DotFree(w: string) { forall i | 0 <= i < |w| :: w[i] != '.' }

  lemma {:induction false} SplitAhead(w: string, rest: string)
    requires DotFree(w)
    ensures Split(w + rest) == [w + Split(rest)[0]] + Split(rest)[1..]
  {
    if w == "" {
      assert w + rest == rest;
      assert "" + Split(rest)[0] == Split(rest)[0];
    } else {
      SplitAhead(w[1..], rest);
      assert (w + rest)[1..] == w[1..] + rest;
      var inner := Split(w[1..] + rest);
      assert inner[0] == w[1..] + Split(rest)[0] && inner[1..] == Split(rest)[1..];
      assert [w[0]] + inner[0] == w + Split(rest)[0];
    }
  }

  lemma SplitWord(w: string)
    requires DotFree(w)
    ensures Split(w) == [w]
  {
    SplitAhead(w, "");
    assert w + "" == w;
  }

  lemma SplitFirst(w: string, rest: string)
    requires DotFree(w)
    ensures Split(w + "." + rest) == [w] + Split(rest)
  {
    var tail := "." + rest;
    SplitAhead(w, tail);
    assert tail[1..] == rest && Split(tail) == [""] + Split(rest);
    assert w + "." + rest == w + tail && w + "" == w;
  }

  lemma {:induction false} SplitJoin(ts: seq<string>)
    requires ts != [] && Words(ts)
    ensures Split(Join(ts)) == ts
  {
    if |ts| == 1 {
      SplitWord(ts[0]);
    } else {
      SplitJoin(ts[1..]);
      SplitFirst(ts[0], Join(ts[1..]));
    }
  }

  lemma {:induction false} JoinTwo(a: seq<string>, b: seq<string>)
    requires a != [] && b != []
    ensures Join(a + b) == Join(a) + ("." + Join(b))
  {
    if |a| == 1 {
      assert (a + b)[1..] == b;
      assert Join(a + b) == a[0] + "." + Join(b);
    } else {
      JoinTwo(a[1..], b);
      assert (a + b)[1..] == a[1..] + b;
      assert a[0] + "." + (Join(a[1..]) + ("." + Join(b))) == a[0] + "." + Join(a[1..]) + ("." + Join(b));
    }
  }

  // ---------------------------------------------------------------- patterns

  const STAR := "*"

  predicate OccursAt(s: string, part: string, i: nat) { i + |part| <= |s| && s[i..i + |part|] == part }

  predicate Includes(s: string, part: string) { exists i: nat | i <= |s| :: OccursAt(s, part, i) }

  predicate IsValidPattern(p: string) {
    && 0 < |p| <= 200
    && (forall i | 0 <= i < |Split(p)| :: Split(p)[i] == STAR || Word(Split(p)[i]))
    && !Includes(p, "*.*")
  }

  /** What a pattern promises: every `*` stands for one or more whole segments, every other segment for itself. */
  predicate Expands(ps: seq<string>, ts: seq<string>) {
    if ps == [] then ts == []
    else if ps[0] == STAR then exists k | 1 <= k <= |ts| :: Words(ts[..k]) && Expands(ps[1..], ts[k..])
    else ts != [] && ts[0] == ps[0] && Expands(ps[1..], ts[1..])
  }

  predicate Selects(pattern: string, eventType: string) { Expands(Split(pattern), Split(eventType)) }

  // ---------------------------------------------------------------- the compiled expression

  datatype Re = Empty | Char(c: char) | Class | Then(first: Re, second: Re) | Many(body: Re)

  /** The texts a regular expression matches in full. `Class` is [a-z0-9_]. */
  predicate Accepts(r: Re, s: string)
    decreases r, |s|
  {
    match r
    case Empty => s == ""
    case Char(c) => s == [c]
    case Class => |s| == 1 && WordChar(s[0])
    case Then(a, b) => exists i | 0 <= i <= |s| :: Accepts(a, s[..i]) && Accepts(b, s[i..])
    case Many(a) => s == "" || exists i | 0 < i <= |s| :: Accepts(a, s[..i]) && Accepts(r, s[i..])
  }

  function Plus(r: Re): Re { Then(r, Many(r)) }

  function Literal(s: string): Re { if s == "" then Empty else Then(Char(s[0]), Literal(s[1..])) }

  const ANY_SEGMENTS := Then(Plus(Class), Many(Then(Char('.'), Plus(Class))))

  function SegmentRe(seg: string): Re { if seg == STAR then ANY_SEGMENTS else Literal(seg) }

  function SegmentsRe(ps: seq<string>): Re
    requires ps != []
  {
    if |ps| == 1 then SegmentRe(ps[0]) else Then(SegmentRe(ps[0]), Then(Char('.'), SegmentsRe(ps[1..])))
  }

  datatype Invalid = InvalidPattern

  function CompileRe(pattern: string): Result<Re, Invalid> {
    if IsValidPattern(pattern) then Ok(SegmentsRe(Split(pattern))) else Err(InvalidPattern)
  }

  predicate Matches(pattern: string, eventType: string) {
    CompileRe(pattern).Ok? && Accepts(CompileRe(pattern).value, eventType)
  }

  // ---------------------------------------------------------------- building and taking apart

  lemma ThenOf(a: Re, b: Re, x: string, y: string)
    requires Accepts(a, x) && Accepts(b, y)
    ensures Accepts(Then(a, b), x + y)
  {
    assert (x + y)[..|x|] == x && (x + y)[|x|..] == y;
  }

  lemma ThenParts(a: Re, b: Re, s: string) returns (x: string, y: string)
    requires Accepts(Then(a, b), s)
    ensures s == x + y && Accepts(a, x) && Accepts(b, y)
  {
    var i :| 0 <= i <= |s| && Accepts(a, s[..i]) && Accepts(b, s[i..]);
    x, y := s[..i], s[i..];
  }

  lemma ManyOf(a: Re, x: string, y: string)
    requires x != "" && Accepts(a, x) && Accepts(Many(a), y)
    ensures Accepts(Many(a), x + y)
  {
    assert (x + y)[..|x|] == x && (x + y)[|x|..] == y;
  }

  lemma ManyParts(a: Re, s: string) returns (x: string, y: string)
    requires Accepts(Many(a), s) && s != ""
    ensures s == x + y && x != "" && Accepts(a, x) && Accepts(Many(a), y)
  {
    var i :| 0 < i <= |s| && Accepts(a, s[..i]) && Accepts(Many(a), s[i..]);
    x, y := s[..i], s[i..];
  }

  lemma {:induction false} LiteralAccepts(lit: string)
    ensures Accepts(Literal(lit), lit)
  {
    if lit != "" {
      LiteralAccepts(lit[1..]);
      ThenOf(Char(lit[0]), Literal(lit[1..]), [lit[0]], lit[1..]);
      assert lit == [lit[0]] + lit[1..];
    }
  }

  lemma {:induction false} LiteralIsExact(lit: string, s: string)
    requires Accepts(Literal(lit), s)
    ensures s == lit
  {
    if lit != "" {
      var x, y := ThenParts(Char(lit[0]), Literal(lit[1..]), s);
      LiteralIsExact(lit[1..], y);
    }
  }

  predicate WordChars(s: string) { forall i | 0 <= i < |s| :: WordChar(s[i]) }

  lemma {:induction false} ManyAccepts(s: string)
    requires WordChars(s)
    ensures Accepts(Many(Class), s)
  {
    if s != "" {
      ManyAccepts(s[1..]);
      ManyOf(Class, [s[0]], s[1..]);
      assert s == [s[0]] + s[1..];
    }
  }

  lemma {:induction false} ManyAreWordChars(s: string)
    requires Accepts(Many(Class), s)
    ensures WordChars(s)
    decreases |s|
  {
    if s != "" {
      var x, y := ManyParts(Class, s);
      ManyAreWordChars(y);
    }
  }

  lemma AcceptsWord(s: string)
    ensures Accepts(Plus(Class), s) <==> Word(s)
  {
    if Accepts(Plus(Class), s) {
      var x, y := ThenParts(Class, Many(Class), s);
      ManyAreWordChars(y);
    }
    if Word(s) {
      ManyAccepts(s[1..]);
      ThenOf(Class, Many(Class), [s[0]], s[1..]);
      assert s == [s[0]] + s[1..];
    }
  }

  /** `.w` for each word in turn. */
  function Dotted(ws: seq<string>): string { if ws == [] then "" else "." + ws[0] + Dotted(ws[1..]) }

  lemma {:induction false} JoinDotted(w: string, ws: seq<string>)
    ensures Join([w] + ws) == w + Dotted(ws)
    decreases |ws|
  {
    if ws != [] {
      JoinDotted(ws[0], ws[1..]);
      assert [ws[0]] + ws[1..] == ws;
      assert ([w] + ws)[1..] == ws;
    }
  }

  const DOT_WORD := Then(Char('.'), Plus(Class))

  lemma {:induction false} DottedFrom(s: string) returns (ws: seq<string>)
    requires Accepts(Many(DOT_WORD), s)
    ensures Words(ws) && s == Dotted(ws)
    decreases |s|
  {
    ws := [];
    if s != "" {
      var head, tail := ManyParts(DOT_WORD, s);
      var dot, w := ThenParts(Char('.'), Plus(Class), head);
      AcceptsWord(w);
      assert |tail| < |s|;
      var more := DottedFrom(tail);
      ws := [w] + more;
    }
  }

  lemma {:induction false} DottedIsAccepted(ws: seq<string>)
    requires Words(ws)
    ensures Accepts(Many(DOT_WORD), Dotted(ws))
  {
    if ws != [] {
      DottedIsAccepted(ws[1..]);
      AcceptsWord(ws[0]);
      ThenOf(Char('.'), Plus(Class), ".", ws[0]);
      ManyOf(DOT_WORD, "." + ws[0], Dotted(ws[1..]));
    }
  }

  /** The expression for `*` accepts exactly the texts made of one or more whole segments. */
  lemma AnySegmentsFrom(s: string) returns (ts: seq<string>)
    requires Accepts(ANY_SEGMENTS, s)
    ensures ts != [] && Words(ts) && s == Join(ts)
  {
    var w, tail := ThenParts(Plus(Class), Many(DOT_WORD), s);
    AcceptsWord(w);
    var ws := DottedFrom(tail);
    JoinDotted(w, ws);
    ts := [w] + ws;
  }

  lemma SegmentsAreAccepted(ts: seq<string>)
    requires ts != [] && Words(ts)
    ensures Accepts(ANY_SEGMENTS, Join(ts))
  {
    AcceptsWord(ts[0]);
    DottedIsAccepted(ts[1..]);
    ThenOf(Plus(Class), Many(DOT_WORD), ts[0], Dotted(ts[1..]));
    JoinDotted(ts[0], ts[1..]);
    assert [ts[0]] + ts[1..] == ts;
  }

  predicate PatternSegments(ps: seq<string>) { ps != [] && forall i | 0 <= i < |ps| :: ps[i] == STAR || Word(ps[i]) }

  /** The segments one pattern segment may stand for. */
  predicate Covers(seg: string, ts: seq<string>) { ts != [] && if seg == STAR then Words(ts) else ts == [seg] }

  lemma ExpandsOf(ps: seq<string>, a: seq<string>, b: seq<string>)
    requires ps != [] && Covers(ps[0], a) && Expands(ps[1..], b)
    ensures Expands(ps, a + b)
  {
    assert (a + b)[..|a|] == a && (a + b)[|a|..] == b;
  }

  lemma ExpandsParts(ps: seq<string>, ts: seq<string>) returns (a: seq<string>, b: seq<string>)
    requires ps != [] && Expands(ps, ts)
    ensures ts == a + b && Covers(ps[0], a) && Expands(ps[1..], b)
  {
    var k := 1;
    if ps[0] == STAR {
      k :| 1 <= k <= |ts| && Words(ts[..k]) && Expands(ps[1..], ts[k..]);
    }
    a, b := ts[..k], ts[k..];
  }

  lemma SegmentFrom(seg: string, s: string) returns (ts: seq<string>)
    requires (seg == STAR || Word(seg)) && Accepts(SegmentRe(seg), s)
    ensures Covers(seg, ts) && Words(ts) && s == Join(ts)
  {
    if seg == STAR { ts := AnySegmentsFrom(s); } else { LiteralIsExact(seg, s); ts := [seg]; }
  }

  lemma SegmentAccepts(seg: string, ts: seq<string>)
    requires (seg == STAR || Word(seg)) && Covers(seg, ts)
    ensures Words(ts) && Accepts(SegmentRe(seg), Join(ts))
  {
    if seg == STAR { SegmentsAreAccepted(ts); } else { LiteralAccepts(seg); }
  }

  lemma RestFrom(ps: seq<string>, s: string) returns (a: seq<string>, y: string)
    requires PatternSegments(ps) && |ps| > 1 && Accepts(SegmentsRe(ps), s)
    ensures Covers(ps[0], a) && Words(a) && s == Join(a) + ("." + y) && Accepts(SegmentsRe(ps[1..]), y)
  {
    var x, tail := ThenParts(SegmentRe(ps[0]), Then(Char('.'), SegmentsRe(ps[1..])), s);
    var dot;
    dot, y := ThenParts(Char('.'), SegmentsRe(ps[1..]), tail);
    a := SegmentFrom(ps[0], x);
  }

  lemma RestAccepts(ps: seq<string>, a: seq<string>, y: string)
    requires PatternSegments(ps) && |ps| > 1 && Covers(ps[0], a) && Accepts(SegmentsRe(ps[1..]), y)
    ensures Words(a) && Accepts(SegmentsRe(ps), Join(a) + ("." + y))
  {
    SegmentAccepts(ps[0], a);
    ThenOf(Char('.'), SegmentsRe(ps[1..]), ".", y);
    ThenOf(SegmentRe(ps[0]), Then(Char('.'), SegmentsRe(ps[1..])), Join(a), "." + y);
  }

  /** A text the compiled expression accepts is a list of words the pattern expands to. */
  lemma {:induction false} AcceptedExpands(ps: seq<string>, s: string) returns (ts: seq<string>)
    requires PatternSegments(ps) && Accepts(SegmentsRe(ps), s)
    ensures ts != [] && Words(ts) && s == Join(ts) && Expands(ps, ts)
    decreases |ps|
  {
    if |ps| == 1 {
      ts := SegmentFrom(ps[0], s);
      ExpandsOf(ps, ts, []);
      assert ts + [] == ts;
    } else {
      var a, y := RestFrom(ps, s);
      var b := AcceptedExpands(ps[1..], y);
      JoinTwo(a, b);
      ExpandsOf(ps, a, b);
      ts := a + b;
    }
  }

  lemma {:induction false} ExpandsAccepted(ps: seq<string>, ts: seq<string>)
    requires PatternSegments(ps) && Expands(ps, ts)
    ensures ts != [] && Words(ts) && Accepts(SegmentsRe(ps), Join(ts))
    decreases |ps|
  {
    var a, b := ExpandsParts(ps, ts);
    if |ps| == 1 {
      SegmentAccepts(ps[0], a);
      assert ts == a;
    } else {
      ExpandsAccepted(ps[1..], b);
      RestAccepts(ps, a, Join(b));
      JoinTwo(a, b);
    }
  }

  /** The compiled expression accepts a text exactly when every `*` can stand for one or more whole segments of it. */
  lemma MatchesIffSelects(pattern: string, eventType: string)
    requires IsValidPattern(pattern)
    ensures Matches(pattern, eventType) <==> Selects(pattern, eventType)
    ensures Matches(pattern, eventType) ==> Words(Split(eventType))
  {
    var ps := Split(pattern);
    if Matches(pattern, eventType) {
      var ts := AcceptedExpands(ps, eventType);
      SplitJoin(ts);
    }
    if Selects(pattern, eventType) {
      ExpandsAccepted(ps, Split(eventType));
      JoinSplit(eventType);
    }
  }

  // ---------------------------------------------------------------- the ILIKE form

  function LikeOf(c: char): string { if c == '_' then "\\_" else if c == '*' then "%" else [c] }

  function ToLike(pattern: string): string { if pattern == "" then "" else LikeOf(pattern[0]) + ToLike(pattern[1..]) }

  function Fold(c: char): char { if 'A' <= c <= 'Z' then c - 'A' + 'a' else c }

  /** PostgreSQL's ILIKE with ESCAPE '\': `%` any text, `_` any character, letters without case. */
  predicate ILike(pat: string, s: string) {
    if pat == "" then s == ""
    else if pat[0] == '%' then exists i | 0 <= i <= |s| :: ILike(pat[1..], s[i..])
    else if pat[0] == '\\' && |pat| > 1 then s != "" && Fold(s[0]) == Fold(pat[1]) && ILike(pat[2..], s[1..])
    else if pat[0] == '_' then s != "" && ILike(pat[1..], s[1..])
    else s != "" && Fold(s[0]) == Fold(pat[0]) && ILike(pat[1..], s[1..])
  }

  lemma {:induction false} ToLikeJoins(a: string, b: string)
    ensures ToLike(a + b) == ToLike(a) + ToLike(b)
  {
    if a == "" {
      assert a + b == b;
    } else {
      ToLikeJoins(a[1..], b);
      assert (a + b)[1..] == a[1..] + b && (a + b)[0] == a[0];
      assert LikeOf(a[0]) + (ToLike(a[1..]) + ToLike(b)) == LikeOf(a[0]) + ToLike(a[1..]) + ToLike(b);
    }
  }

  lemma {:induction false} LikeLiteral(w: string, pat: string, s: string)
    requires (forall i | 0 <= i < |w| :: WordChar(w[i]) || w[i] == '.') && ILike(pat, s)
    ensures ILike(ToLike(w) + pat, w + s)
  {
    if w == "" {
      assert ToLike(w) + pat == pat && w + s == s;
    } else {
      LikeLiteral(w[1..], pat, s);
      var rest := ToLike(w[1..]) + pat;
      assert ToLike(w) + pat == LikeOf(w[0]) + rest;
      assert (LikeOf(w[0]) + rest)[|LikeOf(w[0])|..] == rest;
      assert (w + s)[1..] == w[1..] + s;
      assert w[0] != '%' && w[0] != '\\';
    }
  }

  lemma LikeStar(pat: string, a: string, s: string)
    requires ILike(pat, s)
    ensures ILike("%" + pat, a + s)
  {
    assert ("%" + pat)[1..] == pat && (a + s)[|a|..] == s;
  }

  lemma LikeSegment(seg: string, ts: seq<string>, pat: string, s: string)
    requires (seg == STAR || Word(seg)) && Covers(seg, ts) && ILike(pat, s)
    ensures ILike(ToLike(seg) + pat, Join(ts) + s)
  {
    if seg == STAR {
      LikeStar(pat, Join(ts), s);
      assert ToLike(STAR) == "%";
    } else {
      LikeLiteral(seg, pat, s);
    }
  }

  lemma LikeRest(seg: string, ts: seq<string>, pattern: string, s: string)
    requires (seg == STAR || Word(seg)) && Covers(seg, ts) && ILike(ToLike(pattern), s)
    ensures ILike(ToLike(seg + ("." + pattern)), Join(ts) + ("." + s))
  {
    LikeLiteral(".", ToLike(pattern), s);
    ToLikeJoins(".", pattern);
    LikeSegment(seg, ts, ToLike("." + pattern), "." + s);
    ToLikeJoins(seg, "." + pattern);
  }

  lemma {:induction false} ExpandsLike(ps: seq<string>, ts: seq<string>)
    requires PatternSegments(ps) && Expands(ps, ts)
    ensures ts != [] && ILike(ToLike(Join(ps)), Join(ts))
    decreases |ps|
  {
    var a, b := ExpandsParts(ps, ts);
    if |ps| == 1 {
      LikeSegment(ps[0], a, "", "");
      assert ts == a && ToLike(ps[0]) + "" == ToLike(ps[0]) && Join(a) + "" == Join(a);
    } else {
      ExpandsLike(ps[1..], b);
      LikeRest(ps[0], a, Join(ps[1..]), Join(b));
      JoinTwo(a, b);
      JoinTwo([ps[0]], ps[1..]);
      assert [ps[0]] + ps[1..] == ps;
    }
  }

  /** The narrowed query returns every row the pattern matches (and possibly more). */
  lemma LikeIsASuperset(pattern: string, eventType: string)
    requires Matches(pattern, eventType)
    ensures ILike(ToLike(pattern), eventType)
  {
    MatchesIffSelects(pattern, eventType);
    ExpandsLike(Split(pattern), Split(eventType));
    JoinSplit(pattern);
    JoinSplit(eventType);
  }

  // ---------------------------------------------------------------- ILIKE is not exact

  /** The same comparison with letters as they are. */
  predicate Like(pat: string, s: string) {
    if pat == "" then s == ""
    else if pat[0] == '%' then exists i | 0 <= i <= |s| :: Like(pat[1..], s[i..])
    else if pat[0] == '\\' && |pat| > 1 then s != "" && s[0] == pat[1] && Like(pat[2..], s[1..])
    else if pat[0] == '_' then s != "" && Like(pat[1..], s[1..])
    else s != "" && s[0] == pat[0] && Like(pat[1..], s[1..])
  }

  predicate Lower(s: string) { forall i | 0 <= i < |s| :: !('A' <= s[i] <= 'Z') }

  function Folded(s: string): string { seq(|s|, i requires 0 <= i < |s| => Fold(s[i])) }

  lemma FoldedLower(s: string)
    requires Lower(s)
    ensures Folded(s) == s
  {
  }

  /** With a lower-case pattern ILIKE is the exact comparison of the text in lower case. */
  lemma {:induction false} ILikeFolds(pat: string, s: string)
    requires Lower(pat)
    ensures ILike(pat, s) <==> Like(pat, Folded(s))
    decreases |pat|
  {
    if pat == "" {
    } else if pat[0] == '%' {
      forall i | 0 <= i <= |s| ensures ILike(pat[1..], s[i..]) <==> Like(pat[1..], Folded(s)[i..]) {
        ILikeFolds(pat[1..], s[i..]);
        assert Folded(s[i..]) == Folded(s)[i..];
      }
    } else if s != "" {
      var skip := if pat[0] == '\\' && |pat| > 1 then 2 else 1;
      ILikeFolds(pat[skip..], s[1..]);
      assert Folded(s[1..]) == Folded(s)[1..];
    }
  }

  /** So the two agree on lower-case texts, and a capital letter alone tells them apart. */
  lemma ILikeIsExactOnLower(pat: string, s: string)
    requires Lower(pat)
    ensures Lower(s) ==> (ILike(pat, s) <==> Like(pat, s))
    ensures ILike("a", "A") && !Like("a", "A")
  {
    ILikeFolds(pat, s);
    if Lower(s) { FoldedLower(s); }
    assert ILike("a"[1..], "A"[1..]);
  }

  // ---------------------------------------------------------------- the memo

  /** compile() with its cache, emptied when it holds more than 5000 patterns. */
  class Compiler {
    var cache: map<string, Re>

    constructor ()
      ensures Valid()
    {
      cache := map[];
    }

    ghost predicate Valid()
      reads this
    {
      forall p | p in cache :: CompileRe(p) == Ok(cache[p])
    }

    /** Whatever was compiled or dropped before, the answer is the pattern's own expression. */
    method Compile(pattern: string) returns (r: Result<Re, Invalid>)
      requires Valid()
      modifies this
      ensures Valid() && r == CompileRe(pattern)
      ensures |cache| <= if |old(cache)| > 5001 then |old(cache)| else 5001
    {
      if pattern in cache { return Ok(cache[pattern]); }
      if !IsValidPattern(pattern) { return Err(InvalidPattern); }
      var re := SegmentsRe(Split(pattern));
      if |cache| > 5000 { cache := map[]; }
      assert |cache[pattern := re]| <= |cache| + 1;
      cache := cache[pattern := re];
      return Ok(re);
    }
  }
}
