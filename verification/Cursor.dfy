/** Opaque cursors: a position of the log with its retention epoch, printed and read back. */
module Cursor {
  import opened Wrappers
  import opened Topics

  const VERSION := "c1"
  const MAX_LENGTH := 200
  const MAX_SAFE := 9007199254740991
  const EPOCH_BOUND := 1000000000000000

  datatype Position = Position(pos: nat, epoch: nat)

  // ---------------------------------------------------------------- decimal numbers

  predicate Digit(c: char) { '0' <= c <= '9' }

  predicate Digits(s: string) { s != "" && forall i | 0 <= i < |s| :: Digit(s[i]) }

  function Decimal(n: nat): string { (if n < 10 then "" else Decimal(n / 10)) + [('0' as int + n % 10) as char] }

  function ValueOf(s: string): nat
    requires forall i | 0 <= i < |s| :: Digit(s[i])
  {
    if s == "" then 0
    else
      assert Digit(s[|s| - 1]);
      10 * ValueOf(s[..|s| - 1]) + (s[|s| - 1] as int - '0' as int)
  }

  lemma ValueOfNext(s: string, d: nat)
    requires d < 10 && forall i | 0 <= i < |s| :: Digit(s[i])
    ensures var t := s + [('0' as int + d) as char]; Digits(t) && ValueOf(t) == 10 * ValueOf(s) + d
  {
    var t := s + [('0' as int + d) as char];
    assert t[..|t| - 1] == s;
  }

  lemma {:induction false} DecimalReadsBack(n: nat)
    ensures Digits(Decimal(n)) && ValueOf(Decimal(n)) == n
  {
    if n < 10 {
      ValueOfNext("", n);
    } else {
      DecimalReadsBack(n / 10);
      ValueOfNext(Decimal(n / 10), n % 10);
    }
  }

  function Power(k: nat): nat { if k == 0 then 1 else 10 * Power(k - 1) }

  /** A number has at most k digits exactly when it is below ten to the k. */
  lemma {:induction false} DecimalLength(n: nat, k: nat)
    requires k > 0
    ensures |Decimal(n)| <= k <==> n < Power(k)
  {
    if n < 10 {
      PowerIsAtLeastTen(k);
    } else if k == 1 {
      assert Power(1) == 10 * Power(0);
    } else {
      DecimalLength(n / 10, k - 1);
    }
  }

  lemma {:induction false} PowerIsAtLeastTen(k: nat)
    requires k > 0
    ensures Power(k) >= 10
  {
    if k > 1 { PowerIsAtLeastTen(k - 1); }
  }

  // ---------------------------------------------------------------- base64url (section 5 of RFC 4648, unpadded)

  type Byte = b: nat | b < 256
  type Sextet = b: nat | b < 64

  function Letter(x: Sextet): (c: char)
    ensures Alphabet(c) && SextetOf(c) == x
  {
    if x < 26 then ('A' as int + x) as char
    else if x < 52 then ('a' as int + x - 26) as char
    else if x < 62 then ('0' as int + x - 52) as char
    else if x == 62 then '-' else '_'
  }

  predicate Alphabet(c: char) { 'A' <= c <= 'Z' || 'a' <= c <= 'z' || Digit(c) || c == '-' || c == '_' }

  function SextetOf(c: char): Sextet
    requires Alphabet(c)
  {
    if 'A' <= c <= 'Z' then c as int - 'A' as int
    else if 'a' <= c <= 'z' then c as int - 'a' as int + 26
    else if Digit(c) then c as int - '0' as int + 52
    else if c == '-' then 62 else 63
  }

  predicate Lettered(s: string) { forall i | 0 <= i < |s| :: Alphabet(s[i]) }

  function Letters(xs: seq<Sextet>): (s: string)
    ensures Lettered(s) && |s| == |xs| && Sextets(s) == xs
  {
    seq(|xs|, i requires 0 <= i < |xs| => Letter(xs[i]))
  }

  function Sextets(s: string): seq<Sextet>
    requires Lettered(s)
  {
    seq(|s|, i requires 0 <= i < |s| => SextetOf(s[i]))
  }

  lemma LettersOfSextets(s: string)
    requires Lettered(s)
    ensures Letters(Sextets(s)) == s
  {
  }

  /** Three bytes are four groups of six bits; a shorter end is padded with zero bits. */
  function Spread(bs: seq<Byte>): seq<Sextet> {
    if bs == [] then []
    else if |bs| == 1 then [bs[0] / 4, bs[0] % 4 * 16]
    else if |bs| == 2 then [bs[0] / 4, bs[0] % 4 * 16 + bs[1] / 16, bs[1] % 16 * 4]
    else [bs[0] / 4, bs[0] % 4 * 16 + bs[1] / 16, bs[1] % 16 * 4 + bs[2] / 64, bs[2] % 64] + Spread(bs[3..])
  }

  function High(a: int, b: int): int { a * 4 + b / 16 }
  function Middle(b: int, c: int): int { b % 16 * 16 + c / 4 }
  function Low(c: int, d: int): int { c % 4 * 64 + d }

  /** The reader is lenient: a last lone letter, and the spare bits of a last short group, are dropped. */
  function Gather(xs: seq<Sextet>): seq<Byte> {
    if |xs| < 2 then []
    else if |xs| == 2 then [High(xs[0], xs[1])]
    else if |xs| == 3 then [High(xs[0], xs[1]), Middle(xs[1], xs[2])]
    else [High(xs[0], xs[1]), Middle(xs[1], xs[2]), Low(xs[2], xs[3])] + Gather(xs[4..])
  }

  lemma BytesBack(x: Byte, y: Byte, z: Byte)
    ensures High(x / 4, x % 4 * 16 + y / 16) == x && High(x / 4, x % 4 * 16) == x
    ensures Middle(x % 4 * 16 + y / 16, y % 16 * 4 + z / 64) == y && Middle(x % 4 * 16 + y / 16, y % 16 * 4) == y
    ensures Low(y % 16 * 4 + z / 64, z % 64) == z
  {
  }

  lemma Gather4(a: Sextet, b: Sextet, c: Sextet, d: Sextet, rest: seq<Sextet>)
    ensures Gather([a, b, c, d] + rest) == [High(a, b), Middle(b, c), Low(c, d)] + Gather(rest)
  {
    assert ([a, b, c, d] + rest)[4..] == rest;
  }

  lemma {:induction false} GatherSpread(bs: seq<Byte>)
    ensures Gather(Spread(bs)) == bs && |Spread(bs)| <= 2 * |bs| && (bs != [] ==> Spread(bs) != [])
  {
    if |bs| > 2 {
      var x, y, z := bs[0], bs[1], bs[2];
      GatherSpread(bs[3..]);
      Gather4(x / 4, x % 4 * 16 + y / 16, y % 16 * 4 + z / 64, z % 64, Spread(bs[3..]));
      BytesBack(x, y, z);
      assert bs == [x, y, z] + bs[3..];
    } else if |bs| == 2 {
      BytesBack(bs[0], bs[1], 0);
    } else if |bs| == 1 {
      BytesBack(bs[0], 0, 0);
    }
  }

  /** No lone last letter, and spare bits zero. */
  predicate Canonical(xs: seq<Sextet>) {
    if |xs| == 2 then xs[1] % 16 == 0
    else if |xs| == 3 then xs[2] % 4 == 0
    else |xs| == 0 || (|xs| > 3 && Canonical(xs[4..]))
  }

  lemma HighBits(a: Sextet, b: Sextet)
    ensures 0 <= High(a, b) < 256 && High(a, b) / 4 == a && High(a, b) % 4 == b / 16
  {
  }

  lemma MiddleBits(b: Sextet, c: Sextet)
    ensures 0 <= Middle(b, c) < 256 && Middle(b, c) / 16 == b % 16 && Middle(b, c) % 16 == c / 4
  {
  }

  lemma LowBits(c: Sextet, d: Sextet)
    ensures 0 <= Low(c, d) < 256 && Low(c, d) / 64 == c % 4 && Low(c, d) % 64 == d
  {
  }

  lemma Spread3(x: Byte, y: Byte, z: Byte, rest: seq<Byte>)
    ensures Spread([x, y, z] + rest) == [x / 4, x % 4 * 16 + y / 16, y % 16 * 4 + z / 64, z % 64] + Spread(rest)
  {
    assert ([x, y, z] + rest)[3..] == rest;
  }

  lemma FirstGroup(a: Sextet, b: Sextet, c: Sextet, d: Sextet, rest: seq<Byte>)
    ensures Spread([High(a, b), Middle(b, c), Low(c, d)] + rest) == [a, b, c, d] + Spread(rest)
  {
    HighBits(a, b);
    MiddleBits(b, c);
    LowBits(c, d);
    Spread3(High(a, b), Middle(b, c), Low(c, d), rest);
  }

  /** The lenient reader is undone exactly on canonical text: what it drops is what re-printing would not give back. */
  lemma {:induction false} SpreadGatherIff(xs: seq<Sextet>)
    ensures Spread(Gather(xs)) == xs <==> Canonical(xs)
  {
    if |xs| > 3 {
      FirstGroup(xs[0], xs[1], xs[2], xs[3], Gather(xs[4..]));
      SpreadGatherIff(xs[4..]);
      SameTail(xs, Spread(Gather(xs[4..])));
    } else if |xs| == 3 {
      LastTriple(xs);
      SpareBits(xs[2]);
      assert xs == [xs[0], xs[1], xs[2]];
    } else if |xs| == 2 {
      LastPair(xs);
      SpareBits(xs[1]);
      assert xs == [xs[0], xs[1]];
    }
  }

  /** A short group comes back with its spare bits zero. */
  lemma ShortGroups(a: Sextet, b: Sextet, c: Sextet)
    ensures Spread([High(a, b)]) == [a, b / 16 * 16]
    ensures Spread([High(a, b), Middle(b, c)]) == [a, b, c / 4 * 4]
  {
    HighBits(a, b);
    MiddleBits(b, c);
  }

  lemma LastPair(xs: seq<Sextet>)
    requires |xs| == 2
    ensures Spread(Gather(xs)) == [xs[0], xs[1] / 16 * 16]
  {
    ShortGroups(xs[0], xs[1], 0);
  }

  lemma LastTriple(xs: seq<Sextet>)
    requires |xs| == 3
    ensures Spread(Gather(xs)) == [xs[0], xs[1], xs[2] / 4 * 4]
  {
    ShortGroups(xs[0], xs[1], xs[2]);
  }

  lemma SpareBits(x: Sextet)
    ensures x / 16 * 16 == x <==> x % 16 == 0
    ensures x / 4 * 4 == x <==> x % 4 == 0
  {
  }

  lemma SameTail(xs: seq<Sextet>, tail: seq<Sextet>)
    requires |xs| > 3
    ensures [xs[0], xs[1], xs[2], xs[3]] + tail == xs <==> tail == xs[4..]
  {
    assert ([xs[0], xs[1], xs[2], xs[3]] + tail)[4..] == tail;
    assert xs == [xs[0], xs[1], xs[2], xs[3]] + xs[4..];
  }

  function ToBase64(bs: seq<Byte>): string { Letters(Spread(bs)) }

  function FromBase64(s: string): seq<Byte>
    requires Lettered(s)
  {
    Gather(Sextets(s))
  }

  lemma Base64ReadsBack(bs: seq<Byte>)
    ensures FromBase64(ToBase64(bs)) == bs && |ToBase64(bs)| <= 2 * |bs| && (bs != [] ==> ToBase64(bs) != "")
  {
    GatherSpread(bs);
  }

  /** Reading and printing give the text back exactly when it is canonical. */
  lemma Base64PrintsBackIff(s: string)
    requires Lettered(s)
    ensures ToBase64(FromBase64(s)) == s <==> Canonical(Sextets(s))
  {
    SpreadGatherIff(Sextets(s));
    LettersOfSextets(s);
  }

  // ---------------------------------------------------------------- the cursor

  function BytesOf(s: string): seq<Byte>
    requires forall i | 0 <= i < |s| :: s[i] as int < 128
  {
    seq(|s|, i requires 0 <= i < |s| => s[i] as int)
  }

  predicate InDomain(p: Position) { p.pos <= MAX_SAFE && p.epoch < EPOCH_BOUND }

  function Printed(n: nat): seq<Byte> {
    DecimalReadsBack(n);
    BytesOf(Decimal(n))
  }

  function Encode(p: Position): string { VERSION + "." + (Decimal(p.epoch) + "." + ToBase64(Printed(p.pos))) }

  predicate AllDigits(bs: seq<Byte>) { bs != [] && forall i | 0 <= i < |bs| :: '0' as int <= bs[i] <= '9' as int }

  function TextOf(bs: seq<Byte>): (s: string)
    requires AllDigits(bs)
    ensures Digits(s)
  {
    seq(|bs|, i requires 0 <= i < |bs| => bs[i] as char)
  }

  /** Number() of a decoded text. `foreign`: what it makes of anything that is not all digits (hex, exponents, spaces, ""). */
  function NumberOf(bs: seq<Byte>, foreign: seq<Byte> -> Option<nat>): Option<nat> {
    if AllDigits(bs) then Some(ValueOf(TextOf(bs))) else foreign(bs)
  }

  function Decode(input: string, foreign: seq<Byte> -> Option<nat>): Option<Position> {
    if !(0 < |input| <= MAX_LENGTH) then None
    else
      var parts := Split(input);
      if |parts| != 3 || parts[0] != VERSION then None
      else if !(Digits(parts[1]) && |parts[1]| <= 15) || parts[2] == "" || !Lettered(parts[2]) then None
      else
        var pos := NumberOf(FromBase64(parts[2]), foreign);
        if pos.None? || pos.value > MAX_SAFE then None
        else
          var p := Position(pos.value, ValueOf(parts[1]));
          if Encode(p) != input then None else Some(p)
  }

  lemma EncodeSplits(p: Position)
    ensures Split(Encode(p)) == [VERSION, Decimal(p.epoch), ToBase64(Printed(p.pos))]
  {
    DecimalReadsBack(p.pos);
    DecimalReadsBack(p.epoch);
    var tail := ToBase64(Printed(p.pos));
    Base64ReadsBack(Printed(p.pos));
    SplitFirst(VERSION, Decimal(p.epoch) + "." + tail);
    SplitFirst(Decimal(p.epoch), tail);
    SplitWord(tail);
  }

  lemma DigitsReadBack(n: nat, foreign: seq<Byte> -> Option<nat>)
    ensures Digits(Decimal(n)) && NumberOf(Printed(n), foreign) == Some(n)
  {
    DecimalReadsBack(n);
    var bs := Printed(n);
    assert AllDigits(bs);
    assert TextOf(bs) == Decimal(n);
  }

  lemma EncodeIsShort(p: Position)
    requires InDomain(p)
    ensures |Decimal(p.epoch)| <= 15 && 0 < |Encode(p)| <= MAX_LENGTH
  {
    assert Power(15) == EPOCH_BOUND && Power(16) > MAX_SAFE by { Powers(); }
    DecimalLength(p.epoch, 15);
    DecimalLength(p.pos, 16);
    DecimalReadsBack(p.pos);
    Base64ReadsBack(Printed(p.pos));
  }

  lemma Powers()
    ensures Power(15) == EPOCH_BOUND && Power(16) == 10 * EPOCH_BOUND
  {
    assert Power(4) == 10000;
    assert Power(8) == 100000000;
    assert Power(12) == 1000000000000;
  }

  /** Every position the store hands out is read back as it was printed, exactly while its epoch has at most 15 digits. */
  lemma DecodeUndoesEncode(p: Position, foreign: seq<Byte> -> Option<nat>)
    requires p.pos <= 9007199254740991
    ensures Decode(Encode(p), foreign) == Some(p) <==> p.epoch < 1000000000000000
    ensures p.epoch >= 1000000000000000 ==> Decode(Encode(p), foreign) == None
    ensures "c1." <= Encode(p)
  {
    EncodeSplits(p);
    DigitsReadBack(p.pos, foreign);
    DecimalReadsBack(p.epoch);
    Base64ReadsBack(Printed(p.pos));
    if p.epoch < EPOCH_BOUND {
      EncodeIsShort(p);
      assert ToBase64(Printed(p.pos)) != "";
    } else {
      Powers();
      DecimalLength(p.epoch, 15);
    }
  }

  /** What is read is exactly what is printed: one text for each position, and nothing else, whatever Number() accepts. */
  lemma AcceptsExactlyCursors(input: string, p: Position, foreign: seq<Byte> -> Option<nat>)
    ensures Decode(input, foreign) == Some(p) <==> p.pos <= 9007199254740991 && p.epoch < 1000000000000000 && input == Encode(p)
  {
    if InDomain(p) && input == Encode(p) { DecodeUndoesEncode(p, foreign); }
    if Decode(input, foreign) == Some(p) { DecodeUndoesEncode(p, foreign); }
  }
}
