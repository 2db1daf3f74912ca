/**
 The inbox key of an event's subject: the JSON text of its type and id, or the hash of a long one. What keeps the keys of
 two subjects apart is that JSON escapes every quote inside a text.
 */
module SubjectKeys {
  import opened Wrappers
  import opened OrderedInbox

  const HEX := "0123456789abcdef"

  /** JSON's spelling of one character: quotes, backslashes and control characters are escaped. */
  function Spell(c: char): string {
    if c == '"' then ['\\', '"']
    else if c == '\\' then ['\\', '\\']
    else if c == '\n' then ['\\', 'n']
    else if c == '\r' then ['\\', 'r']
    else if c == '\t' then ['\\', 't']
    else if c as int == 8 then ['\\', 'b']
    else if c as int == 12 then ['\\', 'f']
    else if c as int < 32 then ['\\', 'u', '0', '0', HEX[c as int / 16], HEX[c as int % 16]]
    else [c]
  }

  function Spelled(s: string): string { if s == "" then "" else Spell(s[0]) + Spelled(s[1..]) }

  /** JSON.stringify([type, id]) */
  function Listed(subjectType: string, id: string): string {
    ['[', '"'] + (Spelled(subjectType) + (['"'] + SecondPart(id)))
  }

  function SecondPart(id: string): string { [',', '"'] + (Spelled(id) + (['"'] + "]")) }

  lemma ControlsDiffer(c: char, d: char)
    requires |Spell(c)| == 6 && |Spell(d)| == 6 && Spell(c)[4] == Spell(d)[4] && Spell(c)[5] == Spell(d)[5]
    ensures c == d
  {
    HexDigitsDiffer(c as int / 16, d as int / 16);
    HexDigitsDiffer(c as int % 16, d as int % 16);
  }

  lemma HexDigitsDiffer(i: int, j: int)
    requires 0 <= i < 16 && 0 <= j < 16 && HEX[i] == HEX[j]
    ensures i == j
  {
  }

  /** A spelling's first two characters tell how long it is. */
  lemma LengthIsTold(c: char)
    ensures |Spell(c)| == if Spell(c)[0] != '\\' then 1 else if Spell(c)[1] != 'u' then 2 else 6
  {
  }

  lemma ShortSpellingsDiffer(c: char, d: char)
    requires |Spell(c)| == |Spell(d)| <= 2 && Spell(c) == Spell(d)
    ensures c == d
  {
  }

  lemma SpellIsOneToOne(c: char, d: char)
    requires Spell(c) == Spell(d)
    ensures c == d
  {
    if |Spell(c)| == 6 {
      ControlsDiffer(c, d);
    } else {
      ShortSpellingsDiffer(c, d);
    }
  }

  /** Spellings are apart: neither begins the other. */
  lemma SpellingsDiffer(c: char, d: char, x: string, y: string)
    requires Spell(c) + x == Spell(d) + y
    ensures c == d && x == y
  {
    var a, s, t := Spell(c) + x, Spell(c), Spell(d);
    LengthIsTold(c);
    LengthIsTold(d);
    assert a[0] == s[0] == t[0];
    if |s| > 1 { assert a[1] == s[1]; }
    if |t| > 1 { assert a[1] == t[1]; }
    assert |s| == |t|;
    assert s == a[..|s|] == t;
    SpellIsOneToOne(c, d);
    assert x == a[|s|..] == y;
  }

  lemma NeverStartsWithQuote(c: char, x: string, y: string)
    ensures Spell(c) + x != ['"'] + y
  {
    assert (Spell(c) + x)[0] == Spell(c)[0];
    assert (['"'] + y)[0] == '"';
  }

  lemma SpelledFront(s: string, tail: string)
    requires s != ""
    ensures Spelled(s) + tail == Spell(s[0]) + (Spelled(s[1..]) + tail)
  {
    Associates(Spell(s[0]), Spelled(s[1..]), tail);
  }

  lemma Associates(a: string, b: string, c: string)
    ensures a + b + c == a + (b + c)
  {
  }

  lemma Headless(x: string)
    ensures (['"'] + x)[1..] == x && Spelled("") + (['"'] + x) == ['"'] + x
  {
  }

  /** A spelled text ends at its closing quote and nowhere else. */
  lemma {:induction false} SpelledDiffer(s: string, t: string, x: string, y: string)
    requires Spelled(s) + (['"'] + x) == Spelled(t) + (['"'] + y)
    ensures s == t && x == y
  {
    Headless(x);
    Headless(y);
    if s != "" { SpelledFront(s, ['"'] + x); }
    if t != "" { SpelledFront(t, ['"'] + y); }
    if s != "" && t != "" {
      SpellingsDiffer(s[0], t[0], Spelled(s[1..]) + (['"'] + x), Spelled(t[1..]) + (['"'] + y));
      SpelledDiffer(s[1..], t[1..], x, y);
      assert s == [s[0]] + s[1..] && t == [t[0]] + t[1..];
    } else if s != "" {
      NeverStartsWithQuote(s[0], Spelled(s[1..]) + (['"'] + x), y);
    } else if t != "" {
      NeverStartsWithQuote(t[0], Spelled(t[1..]) + (['"'] + y), x);
    }
  }

  lemma ListedParts(subjectType: string, id: string)
    ensures Listed(subjectType, id)[2..] == Spelled(subjectType) + (['"'] + SecondPart(id)) && SecondPart(id)[2..] == Spelled(id) + (['"'] + "]")
  {
  }

  lemma ListedDiffer(t1: string, i1: string, t2: string, i2: string)
    requires Listed(t1, i1) == Listed(t2, i2)
    ensures t1 == t2 && i1 == i2
  {
    ListedParts(t1, i1);
    ListedParts(t2, i2);
    SpelledDiffer(t1, t2, SecondPart(i1), SecondPart(i2));
    SpelledDiffer(i1, i2, "]", "]");
  }

  const HASHED := "sha256:"

  /** No key without a type and an id; a long one is hashed. */
  function SubjectKey(subjectType: string, id: string, hash: string -> string): Option<string> {
    if subjectType == "" || id == "" then None
    else
      var k := Listed(subjectType, id);
      Some(if |k| > MAX_KEY_LENGTH then HASHED + hash(k) else k)
  }

  ghost predicate Injective(hash: string -> string) { forall a, b :: hash(a) == hash(b) ==> a == b }

  /** Distinct subjects never share a head: their keys differ, however long and whatever quotes, commas or colons they hold. */
  lemma SubjectsHaveTheirOwnKeys(t1: string, i1: string, t2: string, i2: string, hash: string -> string)
    requires Injective(hash)
    requires SubjectKey(t1, i1, hash).Some? && SubjectKey(t1, i1, hash) == SubjectKey(t2, i2, hash)
    ensures t1 == t2 && i1 == i2
  {
    var a, b := Listed(t1, i1), Listed(t2, i2);
    HashedIsApart(hash(a), t2, i2);
    HashedIsApart(hash(b), t1, i1);
    if |a| > MAX_KEY_LENGTH && |b| > MAX_KEY_LENGTH { assert (HASHED + hash(a))[7..] == hash(a) && (HASHED + hash(b))[7..] == hash(b); }
    ListedDiffer(t1, i1, t2, i2);
  }

  lemma HashedIsApart(h: string, subjectType: string, id: string)
    ensures HASHED + h != Listed(subjectType, id)
  {
    assert (HASHED + h)[0] == 's' && Listed(subjectType, id)[0] == '[';
  }
}
