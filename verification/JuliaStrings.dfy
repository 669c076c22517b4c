/** Escaping a string for a literal and scanning a literal back, on code points. */
module JuliaStrings {
  import opened Options

  type Code = c: int | 0 <= c < 0x11_0000
  type Text = seq<Code>

  const BACKSLASH: Code := 0x5C
  const QUOTE: Code := 0x22
  const NEWLINE: Code := 0x0A
  const TAB: Code := 0x09
  const LOWER_N: Code := 0x6E
  const LOWER_T: Code := 0x74
  const LOWER_U: Code := 0x75
  const UPPER_U: Code := 0x55

  // ----- Escaping -----

  /** Every occurrence of one character replaced by a string. */
  function Replace(s: Text, c: Code, put: Text): Text {
    if s == [] then [] else (if s[0] == c then put else [s[0]]) + Replace(s[1..], c, put)
  }

  /** Backslashes first, then quotes. */
  function EscapeRust(s: Text): Text {
    Replace(Replace(s, BACKSLASH, [BACKSLASH, BACKSLASH]), QUOTE, [BACKSLASH, QUOTE])
  }

  function EscapedOne(c: Code): Text { if c == BACKSLASH || c == QUOTE then [BACKSLASH, c] else [c] }

  /** Each character escaped on its own. */
  function EscapeEach(s: Text): Text {
    if s == [] then [] else EscapedOne(s[0]) + EscapeEach(s[1..])
  }

  lemma {:induction false} ReplaceAppend(a: Text, b: Text, c: Code, put: Text)
    ensures Replace(a + b, c, put) == Replace(a, c, put) + Replace(b, c, put)
    decreases |a|
  {
    if a == [] {
      assert a + b == b;
    } else {
      ReplaceAppend(a[1..], b, c, put);
      assert (a + b)[1..] == a[1..] + b;
    }
  }

  /** The two replacements in this order escape every character once. */
  lemma {:induction false} EscapeRustIsEach(s: Text)
    ensures EscapeRust(s) == EscapeEach(s)
    decreases |s|
  {
    if s != [] {
      EscapeRustIsEach(s[1..]);
      var first := if s[0] == BACKSLASH then [BACKSLASH, BACKSLASH] else [s[0]];
      ReplaceAppend(first, Replace(s[1..], BACKSLASH, [BACKSLASH, BACKSLASH]), QUOTE, [BACKSLASH, QUOTE]);
      assert Replace(first, QUOTE, [BACKSLASH, QUOTE]) == if s[0] == QUOTE then [BACKSLASH, QUOTE] else first by {
        assert first[1..] == if s[0] == BACKSLASH then [BACKSLASH] else [];
        assert [BACKSLASH][1..] == [];
      }
    }
  }

  // ----- Scanning -----

  predicate Hex(c: Code) { 0x30 <= c <= 0x39 || 0x41 <= c <= 0x46 || 0x61 <= c <= 0x66 }

  function Digit(c: Code): nat
    requires Hex(c)
  {
    if c <= 0x39 then c - 0x30 else if c <= 0x46 then c - 0x37 else c - 0x57
  }

  predicate AllHex(s: Text) { forall i :: 0 <= i < |s| ==> Hex(s[i]) }

  function HexValue(s: Text): nat
    requires AllHex(s)
  {
    if s == [] then 0 else 16 * HexValue(s[..|s| - 1]) + Digit(s[|s| - 1])
  }

  /** The code units a numbered escape of `n` digits takes from `i`, if it is one. */
  predicate Numbered(s: Text, i: nat, n: nat) {
    i + 2 + n <= |s| && AllHex(s[i + 2..i + 2 + n])
  }

  /** What one step at `i` appends, and how far it moves; none when the number is no
      code point. */
  function Token(s: Text, i: nat): (r: Option<(Code, nat)>)
    requires i < |s|
    ensures r.Some? ==> 1 <= r.value.1 <= |s| - i
  {
    if s[i] != BACKSLASH || i + 1 >= |s| then Some((s[i], 1)) else
    var c := s[i + 1];
    if c == BACKSLASH then Some((BACKSLASH, 2))
    else if c == LOWER_N then Some((NEWLINE, 2))
    else if c == LOWER_T then Some((TAB, 2))
    else if c == QUOTE then Some((QUOTE, 2))
    else if c == LOWER_U && Numbered(s, i, 4) then Chr(HexValue(s[i + 2..i + 6]), 6)
    else if c == UPPER_U && Numbered(s, i, 8) then Chr(HexValue(s[i + 2..i + 10]), 10)
    else Some((s[i], 1))
  }

  function Chr(v: nat, width: nat): Option<(Code, nat)> {
    if v < 0x11_0000 then Some((v, width)) else None
  }

  /** The value of the literal from `i` on. */
  function Unescape(s: Text, i: nat): Option<Text>
    requires i <= |s|
    decreases |s| - i
  {
    if i == |s| then Some([]) else
    match Token(s, i)
    case None => None
    case Some((c, n)) =>
      match Unescape(s, i + n)
      case None => None
      case Some(rest) => Some([c] + rest)
  }

  /** What has been read up to `i`, and what remains, make up the whole value. */
  ghost predicate ReadTo(s: Text, i: nat, done: Text)
    requires i <= |s|
  {
    Unescape(s, 0) == match Unescape(s, i) case None => None case Some(rest) => Some(done + rest)
  }

  lemma ReadNone(s: Text)
    ensures ReadTo(s, 0, [])
  {
    if Unescape(s, 0).Some? { assert [] + Unescape(s, 0).value == Unescape(s, 0).value; }
  }

  lemma UnescapeEnd(s: Text)
    ensures Unescape(s, |s|) == Some([])
  {
  }

  lemma UnescapeStep(s: Text, i: nat)
    requires i < |s|
    ensures Unescape(s, i) ==
            match Token(s, i)
            case None => None
            case Some((c, n)) =>
              (match Unescape(s, i + n) case None => None case Some(rest) => Some([c] + rest))
  {
    hide Token;
  }

  lemma ReadSome(s: Text, i: nat, done: Text, c: Code, n: nat)
    requires i < |s| && ReadTo(s, i, done) && Token(s, i) == Some((c, n))
    ensures ReadTo(s, i + n, done + [c])
  {
    UnescapeStep(s, i);
    hide Token, Unescape;
    if Unescape(s, i + n).Some? {
      var rest := Unescape(s, i + n).value;
      assert done + ([c] + rest) == done + [c] + rest;
    }
  }

  lemma ReadOn(s: Text, i: nat, done: Text)
    requires i < |s| && ReadTo(s, i, done)
    ensures match Token(s, i)
            case None => Unescape(s, 0) == None
            case Some((c, n)) => ReadTo(s, i + n, done + [c])
  {
    if Token(s, i).Some? {
      var (c, n) := Token(s, i).value;
      ReadSome(s, i, done, c, n);
    } else {
      UnescapeStep(s, i);
    }
    hide Token, Unescape, ReadTo;
  }

  lemma ReadAll(s: Text, done: Text)
    requires ReadTo(s, |s|, done)
    ensures Unescape(s, 0) == Some(done)
  {
    assert done + [] == done;
  }

  method JuliaUnescape(s: Text) returns (result: Option<Text>)
    ensures result == Unescape(s, 0)
    ensures forall ts :: AllSpellable(ts) && Spell(ts) == s ==> result == Meant(ts)
  {
    forall ts | AllSpellable(ts) && Spell(ts) == s ensures Unescape(s, 0) == Meant(ts) { SpelledMeansMeant(ts); }
    hide AllSpellable, Spell, Meant;
    hide Unescape, ReadTo, AllHex, HexValue;
    var done: Text := [];
    var i := 0;
    ReadNone(s);
    while i < |s|
      invariant 0 <= i <= |s|
      invariant ReadTo(s, i, done)
    {
      ReadOn(s, i, done);
      if s[i] == BACKSLASH && i + 1 < |s| {
        var c := s[i + 1];
        if c == BACKSLASH {
          done := done + [BACKSLASH];
          i := i + 2;
        } else if c == LOWER_N {
          done := done + [NEWLINE];
          i := i + 2;
        } else if c == LOWER_T {
          done := done + [TAB];
          i := i + 2;
        } else if c == QUOTE {
          done := done + [QUOTE];
          i := i + 2;
        } else if c == LOWER_U && i + 5 <= |s| {
          var hex := s[i + 2..if i + 6 <= |s| then i + 6 else |s|];
          if |hex| == 4 && AllHex(hex) {
            if HexValue(hex) >= 0x11_0000 { return None; }
            done := done + [HexValue(hex)];
            i := i + 6;
          } else {
            done := done + [s[i]];
            i := i + 1;
          }
        } else if c == UPPER_U && i + 9 <= |s| {
          var hex := s[i + 2..if i + 10 <= |s| then i + 10 else |s|];
          if |hex| == 8 && AllHex(hex) {
            if HexValue(hex) >= 0x11_0000 { return None; }
            done := done + [HexValue(hex)];
            i := i + 10;
          } else {
            done := done + [s[i]];
            i := i + 1;
          }
        } else {
          done := done + [s[i]];
          i := i + 1;
        }
      } else {
        done := done + [s[i]];
        i := i + 1;
      }
    }
    ReadAll(s, done);
    result := Some(done);
  }

  // ----- Round trip -----

  /** Reading does not depend on what was read before. */
  lemma {:induction false} UnescapeSuffix(a: Text, s: Text, i: nat)
    requires i <= |s|
    ensures Unescape(a + s, |a| + i) == Unescape(s, i)
    decreases |s| - i
  {
    if i < |s| {
      var t, j := a + s, |a| + i;
      assert t[j] == s[i];
      assert Token(t, j) == Token(s, i) by {
        assert i + 6 <= |s| ==> t[j + 2..j + 6] == s[i + 2..i + 6];
        assert i + 10 <= |s| ==> t[j + 2..j + 10] == s[i + 2..i + 10];
        hide HexValue, AllHex;
      }
      if Token(s, i).Some? { UnescapeSuffix(a, s, i + Token(s, i).value.1); }
    }
  }

  /** Scanning an escaped string gives the string back, for every string. */
  lemma {:induction false} RoundTrip(s: Text)
    ensures Unescape(EscapeRust(s), 0) == Some(s)
    decreases |s|
  {
    hide EscapeRust, Token, HexValue, AllHex, Unescape;
    EscapeRustIsEach(s);
    if s == [] {
      UnescapeEnd(EscapeRust(s));
    } else {
      EscapeRustIsEach(s[1..]);
      RoundTrip(s[1..]);
      var rest := EscapeEach(s[1..]);
      assert EscapeEach(s) == EscapedOne(s[0]) + rest;
      EscapedToken(s[0], rest);
      hide EscapeEach, EscapedOne;
      UnescapeStep(EscapedOne(s[0]) + rest, 0);
      UnescapeSuffix(EscapedOne(s[0]), rest, 0);
      assert s == [s[0]] + s[1..];
    }
  }

  lemma EscapedToken(c: Code, rest: Text)
    ensures Token(EscapedOne(c) + rest, 0) == Some((c, |EscapedOne(c)|))
  {
    hide HexValue, AllHex;
  }

  // ----- Spellings -----

  /** The ways to spell a character in a literal, and a backslash that escapes nothing. */
  datatype Spelling =
    | Itself(c: Code)
    | Slash | Mark | Line | Stop
    | Short(v: nat, upper: bool)
    | Long(v: nat, upper: bool)
    | Stray(next: Code)

  predicate Spellable(t: Spelling) {
    match t
    case Itself(c) => c != '\\' as int
    case Short(v, _) => v < 0x1_0000
    case Long(v, _) => v < 0x1_0000_0000
    case Stray(c) => c !in ['\\' as int, 'n' as int, 't' as int, '"' as int, 'u' as int, 'U' as int]
    case _ => true
  }

  predicate AllSpellable(ts: seq<Spelling>) {
    forall i :: 0 <= i < |ts| ==> Spellable(ts[i])
  }

  function Glyph(d: nat, upper: bool): Code
    requires d < 16
  {
    (if upper then "0123456789ABCDEF"[d] else "0123456789abcdef"[d]) as int
  }

  /** The number in hexadecimal, with `n` digits. */
  function HexText(v: nat, n: nat, upper: bool): (t: Text)
    ensures |t| == n
  {
    if n == 0 then [] else HexText(v / 16, n - 1, upper) + [Glyph(v % 16, upper)]
  }

  function SpellOne(t: Spelling): Text {
    match t
    case Itself(c) => [c]
    case Slash => ['\\' as int, '\\' as int]
    case Mark => ['\\' as int, '"' as int]
    case Line => ['\\' as int, 'n' as int]
    case Stop => ['\\' as int, 't' as int]
    case Short(v, upper) => ['\\' as int, 'u' as int] + HexText(v, 4, upper)
    case Long(v, upper) => ['\\' as int, 'U' as int] + HexText(v, 8, upper)
    case Stray(c) => ['\\' as int, c]
  }

  function Spell(ts: seq<Spelling>): Text {
    if ts == [] then [] else SpellOne(ts[0]) + Spell(ts[1..])
  }

  /** What is meant; nothing when a number is beyond the code points. */
  function MeantOne(t: Spelling): Option<Text> {
    match t
    case Itself(c) => Some([c])
    case Slash => Some(['\\' as int])
    case Mark => Some(['"' as int])
    case Line => Some(['\n' as int])
    case Stop => Some(['\t' as int])
    case Short(v, _) => if v <= 0x10_FFFF then Some([v]) else None
    case Long(v, _) => if v <= 0x10_FFFF then Some([v]) else None
    case Stray(c) => Some(['\\' as int, c])
  }

  function Meant(ts: seq<Spelling>): Option<Text> {
    if ts == [] then Some([]) else
    match MeantOne(ts[0])
    case None => None
    case Some(a) => match Meant(ts[1..]) case None => None case Some(b) => Some(a + b)
  }

  lemma GlyphDigit(d: nat, upper: bool)
    requires d < 16
    ensures Hex(Glyph(d, upper)) && Digit(Glyph(d, upper)) == d
  {
  }

  function Power16(n: nat): nat { if n == 0 then 1 else 16 * Power16(n - 1) }

  /** Reading hexadecimal digits gives the number they write. */
  lemma {:induction false} HexRead(v: nat, n: nat, upper: bool)
    requires v < Power16(n)
    ensures AllHex(HexText(v, n, upper)) && HexValue(HexText(v, n, upper)) == v
    decreases n
  {
    if n > 0 {
      HexRead(v / 16, n - 1, upper);
      GlyphDigit(v % 16, upper);
      hide Glyph, Hex, Digit;
      var t := HexText(v, n, upper);
      assert t[..n - 1] == HexText(v / 16, n - 1, upper);
    }
  }

  /** A number in `n` digits behind two characters and in front of anything. */
  lemma NumberIn(head: Text, v: nat, n: nat, upper: bool, rest: Text)
    requires |head| == 2 && v < Power16(n)
    ensures var s := head + HexText(v, n, upper) + rest;
            s[0] == head[0] && s[1] == head[1] && Numbered(s, 0, n) && HexValue(s[2..2 + n]) == v
  {
    HexRead(v, n, upper);
    hide HexText, HexValue, AllHex;
    var s := head + HexText(v, n, upper) + rest;
    assert s[2..2 + n] == HexText(v, n, upper);
  }

  lemma Powers()
    ensures Power16(4) == 0x1_0000 && Power16(8) == 0x1_0000_0000
  {
    assert Power16(4) == 0x1_0000;
  }

  lemma NumberToken(v: nat, upper: bool, rest: Text)
    ensures v < 0x1_0000 ==> Token(SpellOne(Short(v, upper)) + rest, 0) == Chr(v, 6)
    ensures v < 0x1_0000_0000 ==> Token(SpellOne(Long(v, upper)) + rest, 0) == Chr(v, 10)
  {
    Powers();
    hide HexText, HexValue, AllHex, Power16;
    if v < 0x1_0000 { NumberIn([BACKSLASH, LOWER_U], v, 4, upper, rest); }
    if v < 0x1_0000_0000 { NumberIn([BACKSLASH, UPPER_U], v, 8, upper, rest); }
  }

  lemma StrayRead(c: Code, rest: Text)
    requires Spellable(Stray(c))
    ensures Unescape([BACKSLASH, c] + rest, 0) == match Unescape(rest, 0) case None => None case Some(b) => Some([BACKSLASH, c] + b)
  {
    var s := [BACKSLASH, c] + rest;
    UnescapeStep(s, 0);
    UnescapeStep(s, 1);
    UnescapeSuffix([BACKSLASH, c], rest, 0);
    var specials := ['\\' as int, 'n' as int, 't' as int, '"' as int, 'u' as int, 'U' as int];
    assert specials[0] in specials && specials[1] in specials && specials[2] in specials;
    assert specials[3] in specials && specials[4] in specials && specials[5] in specials;
    assert Token(s, 0) == Some((BACKSLASH, 1)) && Token(s, 1) == Some((c, 1));
    hide Unescape, Token;
    if Unescape(rest, 0).Some? {
      assert [BACKSLASH] + ([c] + Unescape(rest, 0).value) == [BACKSLASH, c] + Unescape(rest, 0).value;
    }
  }

  /** All spellings but strays are one token. */
  lemma SpellingToken(t: Spelling, rest: Text)
    requires Spellable(t) && !t.Stray?
    ensures Token(SpellOne(t) + rest, 0) ==
            match MeantOne(t) case None => None case Some(a) => if |a| == 1 then Some((a[0], |SpellOne(t)|)) else None
    ensures MeantOne(t).Some? ==> |MeantOne(t).value| == 1
  {
    hide HexText, HexValue, AllHex;
    if t.Short? || t.Long? {
      NumberToken(t.v, t.upper, rest);
      hide Token;
    }
  }

  lemma SpellingRead(t: Spelling, rest: Text)
    requires Spellable(t)
    ensures Unescape(SpellOne(t) + rest, 0) ==
            match MeantOne(t)
            case None => None
            case Some(a) => (match Unescape(rest, 0) case None => None case Some(b) => Some(a + b))
  {
    if t.Stray? {
      StrayRead(t.next, rest);
    } else {
      hide HexText, HexValue, AllHex;
      SpellingToken(t, rest);
      UnescapeStep(SpellOne(t) + rest, 0);
      UnescapeSuffix(SpellOne(t), rest, 0);
      hide Unescape, Token;
    }
  }

  /** Every literal means what its spellings mean, and fails exactly when a number in it is
      no code point. */
  lemma {:induction false} SpelledMeansMeant(ts: seq<Spelling>)
    requires AllSpellable(ts)
    ensures Unescape(Spell(ts), 0) == Meant(ts)
  {
    if ts != [] {
      SpelledMeansMeant(ts[1..]);
      hide SpellOne, Unescape, MeantOne;
      SpellingRead(ts[0], Spell(ts[1..]));
    }
  }

  /** The other order of replacements would not do. */
  lemma OrderMatters()
    ensures Replace(Replace([QUOTE], QUOTE, [BACKSLASH, QUOTE]), BACKSLASH, [BACKSLASH, BACKSLASH]) != EscapeRust([QUOTE])
  {
    assert [QUOTE][1..] == [] && [BACKSLASH, QUOTE][1..] == [QUOTE];
    assert Replace([QUOTE], QUOTE, [BACKSLASH, QUOTE]) == [BACKSLASH, QUOTE];
    assert Replace([QUOTE], BACKSLASH, [BACKSLASH, BACKSLASH]) == [QUOTE];
    assert |EscapeRust([QUOTE])| == 2;
    assert |Replace([BACKSLASH, QUOTE], BACKSLASH, [BACKSLASH, BACKSLASH])| == 3;
  }
}
