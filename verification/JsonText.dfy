/**
 JSON strings and numbers as text.  Text is a sequence of code points, surrogate
 code points included, because that is what the printer may be handed.
 The printer writes ASCII only; `ScriptEscape` then rewrites the characters an
 HTML tokenizer would act on.
 */
module JsonText {
  import opened Wrappers
  import Sequences

  type CodePoint = c: int | 0 <= c < 0x11_0000
  type Text = seq<CodePoint>

  const QUOTE: CodePoint := 34
  const BACKSLASH: CodePoint := 92
  const LETTER_U: CodePoint := 117

  predicate Ascii(t: Text) { forall i :: 0 <= i < |t| ==> t[i] < 128 }

  predicate High(c: int) { 0xD800 <= c <= 0xDBFF }
  predicate Low(c: int) { 0xDC00 <= c <= 0xDFFF }

  /** No high surrogate is directly followed by a low one. */
  predicate PairFree(s: Text) { forall i :: 0 <= i < |s| - 1 ==> !(High(s[i]) && Low(s[i + 1])) }

  // ----- escapes -----

  function HexDigit(d: int): (c: CodePoint)
    requires 0 <= d < 16
    ensures 48 <= c <= 57 || 97 <= c <= 102
  {
    if d < 10 then 48 + d else 87 + d
  }

  function HexValue(c: CodePoint): (d: Option<int>)
    ensures d.Some? ==> 0 <= d.value < 16
  {
    if 48 <= c <= 57 then Some(c - 48)
    else if 97 <= c <= 102 then Some(c - 87)
    else if 65 <= c <= 70 then Some(c - 55)
    else None
  }

  /** One 16-bit unit as a six-character escape. */
  function EscapeUnit(u: int): (t: Text)
    requires 0 <= u < 0x1_0000
    ensures |t| == 6 && forall i :: 0 <= i < 6 ==> 47 < t[i] < 127 && t[i] != 60 && t[i] != 62
  {
    [BACKSLASH, LETTER_U, HexDigit(u / 4096), HexDigit(u / 256 % 16), HexDigit(u / 16 % 16), HexDigit(u % 16)]
  }

  /** The unit escaped at the start of `t`, if there is one. */
  function UnitAt(t: Text): (u: Option<int>)
    ensures u.Some? ==> |t| >= 6 && 0 <= u.value < 0x1_0000
  {
    if |t| < 6 || t[0] != BACKSLASH || t[1] != LETTER_U then None
    else
      match (HexValue(t[2]), HexValue(t[3]), HexValue(t[4]), HexValue(t[5]))
      case (Some(a), Some(b), Some(c), Some(d)) => Join(a, b, c, d)
      case _ => None
  }

  function Join(a: int, b: int, c: int, d: int): (u: Option<int>)
    requires 0 <= a < 16 && 0 <= b < 16 && 0 <= c < 16 && 0 <= d < 16
    ensures u.Some? && 0 <= u.value < 0x1_0000
  {
    Some(a * 4096 + b * 256 + c * 16 + d)
  }

  lemma HexReadsBack(d: int)
    requires 0 <= d < 16
    ensures HexValue(HexDigit(d)) == Some(d)
  {}

  lemma DigitsReadBack(a: int, b: int, c: int, d: int, rest: Text)
    requires 0 <= a < 16 && 0 <= b < 16 && 0 <= c < 16 && 0 <= d < 16
    ensures UnitAt([BACKSLASH, LETTER_U, HexDigit(a), HexDigit(b), HexDigit(c), HexDigit(d)] + rest) == Join(a, b, c, d)
  {
    HexReadsBack(a);
    HexReadsBack(b);
    HexReadsBack(c);
    HexReadsBack(d);
  }

  lemma BaseSixteen(u: int)
    requires 0 <= u < 0x1_0000
    ensures u / 4096 < 16 && u == u / 4096 * 4096 + u / 256 % 16 * 256 + u / 16 % 16 * 16 + u % 16
  {}

  lemma UnitReadsBack(u: int, rest: Text)
    requires 0 <= u < 0x1_0000
    ensures UnitAt(EscapeUnit(u) + rest) == Some(u)
  {
    BaseSixteen(u);
    DigitsReadBack(u / 4096, u / 256 % 16, u / 16 % 16, u % 16, rest);
  }

  /** The two-character escapes. */
  function ShortEscape(c: CodePoint): Option<CodePoint> {
    if c == QUOTE then Some(QUOTE) else if c == BACKSLASH then Some(BACKSLASH)
    else if c == 8 then Some(98) else if c == 9 then Some(116) else if c == 10 then Some(110)
    else if c == 12 then Some(102) else if c == 13 then Some(114)
    else None
  }

  function ShortMeaning(e: CodePoint): Option<CodePoint> {
    if e == QUOTE || e == BACKSLASH || e == 47 then Some(e)
    else if e == 98 then Some(8) else if e == 116 then Some(9) else if e == 110 then Some(10)
    else if e == 102 then Some(12) else if e == 114 then Some(13)
    else None
  }

  /** How the JSON printer writes one character. */
  function PrintChar(c: CodePoint): (t: Text)
    ensures t != [] && Ascii(t) && forall i :: 0 <= i < |t| ==> 32 <= t[i]
  {
    if ShortEscape(c).Some? then [BACKSLASH, ShortEscape(c).value]
    else if 32 <= c <= 126 then [c]
    else if c < 0x1_0000 then EscapeUnit(c)
    else EscapeUnit(0xD800 + (c - 0x1_0000) / 1024) + EscapeUnit(0xDC00 + (c - 0x1_0000) % 1024)
  }

  /** Characters the script escape rewrites. */
  predicate Hazard(c: CodePoint) { c == 38 || c == 60 || c == 62 || c == 0x2028 || c == 0x2029 }

  function Replace(t: Text, c: CodePoint, sub: Text): Text {
    if t == [] then [] else (if t[0] == c then sub else [t[0]]) + Replace(t[1..], c, sub)
  }

  /** The five replacements, one after the other. */
  function ScriptEscape(t: Text): Text {
    Replace(Replace(Replace(Replace(Replace(t, 38, EscapeUnit(38)), 60, EscapeUnit(60)), 62, EscapeUnit(62)),
                    0x2028, EscapeUnit(0x2028)), 0x2029, EscapeUnit(0x2029))
  }

  function ScriptChar(c: CodePoint): Text {
    if Hazard(c) then EscapeUnit(c) else [c]
  }

  lemma {:induction false} ReplaceConcat(a: Text, b: Text, c: CodePoint, sub: Text)
    ensures Replace(a + b, c, sub) == Replace(a, c, sub) + Replace(b, c, sub)
    decreases |a|
  {
    if a == [] {
      assert a + b == b;
    } else {
      Sequences.TailOfConcat(a, b);
      ReplaceConcat(a[1..], b, c, sub);
      Sequences.Assoc(if a[0] == c then sub else [a[0]], Replace(a[1..], c, sub), Replace(b, c, sub));
    }
  }

  lemma {:induction false} ReplaceAbsent(t: Text, c: CodePoint, sub: Text)
    requires c !in t
    ensures Replace(t, c, sub) == t
    decreases |t|
  {
    if t != [] { ReplaceAbsent(t[1..], c, sub); }
  }

  lemma EscapeConcat(a: Text, b: Text)
    ensures ScriptEscape(a + b) == ScriptEscape(a) + ScriptEscape(b)
  {
    var a1, b1 := Replace(a, 38, EscapeUnit(38)), Replace(b, 38, EscapeUnit(38));
    var a2, b2 := Replace(a1, 60, EscapeUnit(60)), Replace(b1, 60, EscapeUnit(60));
    var a3, b3 := Replace(a2, 62, EscapeUnit(62)), Replace(b2, 62, EscapeUnit(62));
    var a4, b4 := Replace(a3, 0x2028, EscapeUnit(0x2028)), Replace(b3, 0x2028, EscapeUnit(0x2028));
    ReplaceConcat(a, b, 38, EscapeUnit(38));
    ReplaceConcat(a1, b1, 60, EscapeUnit(60));
    ReplaceConcat(a2, b2, 62, EscapeUnit(62));
    ReplaceConcat(a3, b3, 0x2028, EscapeUnit(0x2028));
    ReplaceConcat(a4, b4, 0x2029, EscapeUnit(0x2029));
  }

  lemma ReplaceOne(x: CodePoint, c: CodePoint, sub: Text)
    ensures Replace([x], c, sub) == if x == c then sub else [x]
  {
    assert Replace([x][1..], c, sub) == [];
  }

  /** Escapes hold no hazard, so the successive replacements act on each character once. */
  lemma EscapeOne(c: CodePoint)
    ensures ScriptEscape([c]) == ScriptChar(c)
  {
    ReplaceOne(c, 38, EscapeUnit(38));
    ReplaceOne(c, 60, EscapeUnit(60));
    ReplaceOne(c, 62, EscapeUnit(62));
    ReplaceOne(c, 0x2028, EscapeUnit(0x2028));
    ReplaceOne(c, 0x2029, EscapeUnit(0x2029));
    if Hazard(c) { EscapeIsStable(c); }
  }

  lemma EscapeIsStable(u: CodePoint)
    requires Hazard(u)
    ensures forall h, sub :: Hazard(h) ==> Replace(EscapeUnit(u), h, sub) == EscapeUnit(u)
  {
    forall h, sub | Hazard(h) ensures Replace(EscapeUnit(u), h, sub) == EscapeUnit(u) {
      ReplaceAbsent(EscapeUnit(u), h, sub);
    }
  }

  /** Nothing an HTML tokenizer acts on survives. */
  lemma {:induction false} EscapedIsInert(t: Text)
    ensures forall c :: c in ScriptEscape(t) ==> !Hazard(c)
    decreases |t|
  {
    if t == [] {
      assert ScriptEscape(t) == [];
    } else {
      assert t == [t[0]] + t[1..];
      EscapeConcat([t[0]], t[1..]);
      EscapeOne(t[0]);
      EscapedIsInert(t[1..]);
    }
  }

  lemma {:induction false} EscapedIsAscii(t: Text)
    requires Ascii(t)
    ensures Ascii(ScriptEscape(t))
    decreases |t|
  {
    if t == [] {
      assert ScriptEscape(t) == [];
    } else {
      assert t == [t[0]] + t[1..];
      EscapeConcat([t[0]], t[1..]);
      EscapeOne(t[0]);
      EscapedIsAscii(t[1..]);
      assert Ascii(ScriptChar(t[0]));
    }
  }

  // ----- string bodies -----

  /** The characters of a string, printed and made safe for a script element, up to the closing quote. */
  function PrintChars(s: Text): Text {
    if s == [] then [] else PrintChar(s[0]) + PrintChars(s[1..])
  }

  /** A parsed string and what follows its closing quote. */
  function ParseChars(t: Text): (r: Option<(Text, Text)>)
    ensures r.Some? ==> |r.value.1| < |t|
    decreases |t|
  {
    if t == [] then None
    else if t[0] == QUOTE then Some(([], t[1..]))
    else if t[0] == BACKSLASH then
      if UnitAt(t).Some? then
        var u := UnitAt(t).value;
        var next := UnitAt(t[6..]);
        if High(u) && next.Some? && Low(next.value)
        then Cons(0x1_0000 + (u - 0xD800) * 1024 + (next.value - 0xDC00), ParseChars(t[12..]))
        else Cons(u, ParseChars(t[6..]))
      else if |t| >= 2 && ShortMeaning(t[1]).Some? then Cons(ShortMeaning(t[1]).value, ParseChars(t[2..]))
      else None
    else if t[0] < 32 then None
    else Cons(t[0], ParseChars(t[1..]))
  }

  function Cons(c: CodePoint, r: Option<(Text, Text)>): Option<(Text, Text)> {
    if r.None? then None else Some(([c] + r.value.0, r.value.1))
  }

  lemma PrependPairFree(c: CodePoint, s: Text)
    requires PairFree(s) && (High(c) && s != [] ==> !Low(s[0]))
    ensures PairFree([c] + s)
  {}

  /** Reading ASCII never yields a high surrogate directly before a low one. */
  lemma {:induction false} ReadIsPairFree(t: Text)
    requires Ascii(t) && ParseChars(t).Some?
    ensures PairFree(ParseChars(t).value.0) && Ascii(ParseChars(t).value.1)
    ensures var s := ParseChars(t).value.0; s != [] && Low(s[0]) ==> UnitAt(t).Some? && Low(UnitAt(t).value)
    decreases |t|
  {
    if t[0] != QUOTE {
      var n := Consumed(t);
      var c := ParseChars(t).value.0[0];
      assert ParseChars(t) == Cons(c, ParseChars(t[n..]));
      ReadIsPairFree(t[n..]);
      PrependPairFree(c, ParseChars(t[n..]).value.0);
    }
  }

  /** How many characters the first parsed character takes. */
  function Consumed(t: Text): (n: nat)
    requires ParseChars(t).Some? && t[0] != QUOTE
    ensures 0 < n <= |t| && ParseChars(t[n..]).Some?
  {
    if t[0] != BACKSLASH then 1
    else if UnitAt(t).Some? then
      if High(UnitAt(t).value) && UnitAt(t[6..]).Some? && Low(UnitAt(t[6..]).value) then 12 else 6
    else 2
  }

  lemma UnitParsed(u: int, w: Text, tail: Text)
    requires 0 <= u < 0x1_0000 && w == EscapeUnit(u)
    requires !High(u) || (UnitAt(tail).Some? ==> !Low(UnitAt(tail).value))
    ensures ParseChars(w + tail) == Cons(u, ParseChars(tail))
  {
    var t := w + tail;
    UnitReadsBack(u, tail);
    assert t[0] == BACKSLASH && t[6..] == tail;
  }

  lemma PairStep(hi: int, lo: int, t: Text, next: Text, tail: Text)
    requires High(hi) && Low(lo) && |t| >= 12 && t[0] == BACKSLASH
    requires UnitAt(t) == Some(hi) && UnitAt(next) == Some(lo) && t[6..] == next && t[12..] == tail
    ensures ParseChars(t) == Cons(0x1_0000 + (hi - 0xD800) * 1024 + (lo - 0xDC00), ParseChars(tail))
  {}

  lemma TwoUnitsParsed(hi: int, lo: int, t: Text, next: Text, tail: Text)
    requires High(hi) && Low(lo)
    requires t == EscapeUnit(hi) + next && next == EscapeUnit(lo) + tail
    ensures ParseChars(t) == Cons(0x1_0000 + (hi - 0xD800) * 1024 + (lo - 0xDC00), ParseChars(tail))
  {
    UnitReadsBack(hi, next);
    UnitReadsBack(lo, tail);
    Sequences.Parts(EscapeUnit(hi), next);
    Sequences.Parts(EscapeUnit(lo), tail);
    Sequences.DropTwice(t, 6, 6);
    assert t[0] == BACKSLASH;
    PairStep(hi, lo, t, next, tail);
  }

  lemma SurrogateHalves(c: CodePoint)
    requires c >= 0x1_0000
    ensures var hi, lo := 0xD800 + (c - 0x1_0000) / 1024, 0xDC00 + (c - 0x1_0000) % 1024;
            High(hi) && Low(lo) && c == 0x1_0000 + (hi - 0xD800) * 1024 + (lo - 0xDC00)
  {}

  lemma PairParsed(c: CodePoint, w: Text, tail: Text)
    requires c >= 0x1_0000
    requires w == EscapeUnit(0xD800 + (c - 0x1_0000) / 1024) + EscapeUnit(0xDC00 + (c - 0x1_0000) % 1024)
    ensures ParseChars(w + tail) == Cons(c, ParseChars(tail))
  {
    var hi, lo := 0xD800 + (c - 0x1_0000) / 1024, 0xDC00 + (c - 0x1_0000) % 1024;
    SurrogateHalves(c);
    Sequences.Assoc(EscapeUnit(hi), EscapeUnit(lo), tail);
    TwoUnitsParsed(hi, lo, w + tail, EscapeUnit(lo) + tail, tail);
  }

  lemma ShortParsed(c: CodePoint, w: Text, tail: Text)
    requires ShortEscape(c).Some? && w == [BACKSLASH, ShortEscape(c).value]
    ensures ParseChars(w + tail) == Cons(c, ParseChars(tail))
  {
    var t := w + tail;
    assert t[0] == BACKSLASH && t[1] == ShortEscape(c).value && t[2..] == tail;
    assert ShortMeaning(t[1]) == Some(c) && UnitAt(t).None?;
  }

  lemma PlainParsed(c: CodePoint, w: Text, tail: Text)
    requires 32 <= c && c != QUOTE && c != BACKSLASH && w == [c]
    ensures ParseChars(w + tail) == Cons(c, ParseChars(tail))
  {
    assert (w + tail)[1..] == tail;
  }

  lemma InertUnit(u: int)
    requires 0 <= u < 0x1_0000
    ensures ScriptEscape(EscapeUnit(u)) == EscapeUnit(u)
  {
    Inert(EscapeUnit(u));
  }

  lemma Inert(t: Text)
    requires forall c :: c in t ==> !Hazard(c)
    ensures ScriptEscape(t) == t
  {
    ReplaceAbsent(t, 38, EscapeUnit(38));
    ReplaceAbsent(t, 60, EscapeUnit(60));
    ReplaceAbsent(t, 62, EscapeUnit(62));
    ReplaceAbsent(t, 0x2028, EscapeUnit(0x2028));
    ReplaceAbsent(t, 0x2029, EscapeUnit(0x2029));
  }

  /** A character as it ends up in the document. */
  function SafeChar(c: CodePoint): Text { if Hazard(c) then EscapeUnit(c) else PrintChar(c) }

  function SafeChars(s: Text): Text { if s == [] then [] else SafeChar(s[0]) + SafeChars(s[1..]) }

  lemma EscapedChar(c: CodePoint)
    ensures ScriptEscape(PrintChar(c)) == SafeChar(c)
  {
    if ShortEscape(c).Some? {
      Inert(PrintChar(c));
    } else if 32 <= c <= 126 {
      EscapeOne(c);
    } else if c < 0x1_0000 {
      InertUnit(c);
    } else {
      var hi, lo := 0xD800 + (c - 0x1_0000) / 1024, 0xDC00 + (c - 0x1_0000) % 1024;
      EscapeConcat(EscapeUnit(hi), EscapeUnit(lo));
      InertUnit(hi);
      InertUnit(lo);
    }
  }

  lemma {:induction false} EscapedChars(s: Text)
    ensures ScriptEscape(PrintChars(s)) == SafeChars(s)
    decreases |s|
  {
    if s == [] {
      assert ScriptEscape([]) == [];
    } else {
      EscapeConcat(PrintChar(s[0]), PrintChars(s[1..]));
      EscapedChar(s[0]);
      EscapedChars(s[1..]);
    }
  }

  /** One character of the document is read back in front of any continuation. */
  lemma CharReadsBack(c: CodePoint, tail: Text)
    requires !High(c) || (UnitAt(tail).Some? ==> !Low(UnitAt(tail).value))
    ensures ParseChars(SafeChar(c) + tail) == Cons(c, ParseChars(tail))
  {
    var w := SafeChar(c);
    if ShortEscape(c).Some? {
      ShortParsed(c, w, tail);
    } else if 32 <= c <= 126 && !Hazard(c) {
      PlainParsed(c, w, tail);
    } else if c < 0x1_0000 {
      UnitParsed(c, w, tail);
    } else {
      PairParsed(c, w, tail);
    }
  }

  lemma PairStarts(hi: int, lo: int, tail: Text)
    requires High(hi) && Low(lo)
    ensures UnitAt(EscapeUnit(hi) + EscapeUnit(lo) + tail) == Some(hi)
  {
    Sequences.Assoc(EscapeUnit(hi), EscapeUnit(lo), tail);
    UnitReadsBack(hi, EscapeUnit(lo) + tail);
  }

  lemma NotAUnit(w: Text, tail: Text)
    requires (|w| == 1 && w[0] != BACKSLASH) || (|w| == 2 && w[1] != LETTER_U)
    ensures UnitAt(w + tail) == None
  {
    assert (w + tail)[0] == w[0];
    if |w| == 2 { assert (w + tail)[1] == w[1]; }
  }

  /** A character is written starting with a low surrogate's escape only if it is one. */
  lemma FirstUnitOfChar(c: CodePoint, tail: Text)
    ensures var u := UnitAt(SafeChar(c) + tail); u.Some? && Low(u.value) ==> Low(c)
  {
    if ShortEscape(c).Some? || (32 <= c <= 126 && !Hazard(c)) {
      NotAUnit(SafeChar(c), tail);
    } else if c < 0x1_0000 {
      UnitReadsBack(c, tail);
    } else {
      PairStarts(0xD800 + (c - 0x1_0000) / 1024, 0xDC00 + (c - 0x1_0000) % 1024, tail);
    }
  }

  /** A printed body starts with its first character. */
  lemma BodySplits(s: Text, rest: Text)
    requires s != []
    ensures SafeChars(s) + [QUOTE] + rest == SafeChar(s[0]) + (SafeChars(s[1..]) + [QUOTE] + rest)
  {
    Sequences.Assoc(SafeChar(s[0]), SafeChars(s[1..]), [QUOTE]);
    Sequences.Assoc(SafeChar(s[0]), SafeChars(s[1..]) + [QUOTE], rest);
  }

  lemma FirstUnit(s: Text, rest: Text)
    ensures var u := UnitAt(SafeChars(s) + [QUOTE] + rest); u.Some? && Low(u.value) ==> s != [] && Low(s[0])
  {
    if s == [] {
      assert (SafeChars(s) + [QUOTE] + rest)[0] == QUOTE;
    } else {
      BodySplits(s, rest);
      FirstUnitOfChar(s[0], SafeChars(s[1..]) + [QUOTE] + rest);
    }
  }

  /** A pair-free string body reads back. */
  lemma {:induction false} StringReadsBack(s: Text, rest: Text)
    requires PairFree(s)
    ensures ParseChars(SafeChars(s) + [QUOTE] + rest) == Some((s, rest))
    decreases |s|
  {
    if s == [] {
      assert SafeChars(s) + [QUOTE] == [QUOTE];
      Sequences.TailOfConcat([QUOTE], rest);
      assert [QUOTE][1..] + rest == rest;
    } else {
      BodySplits(s, rest);
      FirstUnit(s[1..], rest);
      if High(s[0]) && s[1..] != [] { assert s[1..][0] == s[1]; }
      CharReadsBack(s[0], SafeChars(s[1..]) + [QUOTE] + rest);
      StringReadsBack(s[1..], rest);
      Sequences.HeadTail(s);
    }
  }

  /** Escaping for the script element commutes with decoding the string. */
  lemma EscapedStringReadsBack(s: Text, rest: Text)
    requires PairFree(s)
    ensures ParseChars(ScriptEscape(PrintChars(s)) + [QUOTE] + rest) == Some((s, rest))
  {
    EscapedChars(s);
    StringReadsBack(s, rest);
  }

  // ----- numbers -----

  predicate Digit(c: CodePoint) { 48 <= c <= 57 }
  predicate NumberChar(c: CodePoint) { Digit(c) || c == 43 || c == 45 || c == 46 || c == 69 || c == 101 }

  function NatText(n: nat): (t: Text)
    ensures t != [] && (forall c :: c in t ==> Digit(c)) && (t[0] == 48 ==> n == 0 && |t| == 1)
  {
    if n < 10 then [48 + n] else NatText(n / 10) + [48 + n % 10]
  }

  function IntText(n: int): Text { if n < 0 then [45] + NatText(-n) else NatText(n) }

  function NatValue(t: Text): int {
    if t == [] then 0 else NatValue(t[..|t| - 1]) * 10 + (t[|t| - 1] as int - 48)
  }

  function IntValue(t: Text): int { if t != [] && t[0] == 45 then -NatValue(t[1..]) else NatValue(t) }

  function DropDigits(t: Text): (r: Text)
    ensures |r| <= |t|
  {
    if t != [] && Digit(t[0]) then DropDigits(t[1..]) else t
  }

  /** What follows the integer part of a number. */
  function AfterInt(t: Text): Option<Text> {
    var u := if t != [] && t[0] == 45 then t[1..] else t;
    if u == [] || !Digit(u[0]) then None
    else if u[0] == 48 then Some(u[1..])
    else Some(DropDigits(u[1..]))
  }

  function AfterFraction(t: Text): (r: Text)
    ensures |r| <= |t|
  {
    if |t| >= 2 && t[0] == 46 && Digit(t[1]) then DropDigits(t[2..]) else t
  }

  function AfterExponent(t: Text): Text {
    if t == [] || (t[0] != 69 && t[0] != 101) then t
    else
      var u := if |t| >= 2 && (t[1] == 43 || t[1] == 45) then t[2..] else t[1..];
      if u != [] && Digit(u[0]) then DropDigits(u) else t
  }

  predicate IsInt(t: Text) { AfterInt(t) == Some([]) }

  predicate IsFloat(t: Text) {
    AfterInt(t).Some? && AfterInt(t).value != [] && AfterExponent(AfterFraction(AfterInt(t).value)) == []
  }

  /** The longest prefix of number characters. */
  function NumberRun(t: Text): (n: nat)
    ensures n <= |t| && forall i :: 0 <= i < n ==> NumberChar(t[i])
    ensures n < |t| ==> !NumberChar(t[n])
  {
    if t != [] && NumberChar(t[0]) then 1 + NumberRun(t[1..]) else 0
  }

  lemma {:induction false} DroppedAll(t: Text)
    ensures (forall c :: c in t ==> Digit(c)) <==> DropDigits(t) == []
    decreases |t|
  {
    if t != [] && Digit(t[0]) {
      DroppedAll(t[1..]);
      assert t == [t[0]] + t[1..];
    }
  }

  lemma {:induction false} NatReadsBack(n: nat)
    ensures NatValue(NatText(n)) == n
  {
    if n >= 10 {
      NatReadsBack(n / 10);
      assert NatText(n)[..|NatText(n)| - 1] == NatText(n / 10);
    }
  }

  lemma NatIsInt(m: nat)
    ensures AfterInt(NatText(m)) == Some([])
  {
    var t := NatText(m);
    assert t[0] in t;
    DroppedAll(t[1..]);
    if t[0] == 48 { assert t[1..] == []; }
  }

  lemma SignedInt(t: Text)
    requires t != [] && Digit(t[0])
    ensures AfterInt([45] + t) == AfterInt(t) && IntValue([45] + t) == -NatValue(t) && IntValue(t) == NatValue(t)
  {
    assert ([45] + t)[1..] == t;
  }

  lemma IntReadsBack(n: int)
    ensures IsInt(IntText(n)) && IntValue(IntText(n)) == n
    ensures forall c :: c in IntText(n) ==> NumberChar(c)
    ensures Digit(IntText(n)[0]) || IntText(n)[0] == 45
  {
    var m: nat := if n < 0 then -n else n;
    NatReadsBack(m);
    NatIsInt(m);
    assert NatText(m)[0] in NatText(m);
    SignedInt(NatText(m));
  }

  lemma {:induction false} DropKeepsNumberChars(t: Text)
    requires forall c :: c in DropDigits(t) ==> NumberChar(c)
    ensures forall c :: c in t ==> NumberChar(c)
    decreases |t|
  {
    if t != [] && Digit(t[0]) {
      DropKeepsNumberChars(t[1..]);
      assert t == [t[0]] + t[1..];
    }
  }

  lemma FloatChars(t: Text)
    requires IsFloat(t)
    ensures forall c :: c in t ==> NumberChar(c)
    ensures t != [] && (Digit(t[0]) || t[0] == 45)
  {
    var a := AfterInt(t).value;
    var b := AfterFraction(a);
    ExponentChars(b);
    FractionChars(a);
    var u := if t[0] == 45 then t[1..] else t;
    if u[0] != 48 { DropKeepsNumberChars(u[1..]); }
    assert u == [u[0]] + u[1..];
    assert t == if t[0] == 45 then [t[0]] + u else u;
  }

  lemma ExponentChars(t: Text)
    requires AfterExponent(t) == []
    ensures forall c :: c in t ==> NumberChar(c)
  {
    if t != [] {
      var u := if |t| >= 2 && (t[1] == 43 || t[1] == 45) then t[2..] else t[1..];
      DropKeepsNumberChars(u);
      assert t == (if |t| >= 2 && (t[1] == 43 || t[1] == 45) then [t[0], t[1]] else [t[0]]) + u;
    }
  }

  lemma FractionChars(t: Text)
    requires forall c :: c in AfterFraction(t) ==> NumberChar(c)
    ensures forall c :: c in t ==> NumberChar(c)
  {
    if |t| >= 2 && t[0] == 46 && Digit(t[1]) {
      DropKeepsNumberChars(t[2..]);
      assert t == [t[0], t[1]] + t[2..];
    }
  }

  lemma {:induction false} RunStops(t: Text, rest: Text)
    requires (forall c :: c in t ==> NumberChar(c)) && (rest != [] ==> !NumberChar(rest[0]))
    ensures NumberRun(t + rest) == |t|
    decreases |t|
  {
    if t == [] {
      assert t + rest == rest;
    } else {
      assert (t + rest)[1..] == t[1..] + rest;
      RunStops(t[1..], rest);
    }
  }
}
