/**
 JSON values: the printer, the parser that refuses repeated keys, and the exact
 condition under which parsing the embedded text gives the value back.
 */
module JsonValue {
  import opened Wrappers
  import opened JsonText
  import Sequences

  /** An object lists its entries in the order they are written; floats are kept as their decimal text. */
  datatype Json =
    | Null
    | Bool(b: bool)
    | Int(n: int)
    | Float(lexeme: Text)
    | Str(s: Text)
    | Arr(items: seq<Json>)
    | Obj(entries: seq<(Text, Json)>)

  const COMMA: CodePoint := 44
  const COLON: CodePoint := 58
  const OPEN_ARR: CodePoint := 91
  const CLOSE_ARR: CodePoint := 93
  const OPEN_OBJ: CodePoint := 123
  const CLOSE_OBJ: CodePoint := 125

  // The first letters of the words.
  const LOWER_N: CodePoint := 110
  const LOWER_T: CodePoint := 116
  const LOWER_F: CodePoint := 102
  const UPPER_N: CodePoint := 78
  const UPPER_I: CodePoint := 73

  const NULL_WORD: Text := [110, 117, 108, 108]
  const TRUE_WORD: Text := [116, 114, 117, 101]
  const FALSE_WORD: Text := [102, 97, 108, 115, 101]
  const NAN_WORD: Text := [78, 97, 78]
  const INF_WORD: Text := [73, 110, 102, 105, 110, 105, 116, 121]
  const NEG_INF_WORD: Text := [45, 73, 110, 102, 105, 110, 105, 116, 121]

  predicate UniqueKeys(entries: seq<(Text, Json)>) {
    forall i, j :: 0 <= i < j < |entries| ==> entries[i].0 != entries[j].0
  }

  /** What a Python value always satisfies: unique keys, and floats that print as numbers. */
  predicate WellFormed(v: Json) {
    match v
    case Float(l) => IsFloat(l) || l == NAN_WORD || l == INF_WORD || l == NEG_INF_WORD
    case Arr(items) => forall i :: 0 <= i < |items| ==> WellFormed(items[i])
    case Obj(entries) => UniqueKeys(entries) && forall i :: 0 <= i < |entries| ==> WellFormed(entries[i].1)
    case _ => true
  }

  /** No string or key of the value has a high surrogate directly before a low one. */
  predicate Portable(v: Json) {
    match v
    case Str(s) => PairFree(s)
    case Arr(items) => forall i :: 0 <= i < |items| ==> Portable(items[i])
    case Obj(entries) => forall i :: 0 <= i < |entries| ==> PairFree(entries[i].0) && Portable(entries[i].1)
    case _ => true
  }

  // ----- printing -----

  /** A quoted string, as the printer writes it or as it ends up in a script element. */
  function Quoted(s: Text, safe: bool): Text {
    [QUOTE] + (if safe then SafeChars(s) else PrintChars(s)) + [QUOTE]
  }

  function Write(v: Json, safe: bool): Text
    decreases v, 1, 0
  {
    match v
    case Null => NULL_WORD
    case Bool(b) => if b then TRUE_WORD else FALSE_WORD
    case Int(n) => IntText(n)
    case Float(l) => l
    case Str(s) => Quoted(s, safe)
    case Arr(items) => [OPEN_ARR] + (if items == [] then [CLOSE_ARR] else WriteItems(v, 0, safe))
    case Obj(entries) => [OPEN_OBJ] + (if entries == [] then [CLOSE_OBJ] else WriteEntries(v, 0, safe))
  }

  /** Items from index `i`, with the closing bracket. */
  function WriteItems(v: Json, i: nat, safe: bool): Text
    requires v.Arr? && i < |v.items|
    decreases v, 0, |v.items| - i
  {
    Write(v.items[i], safe) + if i + 1 == |v.items| then [CLOSE_ARR] else [COMMA] + WriteItems(v, i + 1, safe)
  }

  function WriteEntries(v: Json, i: nat, safe: bool): Text
    requires v.Obj? && i < |v.entries|
    decreases v, 0, |v.entries| - i
  {
    Quoted(v.entries[i].0, safe) + [COLON] + Write(v.entries[i].1, safe)
    + if i + 1 == |v.entries| then [CLOSE_OBJ] else [COMMA] + WriteEntries(v, i + 1, safe)
  }

  function Dumps(v: Json): Text { Write(v, false) }

  /** The text embedded in the script element. */
  function JsonForScript(v: Json): Text { ScriptEscape(Dumps(v)) }

  // ----- parsing -----

  predicate Space(c: CodePoint) { c == 32 || c == 9 || c == 10 || c == 13 }

  function SkipSpace(t: Text): (r: Text)
    ensures |r| <= |t| && (Ascii(t) ==> Ascii(r))
  {
    if t != [] && Space(t[0]) then SkipSpace(t[1..]) else t
  }

  predicate StartsWith(t: Text, word: Text) { |word| <= |t| && t[..|word|] == word }

  type Parsed = Option<(Json, Text)>

  function ParseWord(t: Text, word: Text, v: Json): (r: Parsed)
    ensures r.Some? ==> |r.value.1| <= |t| - |word| && (Ascii(t) ==> Ascii(r.value.1))
  {
    if StartsWith(t, word) then Some((v, t[|word|..])) else None
  }

  function ParseNumber(t: Text): (r: Parsed)
    ensures r.Some? ==> |r.value.1| < |t| && (Ascii(t) ==> Ascii(r.value.1))
  {
    var n := NumberRun(t);
    var lexeme := t[..n];
    if IsInt(lexeme) then Some((Int(IntValue(lexeme)), t[n..]))
    else if IsFloat(lexeme) then Some((Float(lexeme), t[n..]))
    else ParseWord(t, NEG_INF_WORD, Float(NEG_INF_WORD))
  }

  function ParseString(t: Text): Parsed {
    var r := ParseChars(t);
    if r.None? then None else Some((Str(r.value.0), r.value.1))
  }

  function ParseValue(t: Text): (r: Parsed)
    ensures r.Some? ==> |r.value.1| < |t|
    decreases |t|, 0
  {
    if t == [] then None
    else if t[0] == QUOTE then ParseString(t[1..])
    else if t[0] == OPEN_OBJ then
      var u := SkipSpace(t[1..]);
      if u != [] && u[0] == CLOSE_OBJ then Some((Obj([]), u[1..]))
      else
        var r := ParseEntries(u);
        if r.None? || !UniqueKeys(r.value.0) then None else Some((Obj(r.value.0), r.value.1))
    else if t[0] == OPEN_ARR then
      var u := SkipSpace(t[1..]);
      if u != [] && u[0] == CLOSE_ARR then Some((Arr([]), u[1..]))
      else
        var r := ParseItems(u);
        if r.None? then None else Some((Arr(r.value.0), r.value.1))
    else if t[0] == LOWER_N then ParseWord(t, NULL_WORD, Null)
    else if t[0] == LOWER_T then ParseWord(t, TRUE_WORD, Bool(true))
    else if t[0] == LOWER_F then ParseWord(t, FALSE_WORD, Bool(false))
    else if t[0] == UPPER_N then ParseWord(t, NAN_WORD, Float(NAN_WORD))
    else if t[0] == UPPER_I then ParseWord(t, INF_WORD, Float(INF_WORD))
    else ParseNumber(t)
  }

  /** The items of an array up to and including its closing bracket. */
  function ParseItems(t: Text): (r: Option<(seq<Json>, Text)>)
    ensures r.Some? ==> |r.value.1| < |t|
    decreases |t|, 1
  {
    var first := ParseValue(t);
    if first.None? then None
    else
      var u := SkipSpace(first.value.1);
      if u == [] then None
      else if u[0] == CLOSE_ARR then Some(([first.value.0], u[1..]))
      else if u[0] != COMMA then None
      else
        var rest := ParseItems(SkipSpace(u[1..]));
        if rest.None? then None else Some(([first.value.0] + rest.value.0, rest.value.1))
  }

  /** One `key : value`. */
  function ParseEntry(t: Text): (r: Option<((Text, Json), Text)>)
    ensures r.Some? ==> |r.value.1| < |t|
    decreases |t|, 1
  {
    if t == [] || t[0] != QUOTE then None
    else
      var key := ParseChars(t[1..]);
      if key.None? then None
      else
        var u := SkipSpace(key.value.1);
        if u == [] || u[0] != COLON then None
        else
          var v := ParseValue(SkipSpace(u[1..]));
          if v.None? then None else Some(((key.value.0, v.value.0), v.value.1))
  }

  function ParseEntries(t: Text): (r: Option<(seq<(Text, Json)>, Text)>)
    ensures r.Some? ==> |r.value.1| < |t|
    decreases |t|, 2
  {
    var first := ParseEntry(t);
    if first.None? then None
    else
      var u := SkipSpace(first.value.1);
      if u == [] then None
      else if u[0] == CLOSE_OBJ then Some(([first.value.0], u[1..]))
      else if u[0] != COMMA then None
      else
        var rest := ParseEntries(SkipSpace(u[1..]));
        if rest.None? then None else Some(([first.value.0] + rest.value.0, rest.value.1))
  }

  /** A whole document: one value, with nothing but space around it. */
  function Loads(t: Text): Option<Json> {
    var r := ParseValue(SkipSpace(t));
    if r.None? || SkipSpace(r.value.1) != [] then None else Some(r.value.0)
  }

  // ----- escaping acts on the strings alone -----

  lemma EscapedQuoted(s: Text)
    ensures ScriptEscape(Quoted(s, false)) == Quoted(s, true)
  {
    Inert([QUOTE]);
    EscapeConcat([QUOTE] + PrintChars(s), [QUOTE]);
    EscapeConcat([QUOTE], PrintChars(s));
    EscapedChars(s);
  }

  lemma EscapedScalar(v: Json)
    requires WellFormed(v) && !v.Arr? && !v.Obj?
    ensures ScriptEscape(Write(v, false)) == Write(v, true)
  {
    match v
    case Str(s) => EscapedQuoted(s);
    case Int(n) => IntReadsBack(n); Inert(IntText(n));
    case Float(l) => if IsFloat(l) { FloatChars(l); } Inert(l);
    case _ => Inert(Write(v, false));
  }

  /** An opening bracket and what follows it. */
  lemma EscapedBracket(c: CodePoint, t: Text, escaped: Text)
    requires !Hazard(c) && ScriptEscape(t) == escaped
    ensures ScriptEscape([c] + t) == [c] + escaped
  {
    Inert([c]);
    EscapeConcat([c], t);
  }

  lemma {:induction false} EscapedWrite(v: Json)
    requires WellFormed(v)
    ensures ScriptEscape(Write(v, false)) == Write(v, true)
    decreases v, 1, 0
  {
    match v
    case Arr(items) =>
      Inert([CLOSE_ARR]);
      if items != [] { EscapedItems(v, 0); }
      EscapedBracket(OPEN_ARR, if items == [] then [CLOSE_ARR] else WriteItems(v, 0, false),
                     if items == [] then [CLOSE_ARR] else WriteItems(v, 0, true));
    case Obj(entries) =>
      Inert([CLOSE_OBJ]);
      if entries != [] { EscapedEntries(v, 0); }
      EscapedBracket(OPEN_OBJ, if entries == [] then [CLOSE_OBJ] else WriteEntries(v, 0, false),
                     if entries == [] then [CLOSE_OBJ] else WriteEntries(v, 0, true));
    case _ => EscapedScalar(v);
  }

  lemma {:induction false} EscapedItems(v: Json, i: nat)
    requires v.Arr? && i < |v.items| && WellFormed(v)
    ensures ScriptEscape(WriteItems(v, i, false)) == WriteItems(v, i, true)
    decreases v, 0, |v.items| - i
  {
    EscapedWrite(v.items[i]);
    if i + 1 == |v.items| {
      Inert([CLOSE_ARR]);
      EscapeConcat(Write(v.items[i], false), [CLOSE_ARR]);
    } else {
      EscapedItems(v, i + 1);
      Inert([COMMA]);
      EscapeConcat([COMMA], WriteItems(v, i + 1, false));
      EscapeConcat(Write(v.items[i], false), [COMMA] + WriteItems(v, i + 1, false));
    }
  }

  lemma {:induction false} EscapedEntries(v: Json, i: nat)
    requires v.Obj? && i < |v.entries| && WellFormed(v)
    ensures ScriptEscape(WriteEntries(v, i, false)) == WriteEntries(v, i, true)
    decreases v, 0, |v.entries| - i
  {
    var key, item := Quoted(v.entries[i].0, false), Write(v.entries[i].1, false);
    EscapedQuoted(v.entries[i].0);
    EscapedWrite(v.entries[i].1);
    Inert([COLON]);
    EscapeConcat(key, [COLON]);
    EscapeConcat(key + [COLON], item);
    if i + 1 == |v.entries| {
      Inert([CLOSE_OBJ]);
      EscapeConcat(key + [COLON] + item, [CLOSE_OBJ]);
    } else {
      EscapedEntries(v, i + 1);
      Inert([COMMA]);
      EscapeConcat([COMMA], WriteEntries(v, i + 1, false));
      EscapeConcat(key + [COLON] + item, [COMMA] + WriteEntries(v, i + 1, false));
    }
  }

  // ----- reading back -----

  /** A continuation that cannot be taken for part of a number. */
  predicate Stops(rest: Text) { rest != [] ==> !NumberChar(rest[0]) }

  lemma WordReadsBack(word: Text, v: Json, rest: Text)
    ensures ParseWord(word + rest, word, v) == Some((v, rest))
  {
    assert (word + rest)[..|word|] == word && (word + rest)[|word|..] == rest;
  }

  lemma NumberReadsBack(lexeme: Text, rest: Text)
    requires (IsInt(lexeme) || IsFloat(lexeme)) && Stops(rest)
    requires forall c :: c in lexeme ==> NumberChar(c)
    ensures ParseNumber(lexeme + rest) == Some((if IsInt(lexeme) then Int(IntValue(lexeme)) else Float(lexeme), rest))
  {
    RunStops(lexeme, rest);
    var t := lexeme + rest;
    assert t[..|lexeme|] == lexeme && t[|lexeme|..] == rest;
  }

  lemma NegativeInfinityReadsBack(rest: Text)
    ensures ParseNumber(NEG_INF_WORD + rest) == Some((Float(NEG_INF_WORD), rest))
  {
    var t := NEG_INF_WORD + rest;
    assert t[0] == 45 && t[1] == 73 && t[1..][0] == 73;
    assert NumberRun(t) == 1;
    assert t[..1] == [45];
    WordReadsBack(NEG_INF_WORD, Float(NEG_INF_WORD), rest);
  }

  lemma DispatchNumber(t: Text)
    requires t != [] && (Digit(t[0]) || t[0] == 45)
    ensures ParseValue(t) == ParseNumber(t)
  {}

  lemma WordsDispatch(word: Text, v: Json, rest: Text)
    requires || (word == NULL_WORD && v == Null)
             || (word == TRUE_WORD && v == Bool(true))
             || (word == FALSE_WORD && v == Bool(false))
             || (word == NAN_WORD && v == Float(NAN_WORD)) || (word == INF_WORD && v == Float(INF_WORD))
    ensures ParseValue(word + rest) == Some((v, rest))
  {
    WordReadsBack(word, v, rest);
    assert (word + rest)[0] == word[0];
  }

  lemma DispatchString(u: Text)
    ensures ParseValue([QUOTE] + u) == ParseString(u)
  {
    assert ([QUOTE] + u)[1..] == u;
  }

  lemma DispatchArray(u: Text)
    requires u != [] && SkipSpace(u) == u
    ensures ParseValue([OPEN_ARR] + u) ==
            if u[0] == CLOSE_ARR then Some((Arr([]), u[1..]))
            else if ParseItems(u).None? then None
            else Some((Arr(ParseItems(u).value.0), ParseItems(u).value.1))
  {
    assert ([OPEN_ARR] + u)[1..] == u;
  }

  lemma DispatchObject(u: Text)
    requires u != [] && SkipSpace(u) == u
    ensures ParseValue([OPEN_OBJ] + u) ==
            if u[0] == CLOSE_OBJ then Some((Obj([]), u[1..]))
            else if ParseEntries(u).None? || !UniqueKeys(ParseEntries(u).value.0) then None
            else Some((Obj(ParseEntries(u).value.0), ParseEntries(u).value.1))
  {
    assert ([OPEN_OBJ] + u)[1..] == u;
  }

  lemma FloatReadsBack(l: Text, rest: Text)
    requires WellFormed(Float(l)) && Stops(rest)
    ensures ParseValue(l + rest) == Some((Float(l), rest))
  {
    var t := l + rest;
    if IsFloat(l) {
      FloatChars(l);
      NumberReadsBack(l, rest);
      assert t[0] == l[0];
      DispatchNumber(t);
    } else if l == NEG_INF_WORD {
      NegativeInfinityReadsBack(rest);
      assert t[0] == 45;
      DispatchNumber(t);
    } else {
      WordsDispatch(l, Float(l), rest);
    }
  }

  lemma IntTextReadsBack(n: int, rest: Text)
    requires Stops(rest)
    ensures ParseValue(IntText(n) + rest) == Some((Int(n), rest))
  {
    IntReadsBack(n);
    NumberReadsBack(IntText(n), rest);
    assert (IntText(n) + rest)[0] == IntText(n)[0];
    DispatchNumber(IntText(n) + rest);
  }

  lemma QuotedReadsBack(s: Text, rest: Text)
    requires PairFree(s)
    ensures ParseValue(Quoted(s, true) + rest) == Some((Str(s), rest))
  {
    StringReadsBack(s, rest);
    var body := SafeChars(s) + [QUOTE];
    Sequences.Assoc([QUOTE], SafeChars(s), [QUOTE]);
    Sequences.Assoc([QUOTE], body, rest);
    DispatchString(body + rest);
  }

  lemma ScalarReadsBack(v: Json, rest: Text)
    requires !v.Arr? && !v.Obj? && WellFormed(v) && Portable(v) && Stops(rest)
    ensures ParseValue(Write(v, true) + rest) == Some((v, rest))
  {
    match v
    case Null => WordsDispatch(NULL_WORD, v, rest);
    case Bool(b) => WordsDispatch(Write(v, true), v, rest);
    case Int(n) => IntTextReadsBack(n, rest);
    case Float(l) => FloatReadsBack(l, rest);
    case Str(s) => QuotedReadsBack(s, rest);
  }

  /** The first character of a written value is neither space nor a closing bracket. */
  lemma FirstOfValue(v: Json)
    requires WellFormed(v)
    ensures var w := Write(v, true); w != [] && !Space(w[0]) && w[0] != CLOSE_ARR && w[0] != CLOSE_OBJ
  {
    match v
    case Int(n) => IntReadsBack(n);
    case Float(l) => if IsFloat(l) { FloatChars(l); }
    case _ =>
  }

  lemma NoSpace(t: Text)
    requires t != [] && !Space(t[0])
    ensures SkipSpace(t) == t
  {}

  lemma {:induction false} ValueReadsBack(v: Json, rest: Text)
    requires WellFormed(v) && Portable(v) && Stops(rest)
    ensures ParseValue(Write(v, true) + rest) == Some((v, rest))
    decreases v, 1, 0
  {
    match v
    case Arr(items) => ArrayReadsBack(v, rest);
    case Obj(entries) => ObjectReadsBack(v, rest);
    case _ => ScalarReadsBack(v, rest);
  }

  lemma {:induction false} ArrayReadsBack(v: Json, rest: Text)
    requires v.Arr? && WellFormed(v) && Portable(v)
    ensures ParseValue(Write(v, true) + rest) == Some((v, rest))
    decreases v, 0, |v.items| + 1
  {
    var u := (if v.items == [] then [CLOSE_ARR] else WriteItems(v, 0, true)) + rest;
    assert Write(v, true) + rest == [OPEN_ARR] + u;
    if v.items == [] {
      NoSpace(u);
      assert u[1..] == rest;
    } else {
      ItemsStart(v, 0, rest);
      ItemsReadBack(v, 0, rest);
      assert v.items[0..] == v.items;
    }
    DispatchArray(u);
  }

  lemma {:induction false} ObjectReadsBack(v: Json, rest: Text)
    requires v.Obj? && WellFormed(v) && Portable(v)
    ensures ParseValue(Write(v, true) + rest) == Some((v, rest))
    decreases v, 0, |v.entries| + 1
  {
    var u := (if v.entries == [] then [CLOSE_OBJ] else WriteEntries(v, 0, true)) + rest;
    assert Write(v, true) + rest == [OPEN_OBJ] + u;
    if v.entries == [] {
      NoSpace(u);
      assert u[1..] == rest;
    } else {
      EntriesStart(v, 0, rest);
      EntriesReadBack(v, 0, rest);
      assert v.entries[0..] == v.entries;
    }
    DispatchObject(u);
  }

  lemma LastItem(t: Text, v: Json, rest: Text)
    requires ParseValue(t) == Some((v, [CLOSE_ARR] + rest))
    ensures ParseItems(t) == Some(([v], rest))
  {
    Sequences.Parts([CLOSE_ARR], rest);
  }

  lemma MoreItems(t: Text, v: Json, next: Text)
    requires ParseValue(t) == Some((v, [COMMA] + next)) && SkipSpace(next) == next
    ensures ParseItems(t)
            == if ParseItems(next).None? then None
               else Some(([v] + ParseItems(next).value.0, ParseItems(next).value.1))
  {
    Sequences.Parts([COMMA], next);
  }

  lemma ItemsStart(v: Json, i: nat, rest: Text)
    requires v.Arr? && i < |v.items| && WellFormed(v)
    ensures var t := WriteItems(v, i, true) + rest; t != [] && SkipSpace(t) == t && t[0] != CLOSE_ARR
  {
    FirstOfValue(v.items[i]);
    var t := WriteItems(v, i, true) + rest;
    assert t[0] == Write(v.items[i], true)[0];
    NoSpace(t);
  }

  /** How the items from `i` on are laid out in front of a continuation. */
  lemma ItemsLayout(v: Json, i: nat, rest: Text)
    requires v.Arr? && i < |v.items|
    ensures WriteItems(v, i, true) + rest ==
            Write(v.items[i], true)
            + if i + 1 == |v.items| then [CLOSE_ARR] + rest else [COMMA] + (WriteItems(v, i + 1, true) + rest)
  {
    var w := Write(v.items[i], true);
    if i + 1 == |v.items| {
      Sequences.Assoc(w, [CLOSE_ARR], rest);
    } else {
      Sequences.Assoc(w, [COMMA] + WriteItems(v, i + 1, true), rest);
      Sequences.Assoc([COMMA], WriteItems(v, i + 1, true), rest);
    }
  }

  lemma {:induction false} ItemsReadBack(v: Json, i: nat, rest: Text)
    requires v.Arr? && i < |v.items| && WellFormed(v) && Portable(v)
    ensures ParseItems(WriteItems(v, i, true) + rest) == Some((v.items[i..], rest))
    decreases v, 0, |v.items| - i
  {
    var t := WriteItems(v, i, true) + rest;
    ItemsLayout(v, i, rest);
    Sequences.DropOne(v.items, i);
    if i + 1 == |v.items| {
      ValueReadsBack(v.items[i], [CLOSE_ARR] + rest);
      LastItem(t, v.items[i], rest);
    } else {
      var next := WriteItems(v, i + 1, true) + rest;
      ValueReadsBack(v.items[i], [COMMA] + next);
      ItemsStart(v, i + 1, rest);
      ItemsReadBack(v, i + 1, rest);
      MoreItems(t, v.items[i], next);
    }
  }

  /** A key, a colon and a value. */
  lemma EntryParses(t: Text, key: Text, value: Text, item: Json, after: Text)
    requires t != [] && t[0] == QUOTE && ParseChars(t[1..]) == Some((key, [COLON] + value))
    requires SkipSpace(value) == value && ParseValue(value) == Some((item, after))
    ensures ParseEntry(t) == Some(((key, item), after))
  {
    Sequences.Parts([COLON], value);
  }

  lemma EntryLayout(key: Text, w: Text, after: Text)
    ensures var t := Quoted(key, true) + [COLON] + w + after;
            t != [] && t[0] == QUOTE && t[1..] == SafeChars(key) + [QUOTE] + ([COLON] + (w + after))
  {
    var body := SafeChars(key) + [QUOTE];
    Sequences.Assoc([QUOTE], SafeChars(key), [QUOTE]);
    assert Quoted(key, true) == [QUOTE] + body;
    Sequences.Assoc(Quoted(key, true) + [COLON], w, after);
    Sequences.Assoc(Quoted(key, true), [COLON], w + after);
    Sequences.Assoc([QUOTE], body, [COLON] + (w + after));
    Sequences.Parts([QUOTE], body + ([COLON] + (w + after)));
  }

  lemma {:induction false} EntryReadsBack(v: Json, i: nat, after: Text)
    requires v.Obj? && i < |v.entries| && WellFormed(v) && Portable(v) && Stops(after)
    ensures ParseEntry(Quoted(v.entries[i].0, true) + [COLON] + Write(v.entries[i].1, true) + after)
            == Some((v.entries[i], after))
    decreases v, 0, 0
  {
    var key, w := v.entries[i].0, Write(v.entries[i].1, true);
    var value := w + after;
    EntryLayout(key, w, after);
    StringReadsBack(key, [COLON] + value);
    FirstOfValue(v.entries[i].1);
    assert value[0] == w[0];
    NoSpace(value);
    ValueReadsBack(v.entries[i].1, after);
    EntryParses(Quoted(key, true) + [COLON] + w + after, key, value, v.entries[i].1, after);
  }

  lemma LastEntry(t: Text, e: (Text, Json), rest: Text)
    requires ParseEntry(t) == Some((e, [CLOSE_OBJ] + rest))
    ensures ParseEntries(t) == Some(([e], rest))
  {
    assert ([CLOSE_OBJ] + rest)[1..] == rest;
  }

  lemma MoreEntries(t: Text, e: (Text, Json), next: Text)
    requires ParseEntry(t) == Some((e, [COMMA] + next)) && SkipSpace(next) == next
    ensures ParseEntries(t)
            == if ParseEntries(next).None? then None
               else Some(([e] + ParseEntries(next).value.0, ParseEntries(next).value.1))
  {
    assert ([COMMA] + next)[1..] == next;
  }

  lemma EntriesStart(v: Json, i: nat, rest: Text)
    requires v.Obj? && i < |v.entries|
    ensures var t := WriteEntries(v, i, true) + rest; t != [] && t[0] == QUOTE && SkipSpace(t) == t
  {
    var t := WriteEntries(v, i, true) + rest;
    assert t[0] == QUOTE;
    NoSpace(t);
  }

  lemma EntriesLayout(v: Json, i: nat, rest: Text)
    requires v.Obj? && i < |v.entries|
    ensures WriteEntries(v, i, true) + rest ==
            Quoted(v.entries[i].0, true) + [COLON] + Write(v.entries[i].1, true)
            + if i + 1 == |v.entries| then [CLOSE_OBJ] + rest else [COMMA] + (WriteEntries(v, i + 1, true) + rest)
  {
    var w := Quoted(v.entries[i].0, true) + [COLON] + Write(v.entries[i].1, true);
    if i + 1 == |v.entries| {
      Sequences.Assoc(w, [CLOSE_OBJ], rest);
    } else {
      Sequences.Assoc(w, [COMMA] + WriteEntries(v, i + 1, true), rest);
      Sequences.Assoc([COMMA], WriteEntries(v, i + 1, true), rest);
    }
  }

  lemma {:induction false} EntriesReadBack(v: Json, i: nat, rest: Text)
    requires v.Obj? && i < |v.entries| && WellFormed(v) && Portable(v)
    ensures ParseEntries(WriteEntries(v, i, true) + rest) == Some((v.entries[i..], rest))
    decreases v, 0, |v.entries| - i
  {
    var t := WriteEntries(v, i, true) + rest;
    EntriesLayout(v, i, rest);
    Sequences.DropOne(v.entries, i);
    if i + 1 == |v.entries| {
      EntryReadsBack(v, i, [CLOSE_OBJ] + rest);
      LastEntry(t, v.entries[i], rest);
    } else {
      var next := WriteEntries(v, i + 1, true) + rest;
      EntryReadsBack(v, i, [COMMA] + next);
      EntriesStart(v, i + 1, rest);
      EntriesReadBack(v, i + 1, rest);
      MoreEntries(t, v.entries[i], next);
    }
  }

  // ----- what ASCII text can contain -----

  lemma AsciiSuffix(t: Text, n: nat)
    requires Ascii(t) && n <= |t|
    ensures Ascii(t[n..])
  {}

  /** ASCII text never yields a value with an adjacent surrogate pair. */
  lemma {:induction false} ParsedIsPortable(t: Text)
    requires Ascii(t) && ParseValue(t).Some?
    ensures Portable(ParseValue(t).value.0) && Ascii(ParseValue(t).value.1)
    decreases |t|, 0
  {
    AsciiSuffix(t, 1);
    if t[0] == QUOTE {
      ReadIsPairFree(t[1..]);
    } else if t[0] == OPEN_OBJ {
      var u := SkipSpace(t[1..]);
      if u != [] && u[0] == CLOSE_OBJ { AsciiSuffix(u, 1); } else { EntriesArePortable(u); }
    } else if t[0] == OPEN_ARR {
      var u := SkipSpace(t[1..]);
      if u != [] && u[0] == CLOSE_ARR { AsciiSuffix(u, 1); } else { ItemsArePortable(u); }
    }
  }

  lemma {:induction false} ItemsArePortable(t: Text)
    requires Ascii(t) && ParseItems(t).Some?
    ensures (forall i :: 0 <= i < |ParseItems(t).value.0| ==> Portable(ParseItems(t).value.0[i]))
    ensures Ascii(ParseItems(t).value.1)
    decreases |t|, 1
  {
    ParsedIsPortable(t);
    var u := SkipSpace(ParseValue(t).value.1);
    AsciiSuffix(u, 1);
    if u[0] == COMMA { ItemsArePortable(SkipSpace(u[1..])); }
  }

  lemma {:induction false} EntryIsPortable(t: Text)
    requires Ascii(t) && ParseEntry(t).Some?
    ensures PairFree(ParseEntry(t).value.0.0) && Portable(ParseEntry(t).value.0.1) && Ascii(ParseEntry(t).value.1)
    decreases |t|, 1
  {
    AsciiSuffix(t, 1);
    ReadIsPairFree(t[1..]);
    var u := SkipSpace(ParseChars(t[1..]).value.1);
    AsciiSuffix(u, 1);
    ParsedIsPortable(SkipSpace(u[1..]));
  }

  lemma {:induction false} EntriesArePortable(t: Text)
    requires Ascii(t) && ParseEntries(t).Some?
    ensures Portable(Obj(ParseEntries(t).value.0)) && Ascii(ParseEntries(t).value.1)
    decreases |t|, 2
  {
    EntryIsPortable(t);
    var u := SkipSpace(ParseEntry(t).value.1);
    AsciiSuffix(u, 1);
    if u[0] == COMMA { EntriesArePortable(SkipSpace(u[1..])); }
  }

  lemma {:induction false} CharsAreAscii(s: Text)
    ensures Ascii(PrintChars(s))
    decreases |s|
  {
    if s != [] { CharsAreAscii(s[1..]); }
  }

  /** The printer writes ASCII whatever the strings hold. */
  lemma {:induction false} WriteIsAscii(v: Json)
    requires WellFormed(v)
    ensures Ascii(Write(v, false))
    decreases v, 1, 0
  {
    match v
    case Int(n) => IntReadsBack(n); NumberCharsAreAscii(IntText(n));
    case Float(l) => if IsFloat(l) { FloatChars(l); NumberCharsAreAscii(l); }
    case Str(s) => CharsAreAscii(s);
    case Arr(items) => if items != [] { ItemsAreAscii(v, 0); }
    case Obj(entries) => if entries != [] { EntriesAreAscii(v, 0); }
    case _ =>
  }

  lemma NumberCharsAreAscii(t: Text)
    requires forall c :: c in t ==> NumberChar(c)
    ensures Ascii(t)
  {
    forall i | 0 <= i < |t| ensures t[i] < 128 { assert t[i] in t; }
  }

  lemma AsciiConcat(a: Text, b: Text)
    requires Ascii(a) && Ascii(b)
    ensures Ascii(a + b)
  {}

  lemma {:induction false} ItemsAreAscii(v: Json, i: nat)
    requires v.Arr? && i < |v.items| && WellFormed(v)
    ensures Ascii(WriteItems(v, i, false))
    decreases v, 0, |v.items| - i
  {
    var w := Write(v.items[i], false);
    WriteIsAscii(v.items[i]);
    if i + 1 < |v.items| {
      ItemsAreAscii(v, i + 1);
      AsciiConcat([COMMA], WriteItems(v, i + 1, false));
      AsciiConcat(w, [COMMA] + WriteItems(v, i + 1, false));
    } else {
      AsciiConcat(w, [CLOSE_ARR]);
    }
  }

  lemma EntryIsAscii(key: Text, w: Text)
    requires Ascii(w)
    ensures Ascii(Quoted(key, false) + [COLON] + w)
  {
    CharsAreAscii(key);
    AsciiConcat([QUOTE], PrintChars(key));
    AsciiConcat([QUOTE] + PrintChars(key), [QUOTE]);
    AsciiConcat(Quoted(key, false), [COLON]);
    AsciiConcat(Quoted(key, false) + [COLON], w);
  }

  lemma {:induction false} EntriesAreAscii(v: Json, i: nat)
    requires v.Obj? && i < |v.entries| && WellFormed(v)
    ensures Ascii(WriteEntries(v, i, false))
    decreases v, 0, |v.entries| - i
  {
    WriteIsAscii(v.entries[i].1);
    EntryIsAscii(v.entries[i].0, Write(v.entries[i].1, false));
    var e := Quoted(v.entries[i].0, false) + [COLON] + Write(v.entries[i].1, false);
    if i + 1 < |v.entries| {
      EntriesAreAscii(v, i + 1);
      AsciiConcat([COMMA], WriteEntries(v, i + 1, false));
      AsciiConcat(e, [COMMA] + WriteEntries(v, i + 1, false));
    } else {
      AsciiConcat(e, [CLOSE_OBJ]);
    }
  }

  // ----- the round trip -----

  lemma PortableReadsBack(v: Json)
    requires WellFormed(v) && Portable(v)
    ensures Loads(Write(v, true)) == Some(v)
  {
    var t := Write(v, true);
    FirstOfValue(v);
    NoSpace(t);
    ValueReadsBack(v, []);
    assert t + [] == t;
  }

  lemma LoadedIsPortable(t: Text)
    requires Ascii(t) && Loads(t).Some?
    ensures Portable(Loads(t).value)
  {
    ParsedIsPortable(SkipSpace(t));
  }

  /** The embedded text parses back to the value exactly when no string has an adjacent surrogate pair. */
  lemma EmbeddedRoundTripIff(v: Json)
    requires WellFormed(v)
    ensures Loads(JsonForScript(v)) == Some(v) <==> Portable(v)
  {
    EscapedWrite(v);
    if Portable(v) {
      PortableReadsBack(v);
    } else {
      WriteIsAscii(v);
      EscapedIsAscii(Dumps(v));
      if Loads(JsonForScript(v)).Some? { LoadedIsPortable(JsonForScript(v)); }
    }
  }

  /** Two strings that differ only in how a pair is spelled print alike. */
  lemma PairsPrintAlike()
    ensures Dumps(Str([0xD83D, 0xDE00])) == Dumps(Str([0x1F600]))
  {
    var pair: Text := [0xD83D, 0xDE00];
    assert PrintChars(pair) == PrintChar(0xD83D) + PrintChars(pair[1..]);
    assert PrintChars(pair[1..]) == PrintChar(0xDE00) + [];
    var one: Text := [0x1F600];
    assert PrintChars(one) == PrintChar(0x1F600) + PrintChars(one[1..]);
    assert PrintChars(one[1..]) == [];
  }

  /** A repeated key is refused wherever it stands, even though the last value would win. */
  lemma {:induction false} ParsedIsWellFormed(t: Text)
    requires ParseValue(t).Some?
    ensures WellFormed(ParseValue(t).value.0)
    decreases |t|, 0
  {
    if t[0] == OPEN_OBJ {
      var u := SkipSpace(t[1..]);
      if !(u != [] && u[0] == CLOSE_OBJ) { EntriesAreWellFormed(u); }
    } else if t[0] == OPEN_ARR {
      var u := SkipSpace(t[1..]);
      if !(u != [] && u[0] == CLOSE_ARR) { ItemsAreWellFormed(u); }
    }
  }

  lemma {:induction false} ItemsAreWellFormed(t: Text)
    requires ParseItems(t).Some?
    ensures forall i :: 0 <= i < |ParseItems(t).value.0| ==> WellFormed(ParseItems(t).value.0[i])
    decreases |t|, 1
  {
    ParsedIsWellFormed(t);
    var u := SkipSpace(ParseValue(t).value.1);
    if u[0] == COMMA { ItemsAreWellFormed(SkipSpace(u[1..])); }
  }

  lemma {:induction false} EntriesAreWellFormed(t: Text)
    requires ParseEntries(t).Some?
    ensures forall i :: 0 <= i < |ParseEntries(t).value.0| ==> WellFormed(ParseEntries(t).value.0[i].1)
    decreases |t|, 1
  {
    var key := ParseChars(t[1..]);
    ParsedIsWellFormed(SkipSpace(SkipSpace(key.value.1)[1..]));
    var u := SkipSpace(ParseEntry(t).value.1);
    if u[0] == COMMA { EntriesAreWellFormed(SkipSpace(u[1..])); }
  }
}
