/**
 The bundle document: escaped prose and fixed markup around one script element
 that carries the payload, and the scan that finds it again.
 */
module BundleDocument {
  import opened Wrappers
  import opened JsonText
  import opened JsonValue

  function Codes(s: string): (t: Text)
    ensures |t| == |s| && forall i :: 0 <= i < |s| ==> t[i] == s[i] as int
  {
    seq(|s|, i requires 0 <= i < |s| => s[i] as int)
  }

  const LESS: CodePoint := 60

  // The opening tag in two parts; the second starts with the first double quote.
  const TAG_HEAD: Text := Codes("<script type=")
  const TAG_REST: Text := [QUOTE] + Codes("application/json\" id=\"dreamy-bundle\">")
  const END_TAG: Text := Codes("</script>")

  const TAG: Text := TAG_HEAD + TAG_REST

  lemma TagShape()
    ensures |TAG| > 13 && TAG[0] == LESS && TAG[13] == QUOTE && forall k :: 1 <= k < 13 ==> TAG[k] != LESS
  {
    var s := "<script type=";
    assert |TAG_HEAD| == 13;
    assert forall k :: 0 <= k < 13 ==> TAG[k] == s[k] as int;
  }

  lemma EndTagShape()
    ensures |END_TAG| == 9 && END_TAG[0] == LESS
  {
    var s := "</script>";
  }

  // ----- prose -----

  function HtmlChar(c: CodePoint): Text {
    if c == 38 then Codes("&amp;") else if c == LESS then Codes("&lt;") else if c == 62 then Codes("&gt;")
    else if c == QUOTE then Codes("&quot;") else if c == 39 then Codes("&#x27;")
    else [c]
  }

  function HtmlEscape(s: Text): Text {
    if s == [] then [] else HtmlChar(s[0]) + HtmlEscape(s[1..])
  }

  /** Fixed markup, which never uses double quotes, or prose, which is escaped. */
  datatype Piece = Markup(t: Text) | Prose(s: Text)

  function Render(pieces: seq<Piece>): Text {
    if pieces == [] then []
    else (match pieces[0] case Markup(t) => t case Prose(s) => HtmlEscape(s)) + Render(pieces[1..])
  }

  predicate QuoteFreeMarkup(pieces: seq<Piece>) {
    forall i :: 0 <= i < |pieces| && pieces[i].Markup? ==> QUOTE !in pieces[i].t
  }

  lemma {:induction false} EscapedHasNoQuote(s: Text)
    ensures QUOTE !in HtmlEscape(s) && LESS !in HtmlEscape(s)
    decreases |s|
  {
    if s != [] {
      EscapedHasNoQuote(s[1..]);
      CharHasNoQuote(s[0]);
    }
  }

  lemma CharHasNoQuote(c: CodePoint)
    ensures QUOTE !in HtmlChar(c) && LESS !in HtmlChar(c)
  {
    var amp, lt, gt, quot, apos := "&amp;", "&lt;", "&gt;", "&quot;", "&#x27;";
    var t := HtmlChar(c);
    assert forall i :: 0 <= i < |t| ==> t[i] != QUOTE && t[i] != LESS;
  }

  lemma {:induction false} RenderedHasNoQuote(pieces: seq<Piece>)
    requires QuoteFreeMarkup(pieces)
    ensures QUOTE !in Render(pieces)
    decreases |pieces|
  {
    if pieces != [] {
      RenderedHasNoQuote(pieces[1..]);
      if pieces[0].Prose? { EscapedHasNoQuote(pieces[0].s); }
    }
  }

  function Document(before: seq<Piece>, payload: Json, after: seq<Piece>): Text {
    Render(before) + TAG + JsonForScript(payload) + END_TAG + Render(after)
  }

  // ----- the scan -----

  /** `w` stands at position `i` of `t`. */
  predicate At(t: Text, w: Text, i: nat) {
    i + |w| <= |t| && forall k :: 0 <= k < |w| ==> t[i + k] == w[k]
  }

  /** The first occurrence at or after `i`. */
  function IndexFrom(t: Text, w: Text, i: nat): (r: Option<nat>)
    requires i <= |t|
    ensures r.Some? ==> i <= r.value && At(t, w, r.value) && forall k :: i <= k < r.value ==> !At(t, w, k)
    ensures r.None? ==> forall k :: i <= k <= |t| ==> !At(t, w, k)
    decreases |t| - i
  {
    if At(t, w, i) then Some(i) else if i == |t| then None else IndexFrom(t, w, i + 1)
  }

  /** All payload texts: from each opening tag to the first end tag after it. */
  function FindAll(t: Text, i: nat): seq<Text>
    requires i <= |t|
    decreases |t| - i
  {
    TagShape();
    EndTagShape();
    var start := IndexFrom(t, TAG, i);
    if start.None? then []
    else
      var from := start.value + |TAG|;
      var end := IndexFrom(t, END_TAG, from);
      if end.None? then FindAll(t, start.value + 1)
      else [t[from..end.value]] + FindAll(t, end.value + |END_TAG|)
  }

  /** The pieces of a document, by position. */
  ghost predicate Layout(t: Text, before: Text, body: Text, after: Text) {
    && |t| == |before| + |TAG| + |body| + |END_TAG| + |after|
    && (forall i :: 0 <= i < |before| ==> t[i] == before[i])
    && At(t, TAG, |before|)
    && (forall i :: 0 <= i < |body| ==> t[|before| + |TAG| + i] == body[i])
    && At(t, END_TAG, |before| + |TAG| + |body|)
    && (forall i :: 0 <= i < |after| ==> t[|before| + |TAG| + |body| + |END_TAG| + i] == after[i])
  }

  lemma LaidOut(before: Text, body: Text, after: Text)
    ensures Layout(before + TAG + body + END_TAG + after, before, body, after)
  {}

  lemma TagAt(t: Text, i: nat)
    requires At(t, TAG, i)
    ensures i + 13 < |t| && t[i] == LESS && t[i + 13] == QUOTE && forall j :: i < j < i + 13 ==> t[j] != LESS
  {
    TagShape();
    assert t[i + 0] == TAG[0] && t[i + 13] == TAG[13];
    forall j | i < j < i + 13 ensures t[j] != LESS { assert t[i + (j - i)] == TAG[j - i]; }
  }

  /** Double quotes stand only in the payload element. */
  lemma NoQuoteOutside(t: Text, before: Text, body: Text, after: Text)
    requires Layout(t, before, body, after) && QUOTE !in before && QUOTE !in after
    ensures forall q :: 0 <= q < |before| ==> t[q] != QUOTE
    ensures forall q :: |before| + |TAG| + |body| + |END_TAG| <= q < |t| ==> t[q] != QUOTE
  {
    var end := |before| + |TAG| + |body| + |END_TAG|;
    forall q | 0 <= q < |before| ensures t[q] != QUOTE { assert before[q] in before; }
    forall q | end <= q < |t| ensures t[q] != QUOTE {
      assert t[end + (q - end)] == after[q - end];
      assert after[q - end] in after;
    }
  }

  /** The opening tag stands in the document at exactly one place. */
  lemma OneOpeningTag(t: Text, before: Text, body: Text, after: Text, i: nat)
    requires Layout(t, before, body, after) && QUOTE !in before && QUOTE !in after && LESS !in body
    requires At(t, TAG, i)
    requires i <= |before| || |before| + |TAG| + |body| + |END_TAG| <= i
    ensures i == |before|
  {
    TagAt(t, i);
    TagAt(t, |before|);
    NoQuoteOutside(t, before, body, after);
  }

  lemma AtStarts(t: Text, w: Text, k: nat)
    requires w != []
    ensures At(t, w, k) ==> t[k] == w[0]
  {
    assert At(t, w, k) ==> t[k + 0] == w[0];
  }

  lemma FirstEndTag(t: Text, before: Text, body: Text, after: Text)
    requires Layout(t, before, body, after) && LESS !in body
    ensures IndexFrom(t, END_TAG, |before| + |TAG|) == Some(|before| + |TAG| + |body|)
  {
    EndTagShape();
    var from := |before| + |TAG|;
    forall k | from <= k < from + |body| ensures !At(t, END_TAG, k) {
      assert t[from + (k - from)] == body[k - from];
      assert body[k - from] in body;
      AtStarts(t, END_TAG, k);
    }
  }

  lemma NothingAfter(t: Text, before: Text, body: Text, after: Text)
    requires Layout(t, before, body, after) && QUOTE !in before && QUOTE !in after && LESS !in body
    ensures IndexFrom(t, TAG, |before| + |TAG| + |body| + |END_TAG|) == None
  {
    var again := IndexFrom(t, TAG, |before| + |TAG| + |body| + |END_TAG|);
    if again.Some? { OneOpeningTag(t, before, body, after, again.value); }
  }

  lemma FirstOpeningTag(t: Text, before: Text, body: Text, after: Text)
    requires Layout(t, before, body, after) && QUOTE !in before && QUOTE !in after && LESS !in body
    ensures IndexFrom(t, TAG, 0) == Some(|before|)
  {
    var start := IndexFrom(t, TAG, 0);
    if start.Some? { OneOpeningTag(t, before, body, after, start.value); }
  }

  lemma BodySlice(t: Text, before: Text, body: Text, after: Text)
    requires Layout(t, before, body, after)
    ensures t[|before| + |TAG|..|before| + |TAG| + |body|] == body
  {}

  /** A scan that finds one element and nothing behind it. */
  lemma ScanOnce(t: Text, start: nat, end: nat, body: Text)
    requires IndexFrom(t, TAG, 0) == Some(start)
    requires start + |TAG| <= |t| && IndexFrom(t, END_TAG, start + |TAG|) == Some(end)
    requires end + |END_TAG| <= |t| && IndexFrom(t, TAG, end + |END_TAG|) == None
    requires start + |TAG| <= end && t[start + |TAG|..end] == body
    ensures FindAll(t, 0) == [body]
  {}

  /** What the scan meets in a document, step by step. */
  lemma ScanSteps(t: Text, before: Text, body: Text, after: Text) returns (start: nat, end: nat)
    requires Layout(t, before, body, after) && QUOTE !in before && QUOTE !in after && LESS !in body
    ensures IndexFrom(t, TAG, 0) == Some(start)
    ensures start + |TAG| <= |t| && IndexFrom(t, END_TAG, start + |TAG|) == Some(end)
    ensures start + |TAG| <= end && t[start + |TAG|..end] == body
    ensures start == |before| && end == |before| + |TAG| + |body|
  {
    start, end := |before|, |before| + |TAG| + |body|;
    FirstOpeningTag(t, before, body, after);
    FirstEndTag(t, before, body, after);
    BodySlice(t, before, body, after);
  }

  /** Exactly one payload element, whatever the prose says. */
  lemma OnePayload(t: Text, before: Text, body: Text, after: Text)
    requires Layout(t, before, body, after) && QUOTE !in before && QUOTE !in after && LESS !in body
    ensures FindAll(t, 0) == [body]
  {
    var start, end := ScanSteps(t, before, body, after);
    NothingAfter(t, before, body, after);
    ScanOnce(t, start, end, body);
  }

  /** The embedded value: exactly one element, holding valid JSON. */
  function Extract(t: Text): Option<Json> {
    var found := FindAll(t, 0);
    if |found| != 1 then None else Loads(found[0])
  }

  /**
   Export then extract: whatever prose surrounds the payload, the document holds
   exactly one payload element, and it reads back as the payload exactly when no
   string of it has an adjacent surrogate pair.
   */
  lemma ExportReadsBackIff(before: seq<Piece>, payload: Json, after: seq<Piece>)
    requires WellFormed(payload) && QuoteFreeMarkup(before) && QuoteFreeMarkup(after)
    ensures FindAll(Document(before, payload, after), 0) == [JsonForScript(payload)]
    ensures Extract(Document(before, payload, after)) == Some(payload) <==> Portable(payload)
  {
    var body := JsonForScript(payload);
    RenderedHasNoQuote(before);
    RenderedHasNoQuote(after);
    EscapedIsInert(Dumps(payload));
    LaidOut(Render(before), body, Render(after));
    OnePayload(Document(before, payload, after), Render(before), body, Render(after));
    EmbeddedRoundTripIff(payload);
  }
}
