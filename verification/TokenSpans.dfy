/**
 The tokenize endpoint: token byte ranges become character ranges by decoding byte prefixes that
 may stop inside a character.  The tokenizer's own contract is that its tokens concatenate to the
 UTF-8 bytes of the text.
 */
module TokenSpans {
  import opened Utf8

  datatype TokenBytes = TokenBytes(bytes: seq<Byte>, start: nat, end: nat)
  datatype Span = Span(text: string, start: nat, end: nat)

  function Flatten(tokens: seq<seq<Byte>>): seq<Byte> {
    if tokens == [] then [] else Flatten(tokens[..|tokens| - 1]) + tokens[|tokens| - 1]
  }

  /** Where token `i` starts in the byte string. */
  function ByteStart(tokens: seq<seq<Byte>>, i: nat): nat
    requires i <= |tokens|
  {
    |Flatten(tokens[..i])|
  }

  lemma {:induction false} TokenSlice(tokens: seq<seq<Byte>>, i: nat)
    requires i < |tokens|
    ensures ByteStart(tokens, i + 1) == ByteStart(tokens, i) + |tokens[i]|
    ensures ByteStart(tokens, i + 1) <= |Flatten(tokens)|
    ensures Flatten(tokens)[ByteStart(tokens, i)..ByteStart(tokens, i + 1)] == tokens[i]
    decreases |tokens|
  {
    assert tokens[..i + 1][..i] == tokens[..i];
    if i + 1 == |tokens| {
      assert tokens[..i + 1] == tokens;
    } else {
      var front := tokens[..|tokens| - 1];
      assert front[..i] == tokens[..i] && front[..i + 1] == tokens[..i + 1];
      TokenSlice(front, i);
    }
  }

  // ---------- the token counter ----------

  /** tokenize_with_spans: running byte offsets, and no spans at all for the empty text. */
  method TokenizeWithSpans(text: string, tokens: seq<seq<Byte>>) returns (spans: seq<TokenBytes>)
    ensures text == "" ==> spans == []
    ensures text != "" ==> |spans| == |tokens|
    ensures forall i :: 0 <= i < |spans| ==>
      spans[i] == TokenBytes(tokens[i], ByteStart(tokens, i), ByteStart(tokens, i + 1))
  {
    spans := [];
    if text == "" {
      return;
    }
    var offset := 0;
    for i := 0 to |tokens|
      invariant offset == ByteStart(tokens, i) && |spans| == i
      invariant forall j :: 0 <= j < i ==>
        spans[j] == TokenBytes(tokens[j], ByteStart(tokens, j), ByteStart(tokens, j + 1))
    {
      TokenSlice(tokens, i);
      var end := offset + |tokens[i]|;
      spans := spans + [TokenBytes(tokens[i], offset, end)];
      offset := end;
    }
  }

  // ---------- the endpoint ----------

  /** Consecutive ranges that cover 0..n. */
  predicate Tiles(spans: seq<Span>, n: nat) {
    && (forall i :: 0 <= i < |spans| ==> spans[i].start <= spans[i].end <= n)
    && (forall i :: 0 < i < |spans| ==> spans[i - 1].end == spans[i].start)
    && (if spans == [] then n == 0 else spans[0].start == 0 && spans[|spans| - 1].end == n)
  }

  predicate Inside(span: Span, c: nat) {
    span.start <= c < span.end
  }

  /** Token `i` starts where character `a` starts and ends where character `b` starts. */
  ghost predicate Aligned(text: string, tokens: seq<seq<Byte>>, i: nat, a: nat, b: nat) {
    && i < |tokens| && a <= b <= |text|
    && ByteStart(tokens, i) == Offset(text, a) && ByteStart(tokens, i + 1) == Offset(text, b)
  }

  method TokenizeText(text: string, tokens: seq<seq<Byte>>) returns (spans: seq<Span>, characters: nat)
    requires Flatten(tokens) == Encode(text)
    ensures characters == |text| && |spans| == if text == "" then 0 else |tokens|
    // the character ranges tile the text
    ensures Tiles(spans, |text|)
    // and a character belongs to the token that holds its first byte
    ensures forall i, c: nat :: 0 <= i < |spans| && c < |text| ==>
      (Inside(spans[i], c) <==> ByteStart(tokens, i) <= Offset(text, c) < ByteStart(tokens, i + 1))
    // a token that starts and ends between characters is reported with exactly its slice of the text
    ensures forall i, a: nat, b: nat :: 0 <= i < |spans| && Aligned(text, tokens, i, a, b) ==>
      spans[i] == Span(text[a..b], a, b)
  {
    var textBytes := Encode(text);
    var ranges := TokenizeWithSpans(text, tokens);
    spans := [];
    for i := 0 to |ranges|
      invariant |spans| == i
      invariant forall j :: 0 <= j < i ==> spans[j] == CharSpan(text, tokens, j)
    {
      TokenSlice(tokens, i);
      var tokenText := Decode(ranges[i].bytes);
      var start := |Decode(textBytes[..ranges[i].start])|;
      var end := |Decode(textBytes[..ranges[i].end])|;
      PrefixLength(text, ranges[i].start);
      PrefixLength(text, ranges[i].end);
      spans := spans + [Span(tokenText, start, end)];
    }
    characters := |text|;
    CharSpansTile(text, tokens, spans);
    forall i, c: nat | 0 <= i < |spans| && c < |text|
      ensures Inside(spans[i], c) <==> ByteStart(tokens, i) <= Offset(text, c) < ByteStart(tokens, i + 1)
    {
      StartedBeforeIsCount(text, ByteStart(tokens, i), c);
      StartedBeforeIsCount(text, ByteStart(tokens, i + 1), c);
    }
    forall i, a: nat, b: nat | 0 <= i < |spans| && Aligned(text, tokens, i, a, b)
      ensures spans[i] == Span(text[a..b], a, b)
    {
      AlignedToken(text, tokens, i, a, b);
    }
  }

  ghost function CharSpan(text: string, tokens: seq<seq<Byte>>, i: nat): Span
    requires i < |tokens|
  {
    Span(Decode(tokens[i]), StartedBefore(text, ByteStart(tokens, i)), StartedBefore(text, ByteStart(tokens, i + 1)))
  }

  lemma CharSpansTile(text: string, tokens: seq<seq<Byte>>, spans: seq<Span>)
    requires Flatten(tokens) == Encode(text)
    requires |spans| == if text == "" then 0 else |tokens|
    requires forall i :: 0 <= i < |spans| ==> spans[i] == CharSpan(text, tokens, i)
    ensures Tiles(spans, |text|)
  {
    forall i | 0 <= i < |spans|
      ensures spans[i].start <= spans[i].end <= |text|
    {
      SpanOrdered(text, tokens, i);
    }
    forall i | 0 < i < |spans|
      ensures spans[i - 1].end == spans[i].start
    {
      SpansMeet(text, tokens, i);
    }
    if text != "" {
      OuterSpans(text, tokens);
    }
  }

  lemma SpanOrdered(text: string, tokens: seq<seq<Byte>>, i: nat)
    requires i < |tokens|
    ensures CharSpan(text, tokens, i).start <= CharSpan(text, tokens, i).end <= |text|
  {
    TokenSlice(tokens, i);
    StartedBeforeMonotone(text, ByteStart(tokens, i), ByteStart(tokens, i + 1));
  }

  lemma SpansMeet(text: string, tokens: seq<seq<Byte>>, i: nat)
    requires 0 < i < |tokens|
    ensures CharSpan(text, tokens, i - 1).end == CharSpan(text, tokens, i).start
  {
  }

  lemma OuterSpans(text: string, tokens: seq<seq<Byte>>)
    requires Flatten(tokens) == Encode(text) && text != ""
    ensures tokens != []
    ensures CharSpan(text, tokens, 0).start == 0
    ensures CharSpan(text, tokens, |tokens| - 1).end == |text|
  {
    assert |Encode(text)| >= |EncodeChar(text[0])|;
    assert tokens[..0] == [] && tokens[..|tokens|] == tokens;
    OffsetOfEnd(text);
    StartedBeforeOffset(text, |text|);
  }

  lemma AlignedToken(text: string, tokens: seq<seq<Byte>>, i: nat, a: nat, b: nat)
    requires Flatten(tokens) == Encode(text) && Aligned(text, tokens, i, a, b)
    ensures CharSpan(text, tokens, i) == Span(text[a..b], a, b)
  {
    StartedBeforeOffset(text, a);
    StartedBeforeOffset(text, b);
    TokenSlice(tokens, i);
    OffsetSlice(text, a, b);
    DecodeEncode(text[a..b]);
  }

  /** `c` lies in span `i` and in no other. */
  ghost predicate OnlyIn(spans: seq<Span>, i: nat, c: nat) {
    && i < |spans| && Inside(spans[i], c)
    && forall j :: 0 <= j < |spans| && Inside(spans[j], c) ==> j == i
  }

  /** Spans that tile the text put every character into exactly one token. */
  lemma {:induction false} OneSpanPerCharacter(spans: seq<Span>, n: nat, c: nat)
    requires Tiles(spans, n) && c < n
    ensures exists i :: OnlyIn(spans, i, c)
    decreases |spans|
  {
    var last := |spans| - 1;
    if c >= spans[last].start {
      forall j | 0 <= j < |spans| && Inside(spans[j], c)
        ensures j == last
      {
        if j < last {
          EndsOrdered(spans, n, j, last);
        }
      }
      assert OnlyIn(spans, last, c);
    } else {
      var front := spans[..last];
      forall j | 0 <= j < last
        ensures spans[j].end <= spans[last].start
      {
        EndsOrdered(spans, n, j, last);
      }
      assert Tiles(front, spans[last].start);
      OneSpanPerCharacter(front, spans[last].start, c);
      var i :| OnlyIn(front, i, c);
      assert OnlyIn(spans, i, c) by {
        assert forall j :: 0 <= j < last ==> front[j] == spans[j];
      }
    }
  }

  lemma {:induction false} EndsOrdered(spans: seq<Span>, n: nat, i: nat, j: nat)
    requires Tiles(spans, n) && i < j < |spans|
    ensures spans[i].end <= spans[j].start
    decreases j
  {
    if i + 1 < j {
      EndsOrdered(spans, n, i, j - 1);
    }
  }
}
