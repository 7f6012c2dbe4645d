/** Packing labelled text segments into a token budget. */
module ContextPacker {

  datatype Segment = Segment(tag: string, text: string)

  datatype Action = Kept | Compressed | Dropped

  datatype Decision = Decision(segment: string, action: Action, tokensBefore: nat, tokensAfter: nat)

  const MARKER := "\n...[compressed]...\n"

  const MARKER_CHARS := 20

  // -------------------------------------------------------------------- strings

  /** str.isspace of Python. */
  predicate Space(c: char) {
    || '\t' <= c <= '\r' || '\U{001C}' <= c <= ' ' || c == '\U{0085}' || c == '\U{00A0}' || c == '\U{1680}'
    || '\U{2000}' <= c <= '\U{200A}' || c == '\U{2028}' || c == '\U{2029}'
    || c == '\U{202F}' || c == '\U{205F}' || c == '\U{3000}'
  }

  function RStrip(s: string): (r: string) {
    if s != "" && Space(s[|s| - 1]) then RStrip(s[..|s| - 1]) else s
  }

  function LStrip(s: string): (r: string) {
    if s != "" && Space(s[0]) then LStrip(s[1..]) else s
  }

  function Strip(s: string): (r: string) {
    LStrip(RStrip(s))
  }

  lemma {:induction false} RStripKeepsFront(s: string)
    ensures RStrip(s) <= s && (RStrip(s) != "" ==> !Space(RStrip(s)[|RStrip(s)| - 1]))
    ensures s != "" && !Space(s[0]) ==> RStrip(s) != ""
  {
    if s != "" && Space(s[|s| - 1]) { RStripKeepsFront(s[..|s| - 1]); }
  }

  lemma {:induction false} LStripKeepsEnd(s: string)
    ensures |LStrip(s)| <= |s| && LStrip(s) == s[|s| - |LStrip(s)|..]
  {
    if s != "" && Space(s[0]) { LStripKeepsEnd(s[1..]); }
  }

  lemma StripShortens(s: string)
    ensures |Strip(s)| <= |s|
    ensures s != "" && !Space(s[0]) ==> Strip(s) == RStrip(s) != "" && Strip(s)[0] == s[0]
  {
    RStripKeepsFront(s);
    LStripKeepsEnd(RStrip(s));
  }

  predicate Blank(s: string) {
    Strip(s) == ""
  }

  /** approx_token_count */
  function Tokens(s: string): (n: nat) {
    if s == "" then 0
    else
      var n := (|s| + 3) / 4;
      if n > 1 then n else 1
  }

  function Block(s: Segment): (r: string) {
    Strip("[" + s.tag + "]\n" + s.text)
  }

  // ----------------------------------------------------------------- truncation

  function HeadChars(budget: nat): (n: nat) {
    var n := (4 * budget - MARKER_CHARS) * 2 / 3;
    if n < 40 then 40 else n
  }

  function TailChars(budget: nat): (n: nat) {
    var n := 4 * budget - MARKER_CHARS - HeadChars(budget);
    if n < 20 then 20 else n
  }

  /** text[-n:] */
  function Suffix(text: string, n: nat): (r: string) {
    if n == 0 || n >= |text| then text else text[|text| - n..]
  }

  /** _truncate_text_to_budget: the text and whether it was compressed. */
  function Truncated(text: string, budget: int): (r: (string, bool)) {
    if budget <= 0 then ("", true)
    else if |text| <= 4 * budget then (text, false)
    else if 4 * budget <= 64 then (RStrip(text[..4 * budget]), true)
    else (RStrip(text[..HeadChars(budget)]) + MARKER + LStrip(Suffix(text, TailChars(budget))), true)
  }

  /** The most tokens a compression with this budget can leave: the least head and tail together with the
      marker are 80 characters, which is more than a budget of 17, 18 or 19 tokens. */
  function Ceiling(budget: nat): (n: nat) {
    if 17 <= budget <= 19 then 20 else budget
  }

  lemma HeadAndTail(budget: nat)
    requires budget > 16
    ensures HeadChars(budget) + MARKER_CHARS + TailChars(budget) == 4 * Ceiling(budget)
    ensures HeadChars(budget) + TailChars(budget) <= 4 * budget
  {
    if budget < 20 {
      assert budget == 17 || budget == 18 || budget == 19;
    }
  }

  lemma TokensOfLength(s: string, n: nat)
    ensures Tokens(s) <= n <==> |s| <= 4 * n
  {
  }

  /** A compressed text is a beginning of the text, or a beginning, the marker and an end that do not overlap. */
  ghost predicate Excerpt(s: string, text: string) {
    s <= text || exists i: nat, j: nat :: IsExcerptAt(s, text, i, j)
  }

  predicate IsExcerptAt(s: string, text: string, i: nat, j: nat) {
    i <= j <= |text| && s == text[..i] + MARKER + text[j..]
  }

  lemma CompressedText(text: string, budget: nat)
    requires budget > 0 && Tokens(text) > budget && !Space(text[0])
    ensures var (s, compressed) := Truncated(text, budget);
            compressed && s != "" && s[0] == text[0] && Tokens(s) <= Ceiling(budget) && Excerpt(s, text)
  {
    TokensOfLength(text, budget);
    if budget > 16 {
      HeadAndTail(budget);
      MarkedExcerpt(text, HeadChars(budget), TailChars(budget), Ceiling(budget));
    } else {
      ShortExcerpt(text, 4 * budget, budget);
    }
  }

  lemma ShortExcerpt(text: string, chars: nat, n: nat)
    requires 0 < chars <= |text| && chars <= 4 * n && !Space(text[0])
    ensures var s := RStrip(text[..chars]); s != "" && s[0] == text[0] && Tokens(s) <= n && s <= text
  {
    RStripKeepsFront(text[..chars]);
    var s := RStrip(text[..chars]);
    assert s == text[..|s|];
    TokensOfLength(s, n);
  }

  lemma MarkedExcerpt(text: string, head: nat, tail: nat, n: nat)
    requires 0 < head && 0 < tail && head + tail <= |text| && head + MARKER_CHARS + tail <= 4 * n && !Space(text[0])
    ensures var s := RStrip(text[..head]) + MARKER + LStrip(Suffix(text, tail));
            s != "" && s[0] == text[0] && Tokens(s) <= n && Excerpt(s, text)
  {
    var front, end := RStrip(text[..head]), Suffix(text, tail);
    var back := LStrip(end);
    RStripKeepsFront(text[..head]);
    LStripKeepsEnd(end);
    assert front == text[..|front|];
    assert back == text[|text| - |back|..];
    assert IsExcerptAt(front + MARKER + back, text, |front|, |text| - |back|);
    TokensOfLength(front + MARKER + back, n);
  }

  /** The truncation in numbers: nothing of a text that fits is lost, a small budget keeps a beginning, and a
      larger one two thirds of its room at the front, 40 characters at least, the marker, and the rest of its
      room, 20 characters at least, at the end. */
  lemma TruncatedExactly(text: string, budget: int)
    ensures var r := Truncated(text, budget);
            if budget <= 0 then r == ("", true)
            else if |text| <= 4 * budget then r == (text, false)
            else if budget <= 16 then r == (RStrip(text[..4 * budget]), true)
            else
              var head := if (4 * budget - 20) * 2 / 3 < 40 then 40 else (4 * budget - 20) * 2 / 3;
              var tail := if 4 * budget - 20 - head < 20 then 20 else 4 * budget - 20 - head;
              && head + tail <= |text|
              && r == (RStrip(text[..head]) + "\n...[compressed]...\n" + LStrip(text[|text| - tail..]), true)
  {
    if budget > 16 { HeadAndTail(budget); }
  }

  /** The ceiling is met whenever no white space stands where the text is cut. */
  lemma CeilingIsMet(text: string, budget: nat)
    requires budget > 0 && |text| > 4 * budget
    requires if budget <= 16 then !Space(text[4 * budget - 1])
             else HeadChars(budget) + TailChars(budget) <= |text|
                  && !Space(text[HeadChars(budget) - 1]) && !Space(text[|text| - TailChars(budget)])
    ensures Tokens(Truncated(text, budget).0) == Ceiling(budget)
  {
    if budget > 16 { HeadAndTail(budget); }
    TokensOfLength(Truncated(text, budget).0, Ceiling(budget));
  }

  lemma BlockStart(s: Segment)
    ensures Block(s) != "" && Block(s)[0] == '[' && Tokens(Block(s)) > 0
  {
    var raw := "[" + s.tag + "]\n" + s.text;
    assert raw[0] == '[';
    StripShortens(raw);
  }

  // -------------------------------------------------------------------- packing

  datatype Pack = Pack(remaining: nat, chunks: seq<string>, decisions: seq<Decision>)

  function Start(budget: int): (p: Pack) {
    Pack(if budget < 0 then 0 else budget, [], [])
  }

  /** What a segment meets: it is blank, nothing remains, its block fits, or its block is cut. */
  datatype Fate = Skipped | Unfit | Whole(block: string) | Cut(text: string, compressed: bool)

  function FateOf(remaining: nat, s: Segment): (f: Fate) {
    if Blank(s.text) then Skipped
    else if remaining <= 0 then Unfit
    else
      var block := Block(s);
      if Tokens(block) <= remaining then Whole(block)
      else
        var (text, compressed) := Truncated(block, remaining);
        Cut(text, compressed)
  }

  function Apply(p: Pack, tag: string, before: nat, f: Fate): (r: Pack) {
    match f
    case Skipped => p
    case Unfit => p.(decisions := p.decisions + [Decision(tag, Dropped, before, 0)])
    case Whole(block) => p.(chunks := p.chunks + [block], remaining := Minus(p.remaining, before))
    case Cut(text, compressed) =>
      var after := Tokens(text);
      Pack(Minus(p.remaining, after),
           if Blank(text) then p.chunks else p.chunks + [text],
           p.decisions + [Decision(tag, if compressed then Compressed else Kept, before, after)])
  }

  /** max(a - b, 0) */
  function Minus(a: nat, b: nat): (n: nat) {
    if a < b then 0 else a - b
  }

  /** One round of the loop of _fit_segments. */
  function After(p: Pack, s: Segment): (r: Pack) {
    Apply(p, s.tag, Tokens(Block(s)), FateOf(p.remaining, s))
  }

  function Packed(segments: seq<Segment>, budget: int): (r: Pack) {
    if segments == [] then Start(budget)
    else After(Packed(segments[..|segments| - 1], budget), segments[|segments| - 1])
  }

  predicate AllBlank(chunks: seq<string>) {
    chunks == [] || (AllBlank(chunks[..|chunks| - 1]) && Blank(chunks[|chunks| - 1]))
  }

  /** "\n\n".join of the chunks that are not blank. */
  function Joined(chunks: seq<string>): (r: string) {
    if chunks == [] then ""
    else
      var front, last := chunks[..|chunks| - 1], chunks[|chunks| - 1];
      if Blank(last) then Joined(front)
      else if AllBlank(front) then last
      else Joined(front) + "\n\n" + last
  }

  /** _fit_segments */
  method FitSegments(segments: seq<Segment>, budget: int) returns (text: string, decisions: seq<Decision>)
    ensures decisions == Packed(segments, budget).decisions
    ensures text == Strip(Joined(Packed(segments, budget).chunks))
    ensures LaidOut(text, Packed(segments, budget).chunks)
    ensures FittingStand(segments, budget, text)
  {
    var remaining: nat := if budget < 0 then 0 else budget;
    var chunks: seq<string> := [];
    decisions := [];
    for i := 0 to |segments|
      invariant Pack(remaining, chunks, decisions) == Packed(segments[..i], budget)
    {
      assert segments[..i + 1][..i] == segments[..i];
      remaining, chunks, decisions := FitOne(segments[i], remaining, chunks, decisions);
    }
    assert segments[..|segments|] == segments;
    var joined := Join(chunks);
    text := Strip(joined);
    TextIsLaidOut(segments, budget);
    FittingSegmentsAreInText(segments, budget);
  }

  lemma FittingSegmentsAreInText(segments: seq<Segment>, budget: int)
    ensures FittingStand(segments, budget, Strip(Joined(Packed(segments, budget).chunks)))
  {
    forall k: nat | Fits(segments, budget, k)
      ensures StandsIn(Block(segments[k]), Strip(Joined(Packed(segments, budget).chunks)))
    {
      FittingSegmentIsInText(segments, budget, k);
    }
  }

  /** The segment is not blank and its block fits into what the ones before it left. */
  predicate Fits(segments: seq<Segment>, budget: int, k: nat) {
    && k < |segments| && !Blank(segments[k].text)
    && Tokens(Block(segments[k])) <= Packed(segments[..k], budget).remaining
  }

  predicate Occurs(part: string, text: string, at: nat) {
    at + |part| <= |text| && text[at..at + |part|] == part
  }

  ghost predicate StandsIn(part: string, text: string) {
    exists at :: Occurs(part, text, at)
  }

  /** Every segment that fits stands in the text, label and all. */
  ghost predicate FittingStand(segments: seq<Segment>, budget: int, text: string) {
    forall k: nat :: Fits(segments, budget, k) ==> StandsIn(Block(segments[k]), text)
  }

  /** The body of its loop. */
  method FitOne(s: Segment, remaining0: nat, chunks0: seq<string>, decisions0: seq<Decision>)
    returns (remaining: nat, chunks: seq<string>, decisions: seq<Decision>)
    ensures Pack(remaining, chunks, decisions) == After(Pack(remaining0, chunks0, decisions0), s)
  {
    remaining, chunks, decisions := remaining0, chunks0, decisions0;
    if Blank(s.text) { return; }
    var block := Block(s);
    var before := Tokens(block);
    if remaining <= 0 {
      decisions := decisions + [Decision(s.tag, Dropped, before, 0)];
      return;
    }
    if before <= remaining {
      chunks := chunks + [block];
      remaining := remaining - before;
      return;
    }
    var (compressed, did) := Truncated(block, remaining);
    assert FateOf(remaining0, s) == Cut(compressed, did);
    remaining, chunks, decisions := AddCut(s.tag, before, compressed, did, remaining, chunks, decisions);
  }

  method AddCut(tag: string, before: nat, compressed: string, did: bool, remaining0: nat, chunks0: seq<string>,
                decisions0: seq<Decision>)
    returns (remaining: nat, chunks: seq<string>, decisions: seq<Decision>)
    ensures Pack(remaining, chunks, decisions)
        == Apply(Pack(remaining0, chunks0, decisions0), tag, before, Cut(compressed, did))
  {
    remaining, chunks, decisions := remaining0, chunks0, decisions0;
    var after := Tokens(compressed);
    if !Blank(compressed) { chunks := chunks + [compressed]; }
    decisions := decisions + [Decision(tag, if did then Compressed else Kept, before, after)];
    remaining := Minus(remaining, after);
  }

  method Join(chunks: seq<string>) returns (r: string)
    ensures r == Joined(chunks)
  {
    r := "";
    var first := true;
    for i := 0 to |chunks|
      invariant r == Joined(chunks[..i]) && first == AllBlank(chunks[..i])
    {
      assert chunks[..i + 1][..i] == chunks[..i];
      if !Blank(chunks[i]) {
        r := if first then chunks[i] else r + "\n\n" + chunks[i];
        first := false;
      }
    }
    assert chunks[..|chunks|] == chunks;
  }

  // ------------------------------------------------------------------ the bound

  function Spent(chunks: seq<string>): (n: nat) {
    if chunks == [] then 0 else Spent(chunks[..|chunks| - 1]) + Tokens(chunks[|chunks| - 1])
  }

  /** What is known of a fate without looking at the characters. */
  ghost predicate FateFits(f: Fate, remaining: nat, before: nat, block: string) {
    match f
    case Skipped => true
    case Unfit => remaining == 0
    case Whole(b) => b == block && !Blank(b) && 0 < Tokens(b) == before <= remaining
    case Cut(text, compressed) =>
      compressed && !Blank(text) && 0 < remaining < before && Tokens(text) <= Ceiling(remaining) && Excerpt(text, block)
  }

  /** A block that does not fit is always really compressed, to an excerpt of itself that is not blank. */
  lemma FatesFit(remaining: nat, s: Segment)
    ensures FateFits(FateOf(remaining, s), remaining, Tokens(Block(s)), Block(s))
    ensures FateOf(remaining, s).Skipped? <==> Blank(s.text)
  {
    BlockStart(s);
    NotBlank(Block(s));
    if 0 < remaining < Tokens(Block(s)) {
      CompressedText(Block(s), remaining);
      NotBlank(Truncated(Block(s), remaining).0);
    }
  }

  lemma NotBlank(text: string)
    requires text != "" && !Space(text[0])
    ensures !Blank(text)
  {
    StripShortens(text);
  }

  function Limit(budget: int): (n: nat) {
    if budget < 0 then 0 else budget
  }

  /** Every token of the budget is spent or remains, unless nothing remains and up to three tokens too
      many are spent. */
  lemma {:induction false} BudgetBound(segments: seq<Segment>, budget: int)
    ensures var p := Packed(segments, budget);
            Spent(p.chunks) + p.remaining == Limit(budget)
            || (p.remaining == 0 && Limit(budget) < Spent(p.chunks) <= Limit(budget) + 3)
  {
    if segments != [] {
      var front, s := segments[..|segments| - 1], segments[|segments| - 1];
      BudgetBound(front, budget);
      var p := Packed(front, budget);
      FatesFit(p.remaining, s);
      SpentStep(p, s.tag, Tokens(Block(s)), Block(s), FateOf(p.remaining, s));
    }
  }

  /** One round keeps the sum of what is spent and what remains, or drops, or overshoots. */
  predicate Overshoots(p: Pack, r: Pack) {
    && 17 <= p.remaining <= 19 && r.remaining == 0 && r.decisions != []
        && r.decisions[|r.decisions| - 1].action == Compressed
    && Spent(p.chunks) + p.remaining < Spent(r.chunks) <= Spent(p.chunks) + 20
  }

  lemma SpentStep(p: Pack, tag: string, before: nat, block: string, f: Fate)
    requires FateFits(f, p.remaining, before, block)
    ensures var r := Apply(p, tag, before, f);
            || (p.remaining == 0 == r.remaining && r.chunks == p.chunks)
            || Spent(r.chunks) + r.remaining == Spent(p.chunks) + p.remaining
            || Overshoots(p, r)
  {
    match f
    case Whole(b) => SpentOneMore(p.chunks, b);
    case Cut(text, _) => SpentOneMore(p.chunks, text);
    case _ =>
  }

  lemma SpentOneMore(chunks: seq<string>, c: string)
    ensures Spent(chunks + [c]) == Spent(chunks) + Tokens(c)
  {
    assert (chunks + [c])[..|chunks|] == chunks;
  }

  /** The budget is crossed only by the compression of a segment that starts with 17, 18 or 19 tokens
      left, and then by no more than is missing to 20. */
  lemma OvershootOnlyThere(segments: seq<Segment>, budget: int, k: nat)
    requires k < |segments|
    requires Spent(Packed(segments[..k], budget).chunks) <= Limit(budget)
    requires Limit(budget) < Spent(Packed(segments[..k + 1], budget).chunks)
    ensures Overshoots(Packed(segments[..k], budget), Packed(segments[..k + 1], budget))
  {
    assert segments[..k + 1][..k] == segments[..k];
    BudgetBound(segments[..k], budget);
    var p, s := Packed(segments[..k], budget), segments[k];
    FatesFit(p.remaining, s);
    SpentStep(p, s.tag, Tokens(Block(s)), Block(s), FateOf(p.remaining, s));
  }

  /** Since p every segment that was not blank has been dropped. */
  predicate OnlyDroppedSince(p: Pack, r: Pack) {
    && r.chunks == p.chunks && r.remaining == p.remaining == 0 && p.decisions <= r.decisions
    && forall k :: |p.decisions| <= k < |r.decisions| ==>
        r.decisions[k].action == Dropped && r.decisions[k].tokensAfter == 0
  }

  /** Once nothing remains, and so after an overshoot, every later segment that is not blank is dropped. */
  lemma {:induction false} LaterDropped(segments: seq<Segment>, budget: int, k: nat)
    requires k <= |segments| && Packed(segments[..k], budget).remaining == 0
    ensures OnlyDroppedSince(Packed(segments[..k], budget), Packed(segments, budget))
    decreases |segments|
  {
    if k < |segments| {
      var front, s := segments[..|segments| - 1], segments[|segments| - 1];
      assert front[..k] == segments[..k];
      LaterDropped(front, budget, k);
      DropRound(Packed(segments[..k], budget), Packed(front, budget), s);
    } else {
      assert segments[..k] == segments;
    }
  }

  lemma DropRound(p: Pack, q: Pack, s: Segment)
    requires OnlyDroppedSince(p, q)
    ensures OnlyDroppedSince(p, After(q, s))
  {
    FatesFit(0, s);
    DropStep(p, q, s.tag, Tokens(Block(s)), Block(s), FateOf(0, s));
  }

  lemma DropStep(p: Pack, q: Pack, tag: string, before: nat, block: string, f: Fate)
    requires OnlyDroppedSince(p, q) && FateFits(f, 0, before, block)
    ensures OnlyDroppedSince(p, Apply(q, tag, before, f))
  {
  }

  // ---------------------------------------------------------------- the whole text

  /** Text without white space at either end; every chunk is. */
  predicate Solid(c: string) {
    c != "" && !Space(c[0]) && !Space(c[|c| - 1])
  }

  lemma StripKeepsSolid(s: string)
    requires Solid(s)
    ensures Strip(s) == s && RStrip(s) == s && LStrip(s) == s && !Blank(s)
  {
  }

  lemma {:induction false} StrippedIsSolid(s: string)
    requires s != "" && !Space(s[0])
    ensures Solid(Strip(s)) && Strip(s) == RStrip(s)
  {
    StripShortens(s);
    RStripKeepsFront(s);
  }

  lemma {:induction false} SuffixStaysSolid(s: string)
    requires s != "" && !Space(s[|s| - 1])
    ensures LStrip(s) != "" && !Space(LStrip(s)[|LStrip(s)| - 1])
  {
    if Space(s[0]) { SuffixStaysSolid(s[1..]); }
  }

  lemma CutIsSolid(text: string, budget: nat)
    requires budget > 0 && |text| > 4 * budget && Solid(text)
    ensures Solid(Truncated(text, budget).0)
  {
    TokensOfLength(text, budget);
    CompressedText(text, budget);
    if budget > 16 {
      HeadAndTail(budget);
      SuffixStaysSolid(Suffix(text, TailChars(budget)));
    } else {
      RStripKeepsFront(text[..4 * budget]);
    }
  }

  lemma RoundIsSolid(remaining: nat, s: Segment)
    ensures var f := FateOf(remaining, s);
            (f.Whole? ==> Solid(f.block)) && (f.Cut? ==> Solid(f.text))
  {
    var raw := "[" + s.tag + "]\n" + s.text;
    assert raw[0] == '[';
    StrippedIsSolid(raw);
    TokensOfLength(Block(s), remaining);
    if 0 < remaining < Tokens(Block(s)) { CutIsSolid(Block(s), remaining); }
  }

  lemma {:induction false} ChunksAreSolid(segments: seq<Segment>, budget: int)
    ensures forall c :: c in Packed(segments, budget).chunks ==> Solid(c)
  {
    if segments != [] {
      var front, s := segments[..|segments| - 1], segments[|segments| - 1];
      ChunksAreSolid(front, budget);
      var p := Packed(front, budget);
      RoundIsSolid(p.remaining, s);
      FatesFit(p.remaining, s);
    }
  }

  /** Where chunk k begins: after the ones before it, each with a blank line behind it. */
  function Offset(chunks: seq<string>, k: nat): (n: nat)
    requires k <= |chunks|
  {
    if k == 0 then 0 else Offset(chunks, k - 1) + |chunks[k - 1]| + 2
  }

  /** The text consists of exactly these chunks, in this order, with one blank line between two of them. */
  predicate LaidOut(text: string, chunks: seq<string>) {
    && |text| == (if chunks == [] then 0 else Offset(chunks, |chunks|) - 2)
    && forall k :: 0 <= k < |chunks| ==> ChunkAt(text, chunks, k)
  }

  predicate ChunkAt(text: string, chunks: seq<string>, k: nat)
    requires k < |chunks|
  {
    var at := Offset(chunks, k);
    && at + |chunks[k]| <= |text| && text[at..at + |chunks[k]|] == chunks[k]
    && (k > 0 ==> 2 <= at && text[at - 2..at] == "\n\n")
  }

  lemma {:induction false} OffsetOfPrefix(chunks: seq<string>, more: seq<string>, k: nat)
    requires k <= |chunks|
    ensures Offset(chunks + more, k) == Offset(chunks, k)
    ensures k < |chunks| ==> Offset(chunks, k) + |chunks[k]| + 2 <= Offset(chunks, |chunks|)
    decreases |chunks| - k
  {
    OffsetsAgree(chunks, more, k);
    OffsetsGrow(chunks, k);
  }

  lemma {:induction false} OffsetsAgree(chunks: seq<string>, more: seq<string>, k: nat)
    requires k <= |chunks|
    ensures Offset(chunks + more, k) == Offset(chunks, k)
  {
    if k > 0 { OffsetsAgree(chunks, more, k - 1); }
  }

  lemma {:induction false} OffsetsGrow(chunks: seq<string>, k: nat)
    requires k <= |chunks|
    ensures Offset(chunks, k) <= Offset(chunks, |chunks|)
    ensures k < |chunks| ==> Offset(chunks, k) + |chunks[k]| + 2 <= Offset(chunks, |chunks|)
    decreases |chunks| - k
  {
    if k < |chunks| { OffsetsGrow(chunks, k + 1); }
  }

  lemma {:induction false} JoinedIsLaidOut(chunks: seq<string>)
    requires forall c :: c in chunks ==> Solid(c)
    ensures LaidOut(Joined(chunks), chunks)
  {
    if chunks != [] {
      var front, last := chunks[..|chunks| - 1], chunks[|chunks| - 1];
      assert chunks == front + [last];
      JoinedIsLaidOut(front);
      JoinedStep(front, last);
      OneMoreLaidOut(Joined(front), front, last);
    }
  }

  lemma JoinedStep(front: seq<string>, last: string)
    requires Solid(last) && forall c :: c in front ==> Solid(c)
    ensures Joined(front + [last]) == if front == [] then last else Joined(front) + "\n\n" + last
  {
    StripKeepsSolid(last);
    assert (front + [last])[..|front|] == front;
    if front != [] {
      assert front[|front| - 1] in front;
      StripKeepsSolid(front[|front| - 1]);
    }
  }

  lemma OneMoreLaidOut(text: string, front: seq<string>, last: string)
    requires LaidOut(text, front)
    ensures LaidOut(if front == [] then last else text + "\n\n" + last, front + [last])
  {
    var chunks, n := front + [last], |front|;
    OffsetOfPrefix(front, [last], n);
    if n == 0 {
      assert chunks == [last] && Offset(chunks, 0) == 0 && Offset(chunks, 1) == |last| + 2;
    } else {
      var whole := text + "\n\n" + last;
      assert Offset(chunks, n) == |text| + 2;
      assert whole[|text|..|text| + 2] == "\n\n" && whole[|text| + 2..] == last;
      forall k | 0 <= k < n
        ensures ChunkAt(whole, chunks, k)
      {
        EarlierChunk(text, whole, front, last, k);
      }
      assert ChunkAt(whole, chunks, n);
      assert forall k :: 0 <= k < |chunks| ==> ChunkAt(whole, chunks, k);
    }
  }

  lemma EarlierChunk(text: string, whole: string, front: seq<string>, last: string, k: nat)
    requires LaidOut(text, front) && text <= whole && k < |front|
    ensures ChunkAt(whole, front + [last], k)
  {
    OffsetOfPrefix(front, [last], k);
    var at := Offset(front, k);
    assert ChunkAt(text, front, k);
    SameSlice(text, whole, at, at + |front[k]|);
    if k > 0 { SameSlice(text, whole, at - 2, at); }
  }

  lemma SameSlice(text: string, whole: string, i: nat, j: nat)
    requires text <= whole && i <= j <= |text|
    ensures whole[i..j] == text[i..j]
  {
    assert whole[..|text|] == text;
  }

  /** The returned text is laid out from the chunks; the final strip takes nothing away. */
  lemma TextIsLaidOut(segments: seq<Segment>, budget: int)
    ensures var p := Packed(segments, budget); LaidOut(Strip(Joined(p.chunks)), p.chunks)
  {
    var chunks := Packed(segments, budget).chunks;
    ChunksAreSolid(segments, budget);
    JoinedIsLaidOut(chunks);
    var text := Joined(chunks);
    if chunks != [] {
      LaidOutIsSolid(text, chunks);
      StripKeepsSolid(text);
    }
  }

  lemma LaidOutIsSolid(text: string, chunks: seq<string>)
    requires LaidOut(text, chunks) && chunks != [] && forall c :: c in chunks ==> Solid(c)
    ensures Solid(text)
  {
    var n := |chunks| - 1;
    assert Solid(chunks[0]) && Solid(chunks[n]) && ChunkAt(text, chunks, 0) && ChunkAt(text, chunks, n);
    assert Offset(chunks, 0) == 0 && text[0..|chunks[0]|] == chunks[0];
    assert Offset(chunks, n + 1) == Offset(chunks, n) + |chunks[n]| + 2;
    assert text[Offset(chunks, n)..Offset(chunks, n) + |chunks[n]|] == chunks[n];
    assert text[0] == chunks[0][0] && text[|text| - 1] == chunks[n][|chunks[n]| - 1];
  }

  /** A segment whose block fits at its turn stands in the returned text, label and all. */
  lemma FittingSegmentIsInText(segments: seq<Segment>, budget: int, k: nat)
    requires Fits(segments, budget, k)
    ensures StandsIn(Block(segments[k]), Strip(Joined(Packed(segments, budget).chunks)))
  {
    var i := ChunkOfFitting(segments, budget, k);
    TextIsLaidOut(segments, budget);
    ChunkStands(Strip(Joined(Packed(segments, budget).chunks)), Packed(segments, budget).chunks, i);
  }

  lemma ChunkOfFitting(segments: seq<Segment>, budget: int, k: nat) returns (i: nat)
    requires Fits(segments, budget, k)
    ensures var chunks := Packed(segments, budget).chunks; i < |chunks| && chunks[i] == Block(segments[k])
  {
    var p, q, r := Packed(segments[..k], budget), Packed(segments[..k + 1], budget), Packed(segments, budget);
    EverySegmentAccounted(segments, budget, k);
    BlockStart(segments[k]);
    i := |p.chunks|;
    assert q.chunks == p.chunks + [Block(segments[k])];
    assert r.chunks[i] == q.chunks[i];
  }

  lemma ChunkStands(text: string, chunks: seq<string>, i: nat)
    requires LaidOut(text, chunks) && i < |chunks|
    ensures StandsIn(chunks[i], text)
  {
    assert ChunkAt(text, chunks, i);
    assert Occurs(chunks[i], text, Offset(chunks, i));
  }

  /** The block is the label in brackets, a line break and the text, without white space at its end. */
  lemma BlockIs(s: Segment)
    ensures var raw := "[" + s.tag + "]\n" + s.text;
            Block(s) <= raw && forall k :: |Block(s)| <= k < |raw| ==> Space(raw[k])
    ensures s.text != "" && !Space(s.text[|s.text| - 1]) ==> Block(s) == "[" + s.tag + "]\n" + s.text
  {
    var raw := "[" + s.tag + "]\n" + s.text;
    assert raw[0] == '[';
    StrippedIsSolid(raw);
    RStripTakesSpace(raw);
    if s.text != "" && !Space(s.text[|s.text| - 1]) { assert raw[|raw| - 1] == s.text[|s.text| - 1]; }
  }

  lemma {:induction false} RStripTakesSpace(s: string)
    ensures RStrip(s) <= s && forall k :: |RStrip(s)| <= k < |s| ==> Space(s[k])
  {
    if s != "" && Space(s[|s| - 1]) { RStripTakesSpace(s[..|s| - 1]); }
  }

  lemma {:induction false} LStripTakesSpace(s: string)
    ensures |LStrip(s)| <= |s| && LStrip(s) == s[|s| - |LStrip(s)|..]
    ensures forall k :: 0 <= k < |s| - |LStrip(s)| ==> Space(s[k])
  {
    if s != "" && Space(s[0]) { LStripTakesSpace(s[1..]); }
  }

  /** A text is blank exactly if it is all white space. */
  lemma BlankExactly(s: string)
    ensures Blank(s) <==> forall k :: 0 <= k < |s| ==> Space(s[k])
  {
    RStripTakesSpace(s);
    LStripTakesSpace(RStrip(s));
    RStripKeepsFront(s);
    var r := RStrip(s);
    if r != "" { assert !Space(s[|r| - 1]) && s[|r| - 1] == r[|r| - 1]; }
  }

  // -------------------------------------------------- exactly when it overshoots

  /** The segment is cut with 17, 18 or 19 tokens left, and its first 40 characters without the space at
      their end, the marker, and its last 20 without the space at their start, do not fit into these. */
  predicate Overfills(remaining: nat, s: Segment) {
    && 17 <= remaining <= 19 && !Blank(s.text) && |Block(s)| > 4 * remaining
    && |RStrip(Block(s)[..40])| + MARKER_CHARS + |LStrip(Suffix(Block(s), 20))| > 4 * remaining
  }

  lemma CutLength(text: string, budget: nat)
    requires budget > 0 && |text| > 4 * budget && !Space(text[0])
    ensures Tokens(Truncated(text, budget).0) > budget <==>
            17 <= budget <= 19 && |RStrip(text[..40])| + MARKER_CHARS + |LStrip(Suffix(text, 20))| > 4 * budget
  {
    TokensOfLength(text, budget);
    CompressedText(text, budget);
    var cut := Truncated(text, budget).0;
    TokensOfLength(cut, budget);
    if 17 <= budget <= 19 {
      assert HeadChars(budget) == 40 && TailChars(budget) == 20;
      assert |cut| == |RStrip(text[..40])| + MARKER_CHARS + |LStrip(Suffix(text, 20))|;
    }
  }

  /** One round spends more than what remained exactly if its segment overfills it. */
  lemma RoundOvershootsExactly(p: Pack, s: Segment)
    ensures Spent(After(p, s).chunks) > Spent(p.chunks) + p.remaining <==> Overfills(p.remaining, s)
  {
    FatesFit(p.remaining, s);
    BlockStart(s);
    TokensOfLength(Block(s), p.remaining);
    match FateOf(p.remaining, s)
    case Whole(block) => SpentOneMore(p.chunks, block);
    case Cut(text, _) =>
      SpentOneMore(p.chunks, text);
      CutLength(Block(s), p.remaining);
    case _ =>
  }

  predicate OverfillsAt(segments: seq<Segment>, budget: int, k: nat) {
    k < |segments| && Overfills(Packed(segments[..k], budget).remaining, segments[k])
  }

  lemma OverfillEmpties(segments: seq<Segment>, budget: int, k: nat)
    requires OverfillsAt(segments, budget, k)
    ensures Spent(Packed(segments[..k + 1], budget).chunks) > Limit(budget)
    ensures Packed(segments[..k + 1], budget).remaining == 0
  {
    var front := segments[..k];
    assert segments[..k + 1][..k] == front;
    BudgetBound(front, budget);
    BudgetBound(segments[..k + 1], budget);
    RoundOvershootsExactly(Packed(front, budget), segments[k]);
  }

  /** A packing exceeds its budget exactly if some segment overfills what the ones before it left; there
      is then only one such segment, and it is compressed. */
  lemma {:induction false} OvershootsExactly(segments: seq<Segment>, budget: int)
    ensures Spent(Packed(segments, budget).chunks) > Limit(budget) <==> exists k :: OverfillsAt(segments, budget, k)
    ensures forall j, k :: OverfillsAt(segments, budget, j) && OverfillsAt(segments, budget, k) ==> j == k
  {
    if Spent(Packed(segments, budget).chunks) > Limit(budget) {
      var k := WhereItOverfills(segments, budget);
    }
    forall k: nat | OverfillsAt(segments, budget, k)
      ensures Spent(Packed(segments, budget).chunks) > Limit(budget)
    {
      OverfillEmpties(segments, budget, k);
      LaterDropped(segments, budget, k + 1);
    }
    forall j: nat, k: nat | OverfillsAt(segments, budget, j) && OverfillsAt(segments, budget, k)
      ensures j == k
    {
      if j < k { NoneAfter(segments, budget, j, k); }
      if k < j { NoneAfter(segments, budget, k, j); }
    }
  }

  lemma {:induction false} WhereItOverfills(segments: seq<Segment>, budget: int) returns (k: nat)
    requires Spent(Packed(segments, budget).chunks) > Limit(budget)
    ensures OverfillsAt(segments, budget, k)
  {
    var n := |segments| - 1;
    var front := segments[..n];
    BudgetBound(front, budget);
    if Spent(Packed(front, budget).chunks) > Limit(budget) {
      k := WhereItOverfills(front, budget);
      assert front[..k] == segments[..k];
    } else {
      k := n;
      RoundOvershootsExactly(Packed(front, budget), segments[n]);
    }
  }

  lemma NoneAfter(segments: seq<Segment>, budget: int, j: nat, k: nat)
    requires OverfillsAt(segments, budget, j) && j < k < |segments|
    ensures !OverfillsAt(segments, budget, k)
  {
    OverfillEmpties(segments, budget, j);
    assert segments[..k][..j + 1] == segments[..j + 1];
    LaterDropped(segments[..k], budget, j + 1);
  }

  /** The overshoot happens: a single long word under a short tag spends 20 tokens of 17, 18 or 19. */
  lemma LongWordOvershoots(s: Segment, budget: nat)
    requires 17 <= budget <= 19 && |s.tag| <= 30 && |s.text| >= 80
    requires forall k :: 0 <= k < |s.text| ==> !Space(s.text[k])
    ensures Packed([s], budget) ==
              Pack(0, [Truncated(Block(s), budget).0], [Decision(s.tag, Compressed, Tokens(Block(s)), 20)])
    ensures Spent(Packed([s], budget).chunks) == 20
  {
    var raw := "[" + s.tag + "]\n" + s.text;
    assert raw[0] == '[' && raw[39] == s.text[36 - |s.tag|] && raw[|raw| - 1] == s.text[|s.text| - 1];
    assert raw[|raw| - 20] == s.text[|s.text| - 20];
    StripKeepsSolid(raw);
    HeadAndTail(budget);
    TokensOfLength(raw, budget);
    CeilingIsMet(raw, budget);
    var cut := Truncated(raw, budget).0;
    CompressedText(raw, budget);
    NotBlank(cut);
    var none: seq<Segment> := [];
    assert [s][..0] == none;
    SpentOneMore([], cut);
    assert [] + [cut] == [cut];
  }

  // ------------------------------------------------------ nothing goes unnoticed

  /** What one round does to its segment: a blank one leaves no trace; a block that fits is a chunk as it
      is and has no decision; one that does not fit is a chunk in an excerpt and has the one decision that
      says so; and with nothing left there is only the decision that it was dropped. */
  ghost predicate Accounted(p: Pack, s: Segment, r: Pack) {
    var block := Block(s);
    if Blank(s.text) then r == p
    else if p.remaining == 0 then
      r == p.(decisions := p.decisions + [Decision(s.tag, Dropped, Tokens(block), 0)])
    else if Tokens(block) <= p.remaining then
      r == p.(chunks := p.chunks + [block], remaining := p.remaining - Tokens(block))
    else
      exists text :: IsCut(p, s, r, text)
  }

  ghost predicate IsCut(p: Pack, s: Segment, r: Pack, text: string) {
    && text == Truncated(Block(s), p.remaining).0 && Excerpt(text, Block(s)) && !Blank(text)
    && r == Pack(Minus(p.remaining, Tokens(text)), p.chunks + [text],
                 p.decisions + [Decision(s.tag, Compressed, Tokens(Block(s)), Tokens(text))])
  }

  lemma RoundAccounts(p: Pack, s: Segment)
    ensures Accounted(p, s, After(p, s))
  {
    FatesFit(p.remaining, s);
    BlockStart(s);
    match FateOf(p.remaining, s)
    case Cut(text, _) => assert IsCut(p, s, After(p, s), text);
    case _ =>
  }

  /** Every segment is accounted for at its turn, and what was recorded of it stays. */
  lemma EverySegmentAccounted(segments: seq<Segment>, budget: int, k: nat)
    requires k < |segments|
    ensures var p, r, last := Packed(segments[..k], budget), Packed(segments[..k + 1], budget),
        Packed(segments, budget);
            Accounted(p, segments[k], r) && r.chunks <= last.chunks && r.decisions <= last.decisions
  {
    assert segments[..k + 1][..k] == segments[..k];
    RoundAccounts(Packed(segments[..k], budget), segments[k]);
    ListsGrow(segments, budget, k + 1);
  }

  lemma {:induction false} ListsGrow(segments: seq<Segment>, budget: int, k: nat)
    requires k <= |segments|
    ensures Packed(segments[..k], budget).chunks <= Packed(segments, budget).chunks
    ensures Packed(segments[..k], budget).decisions <= Packed(segments, budget).decisions
    decreases |segments|
  {
    if k < |segments| {
      var front, s := segments[..|segments| - 1], segments[|segments| - 1];
      assert front[..k] == segments[..k];
      ListsGrow(front, budget, k);
      RoundGrows(Packed(front, budget), s);
    } else {
      assert segments[..k] == segments;
    }
  }

  lemma RoundGrows(p: Pack, s: Segment)
    ensures p.chunks <= After(p, s).chunks && p.decisions <= After(p, s).decisions
  {
  }

  function Filled(segments: seq<Segment>): (n: nat) {
    if segments == [] then 0
    else Filled(segments[..|segments| - 1]) + (if Blank(segments[|segments| - 1].text) then 0 else 1)
  }

  function Count(decisions: seq<Decision>, a: Action): (n: nat) {
    if decisions == [] then 0
    else Count(decisions[..|decisions| - 1], a) + (if decisions[|decisions| - 1].action == a then 1 else 0)
  }

  lemma CountOneMore(decisions: seq<Decision>, d: Decision, a: Action)
    ensures Count(decisions + [d], a) == Count(decisions, a) + (if d.action == a then 1 else 0)
  {
    assert (decisions + [d])[..|decisions|] == decisions;
  }

  /** In all, the chunks are the whole blocks and the compressed ones, and the decisions the compressed and
      the dropped ones; none says "kept". */
  lemma {:induction false} DecisionsTally(segments: seq<Segment>, budget: int)
    ensures Tallies(Packed(segments, budget), Filled(segments))
  {
    if segments != [] {
      var front, s := segments[..|segments| - 1], segments[|segments| - 1];
      DecisionsTally(front, budget);
      var p := Packed(front, budget);
      FatesFit(p.remaining, s);
      TallyStep(p, Filled(front), s.tag, Tokens(Block(s)), Block(s), FateOf(p.remaining, s));
    }
  }

  predicate Tallies(p: Pack, filled: nat) {
    && Count(p.decisions, Kept) == 0
    && |p.decisions| == Count(p.decisions, Compressed) + Count(p.decisions, Dropped)
    && |p.chunks| + Count(p.decisions, Dropped) == filled
    && forall c :: c in p.chunks ==> !Blank(c)
  }

  lemma TallyStep(p: Pack, filled: nat, tag: string, before: nat, block: string, f: Fate)
    requires Tallies(p, filled) && FateFits(f, p.remaining, before, block)
    ensures Tallies(Apply(p, tag, before, f), if f.Skipped? then filled else filled + 1)
  {
    var r := Apply(p, tag, before, f);
    if |r.decisions| > |p.decisions| {
      var d := r.decisions[|p.decisions|];
      CountOneMore(p.decisions, d, Kept);
      CountOneMore(p.decisions, d, Compressed);
      CountOneMore(p.decisions, d, Dropped);
    }
  }

  lemma {:induction false} JoinedLength(chunks: seq<string>)
    requires forall c :: c in chunks ==> !Blank(c)
    ensures chunks == [] ==> Joined(chunks) == ""
    ensures chunks != [] ==> |Joined(chunks)| <= 4 * Spent(chunks) + 2 * (|chunks| - 1)
  {
    if chunks != [] {
      var front, last := chunks[..|chunks| - 1], chunks[|chunks| - 1];
      JoinedLength(front);
      TokensOfLength(last, Tokens(last));
      if front != [] { assert front[0] in front; }
    }
  }

  /** The text that goes into the prompt, for k chunks. */
  lemma PackedLength(segments: seq<Segment>, budget: int)
    ensures var p := Packed(segments, budget);
            |Strip(Joined(p.chunks))| <= 4 * (Limit(budget) + 3) + (if p.chunks == [] then 0 else 2 * (|p.chunks| - 1))
  {
    DecisionsTally(segments, budget);
    StripShortens(Joined(Packed(segments, budget).chunks));
    JoinedLength(Packed(segments, budget).chunks);
    BudgetBound(segments, budget);
  }
}
