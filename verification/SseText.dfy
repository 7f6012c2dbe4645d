/** Server-sent-event text: what the servers print and how the client cuts it up. */
module SseText {
  import opened Texts

  // ------------------------------------------------------------------ printing

  /** The frames the two servers write: an event, a keepalive comment, and the end of a run's stream. */
  datatype Frame = Data(payload: string) | Keepalive | EventDone

  function Block(f: Frame): (r: string) {
    match f
    case Data(payload) => "data: " + payload
    case Keepalive => ": keepalive"
    case EventDone => "event: done\ndata: {}"
  }

  function Print(frames: seq<Frame>): (text: string) {
    if frames == [] then "" else Block(frames[0]) + "\n\n" + Print(frames[1..])
  }

  // ----------------------------------------------------------------- splitting

  predicate BreakAt(text: string, i: nat) {
    i + 1 < |text| && text[i] == '\n' && text[i + 1] == '\n'
  }

  /** The position of the first blank line, or the length of a text without one. */
  function FirstBreak(text: string): (i: nat)
    ensures i <= |text| && (i < |text| ==> BreakAt(text, i))
    ensures forall k: nat :: k < i ==> !BreakAt(text, k)
  {
    if text == "" || BreakAt(text, 0) then 0
    else
      var i := FirstBreak(text[1..]);
      assert forall k: nat :: 0 < k < 1 + i && BreakAt(text, k) ==> BreakAt(text[1..], k - 1);
      1 + i
  }

  /** text.split('\n\n') */
  function Parts(text: string): (r: seq<string>)
    ensures r != []
    decreases |text|
  {
    var i := FirstBreak(text);
    if i == |text| then [text] else [text[..i]] + Parts(text[i + 2..])
  }

  function Last(parts: seq<string>): (r: string)
    requires parts != []
  {
    parts[|parts| - 1]
  }

  function Complete(parts: seq<string>): (r: seq<string>)
    requires parts != []
  {
    parts[..|parts| - 1]
  }

  /** part.split('\n') */
  function Lines(part: string): (r: seq<string>)
    ensures r != []
    decreases |part|
  {
    var i := FirstNewline(part);
    if i == |part| then [part] else [part[..i]] + Lines(part[i + 1..])
  }

  function FirstNewline(part: string): (i: nat)
    ensures i <= |part| && (i < |part| ==> part[i] == '\n')
    ensures forall k :: 0 <= k < i ==> part[k] != '\n'
  {
    if part == "" || part[0] == '\n' then 0 else 1 + FirstNewline(part[1..])
  }

  /** The characters that trim() removes: white space and line terminators of ECMAScript. */
  predicate Space(c: char) {
    || '\t' <= c <= '\r' || c == ' ' || c == '\U{00A0}' || c == '\U{FEFF}' || c == '\U{1680}'
    || '\U{2000}' <= c <= '\U{200A}' || c == '\U{2028}' || c == '\U{2029}'
    || c == '\U{202F}' || c == '\U{205F}' || c == '\U{3000}'
  }

  /** line.startsWith('data:') */
  predicate IsData(line: string) {
    "data:" <= line
  }

  /** What the lines of one part say. */
  function DataOfLines(lines: seq<string>): (data: string) {
    if lines == [] then ""
    else
      var line := lines[|lines| - 1];
      DataOfLines(lines[..|lines| - 1]) + (if IsData(line) then Trim(line[5..], Space) else "")
  }

  function DataOf(part: string): (data: string) {
    DataOfLines(Lines(part))
  }

  // ------------------------------------------------------- splitting in chunks

  lemma FirstBreakIs(text: string, i: nat)
    requires i <= |text| && (i < |text| ==> BreakAt(text, i)) && forall k: nat :: k < i ==> !BreakAt(text, k)
    ensures FirstBreak(text) == i
  {
  }

  /** What arrives later does not move the first blank line. */
  lemma BreakStays(a: string, b: string)
    requires FirstBreak(a) < |a|
    ensures Parts(a + b) == [a[..FirstBreak(a)]] + Parts(a[FirstBreak(a) + 2..] + b)
  {
    var i := FirstBreak(a);
    assert forall k: nat :: k <= i ==> (BreakAt(a + b, k) <==> BreakAt(a, k));
    FirstBreakIs(a + b, i);
    assert (a + b)[..i] == a[..i];
    assert (a + b)[i + 2..] == a[i + 2..] + b;
  }

  lemma LastOfMore(head: string, more: seq<string>)
    requires more != []
    ensures Last([head] + more) == Last(more) && Complete([head] + more) == [head] + Complete(more)
  {
  }

  lemma Regroup(head: string, front: seq<string>, rest: seq<string>)
    ensures [head] + (front + rest) == ([head] + front) + rest
  {
  }

  /** Splitting a text that grows: the parts that are complete stay, and only the last one is split
      again together with what arrives. */
  lemma {:induction false} PartsOfGrowing(a: string, b: string)
    ensures Parts(a + b) == Complete(Parts(a)) + Parts(Last(Parts(a)) + b)
    decreases |a|
  {
    var i := FirstBreak(a);
    if i < |a| {
      PartsOfGrowing(a[i + 2..], b);
      BreakStays(a, b);
      LastOfMore(a[..i], Parts(a[i + 2..]));
      Regroup(a[..i], Complete(Parts(a[i + 2..])), Parts(Last(Parts(a)) + b));
    } else {
      assert Complete([a]) == [];
    }
  }

  // --------------------------------------------------------------- round trip

  /** What a server promises of a payload: one line without space around it, and not the word that ends
      a stream. */
  predicate Sendable(payload: string) {
    payload != "" && payload != "done" && '\n' !in payload && Trim(payload, Space) == payload
  }

  predicate Printable(frames: seq<Frame>) {
    forall f :: f in frames && f.Data? ==> Sendable(f.payload)
  }

  lemma OneBlock(f: Frame, rest: string)
    requires f.Data? ==> Sendable(f.payload)
    ensures Parts(Block(f) + "\n\n" + rest) == [Block(f)] + Parts(rest)
  {
    var b := Block(f);
    var text := b + "\n\n" + rest;
    forall k: nat | k < |b| ensures !BreakAt(text, k) {
      assert text[k] == b[k];
      if k + 1 < |b| { assert text[k + 1] == b[k + 1]; }
    }
    FirstBreakIs(text, |b|);
    assert text[..|b|] == b && text[|b| + 2..] == rest;
  }

  function Blocks(frames: seq<Frame>): (r: seq<string>)
    ensures |r| == |frames|
  {
    if frames == [] then [] else [Block(frames[0])] + Blocks(frames[1..])
  }

  /** The printed frames split into exactly their blocks, with nothing left over. */
  lemma {:induction false} PrintedParts(frames: seq<Frame>)
    requires Printable(frames)
    ensures Parts(Print(frames)) == Blocks(frames) + [""]
  {
    if frames != [] {
      var first, rest := frames[0], frames[1..];
      PrintedParts(rest);
      OneBlock(first, Print(rest));
      assert Print(frames) == Block(first) + "\n\n" + Print(rest);
      assert [Block(first)] + (Blocks(rest) + [""]) == ([Block(first)] + Blocks(rest)) + [""];
    }
  }

  lemma OneLine(line: string)
    ensures DataOfLines([line]) == if IsData(line) then Trim(line[5..], Space) else ""
  {
    var none: seq<string> := [];
    assert [line][..0] == none;
  }

  lemma LineWithoutNewline(line: string)
    requires '\n' !in line
    ensures Lines(line) == [line]
  {
  }

  /** The client reads the payload out of the block of an event. */
  lemma DataOfData(payload: string)
    requires Sendable(payload)
    ensures DataOf(Block(Data(payload))) == payload
  {
    var line := "data: " + payload;
    LineWithoutNewline(line);
    assert line[5..] == " " + payload && line[..5] == "data:";
    assert (" " + payload)[1..] == payload;
    OneLine(line);
  }

  lemma DataOfKeepalive()
    ensures DataOf(Block(Keepalive)) == ""
  {
    LineWithoutNewline(": keepalive");
    assert ": keepalive"[0] == ':';
    OneLine(": keepalive");
  }

  /** The frame that ends a run's stream reads as the event {}. */
  lemma DataOfDone()
    ensures DataOf(Block(EventDone)) == "{}"
  {
    var head, tail := "event: done", "data: {}";
    assert head[0] == 'e' && tail[..5] == "data:" && tail[5..] == " {}";
    assert '\n' !in head && '\n' !in tail;
    assert Block(EventDone) == head + "\n" + tail;
    TwoLines(head, tail);
    OneLine(head);
    TrimmedBraces();
  }

  lemma TrimmedBraces()
    ensures Trim(" {}", Space) == "{}"
  {
    assert " {}"[1..] == "{}";
    assert Trim(" {}", Space) == Trim("{}", Space);
  }

  lemma TwoLines(head: string, tail: string)
    requires '\n' !in head && '\n' !in tail
    ensures DataOf(head + "\n" + tail) == DataOfLines([head]) + (if IsData(tail) then Trim(tail[5..], Space) else "")
  {
    var b := head + "\n" + tail;
    assert forall k :: 0 <= k < |head| ==> b[k] == head[k];
    assert FirstNewline(b) == |head| by { NewlineIs(b, |head|); }
    assert b[..|head|] == head && b[|head| + 1..] == tail;
    LineWithoutNewline(tail);
    assert [head, tail][..1] == [head];
  }

  lemma NewlineIs(text: string, i: nat)
    requires i < |text| && text[i] == '\n' && forall k :: 0 <= k < i ==> text[k] != '\n'
    ensures FirstNewline(text) == i
  {
  }
}
