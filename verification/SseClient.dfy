/** The client of a run's event stream: it reads chunks, not frames. */
module SseClient {
  import opened Texts
  import opened Wrappers
  import opened SseText

  /** `closed` says that the request was destroyed, after which no chunk arrives; `delivered` holds the
      events passed to onEvent and `doneCalls` counts the calls of onDone. */
  datatype Client<E> = Client(buffer: string, done: bool, closed: bool, delivered: seq<E>, doneCalls: nat)

  function Fresh<E>(): (c: Client<E>) {
    Client("", false, false, [], 0)
  }

  function Finish<E>(c: Client<E>): (r: Client<E>) {
    if c.done then c else c.(done := true, doneCalls := c.doneCalls + 1)
  }

  /** One complete part; `parse` is JSON.parse, None where it throws. */
  function AfterPart<E>(parse: string -> Option<E>, c: Client<E>, part: string): (r: Client<E>)
    ensures r.buffer == c.buffer
  {
    var data := DataOf(part);
    if data == "" then c
    else if data == "done" then Finish(c).(closed := true)
    else match parse(data)
      case Some(event) => c.(delivered := c.delivered + [event])
      case None => c
  }

  /** The parts in order, up to the one that ends the stream. */
  function AfterParts<E>(parse: string -> Option<E>, c: Client<E>, parts: seq<string>): (r: Client<E>)
    ensures r.buffer == c.buffer
  {
    if parts == [] then c
    else
      var before := AfterParts(parse, c, Complete(parts));
      if before.closed then before else AfterPart(parse, before, Last(parts))
  }

  function AfterChunk<E>(parse: string -> Option<E>, c: Client<E>, chunk: string): (r: Client<E>) {
    if c.closed then c
    else
      var parts := Parts(c.buffer + chunk);
      AfterParts(parse, c.(buffer := Last(parts)), Complete(parts))
  }

  function AfterChunks<E>(parse: string -> Option<E>, c: Client<E>, chunks: seq<string>): (r: Client<E>) {
    if chunks == [] then c else AfterChunk(parse, AfterChunks(parse, c, chunks[..|chunks| - 1]), chunks[|chunks| - 1])
  }

  // ----------------------------------------------------------------- the object

  /** The closure variables of streamRun and what its callbacks were told. */
  class RunStream<E> {
    const parse: string -> Option<E>
    var buffer: string
    var done: bool
    var closed: bool
    var delivered: seq<E>
    var doneCalls: nat

    function View(): (c: Client<E>)
      reads this
    {
      Client(buffer, done, closed, delivered, doneCalls)
    }

    constructor (parse: string -> Option<E>)
      ensures View() == Fresh<E>() && this.parse == parse
    {
      this.parse := parse;
      buffer, done, closed, delivered, doneCalls := "", false, false, [], 0;
    }

    method OnDone()
      modifies this`done, this`doneCalls
      ensures View() == Finish(old(View()))
    {
      if !done {
        done := true;
        doneCalls := doneCalls + 1;
      }
    }

    /** The function that streamRun returns. */
    method CancelStream()
      modifies this`done, this`closed
      ensures View() == AfterSignal(parse, old(View()), Cancel)
    {
      if !done {
        done := true;
        closed := true;
      }
    }

    /** The data callback; it is not called any more once the request is destroyed. */
    method OnData(chunk: string)
      requires !closed
      modifies this
      ensures View() == AfterChunk(parse, old(View()), chunk)
    {
      buffer := buffer + chunk;
      var parts := Split(buffer);
      buffer := parts[|parts| - 1];
      parts := parts[..|parts| - 1];
      ghost var start := View();
      var i := 0;
      while i < |parts|
        invariant 0 <= i <= |parts| && !closed
        invariant View() == AfterParts(parse, start, parts[..i])
      {
        assert Complete(parts[..i + 1]) == parts[..i];
        OnPart(parts[i]);
        i := i + 1;
        if closed {
          ClosedStaysClosed(parse, start, parts, i);
          return;
        }
      }
      assert parts[..i] == parts;
    }

    method OnPart(part: string)
      modifies this`done, this`closed, this`delivered, this`doneCalls
      ensures View() == AfterPart(parse, old(View()), part)
    {
      var data := ReadData(part);
      if data == "" { return; }
      if data == "done" {
        OnDone();
        closed := true;
        return;
      }
      match parse(data) {
        case Some(event) => delivered := delivered + [event];
        case None =>
      }
    }
  }

  lemma {:induction false} ClosedStaysClosed<E>(parse: string -> Option<E>, c: Client<E>, parts: seq<string>, i: nat)
    requires i <= |parts| && AfterParts(parse, c, parts[..i]).closed
    ensures AfterParts(parse, c, parts) == AfterParts(parse, c, parts[..i])
    decreases |parts|
  {
    if i < |parts| {
      assert Complete(parts)[..i] == parts[..i];
      ClosedStaysClosed(parse, c, Complete(parts), i);
    } else {
      assert parts[..i] == parts;
    }
  }

  /** The inner loop over the lines of a part. */
  method ReadData(part: string) returns (data: string)
    ensures data == DataOf(part)
  {
    var lines := SplitLines(part);
    data := "";
    for i := 0 to |lines|
      invariant data == DataOfLines(lines[..i])
    {
      assert lines[..i + 1][..i] == lines[..i];
      if IsData(lines[i]) { data := data + Trim(lines[i][5..], Space); }
    }
    assert lines[..|lines|] == lines;
  }

  lemma Append(parts: seq<string>, part: string, more: seq<string>)
    ensures parts + ([part] + more) == (parts + [part]) + more
  {
  }

  /** text.split('\n\n') */
  method Split(text: string) returns (parts: seq<string>)
    ensures parts == Parts(text)
  {
    parts := [];
    var rest := text;
    while FirstBreak(rest) < |rest|
      invariant Parts(text) == parts + Parts(rest)
      decreases |rest|
    {
      var i := FirstBreak(rest);
      Append(parts, rest[..i], Parts(rest[i + 2..]));
      parts, rest := parts + [rest[..i]], rest[i + 2..];
    }
    parts := parts + [rest];
  }

  /** part.split('\n') */
  method SplitLines(part: string) returns (lines: seq<string>)
    ensures lines == Lines(part)
  {
    lines := [];
    var rest := part;
    while FirstNewline(rest) < |rest|
      invariant Lines(part) == lines + Lines(rest)
      decreases |rest|
    {
      var i := FirstNewline(rest);
      Append(lines, rest[..i], Lines(rest[i + 1..]));
      lines, rest := lines + [rest[..i]], rest[i + 1..];
    }
    lines := lines + [rest];
  }

  // --------------------------------------------------------- chunking is unseen

  function Text(chunks: seq<string>): (r: string) {
    if chunks == [] then "" else Text(chunks[..|chunks| - 1]) + chunks[|chunks| - 1]
  }

  lemma {:induction false} PartsInTwo<E>(parse: string -> Option<E>, c: Client<E>, p: seq<string>, q: seq<string>)
    requires !c.closed
    ensures var mid := AfterParts(parse, c, p);
            AfterParts(parse, c, p + q) == if mid.closed then mid else AfterParts(parse, mid, q)
    decreases |q|
  {
    if q == [] {
      assert p + q == p;
    } else {
      assert Complete(p + q) == p + Complete(q) && Last(p + q) == Last(q);
      PartsInTwo(parse, c, p, Complete(q));
    }
  }

  lemma {:induction false} BufferIsCarried<E>(parse: string -> Option<E>, c: Client<E>, parts: seq<string>, b: string)
    ensures AfterParts(parse, c.(buffer := b), parts) == AfterParts(parse, c, parts).(buffer := b)
  {
    if parts != [] { BufferIsCarried(parse, c, Complete(parts), b); }
  }

  /** Everything but the buffer, which no callback sees. */
  function Seen<E>(c: Client<E>): (r: Client<E>) {
    c.(buffer := "")
  }

  /** Taking parts in two goes, with whatever rest in the buffer meanwhile. */
  lemma TwoGoes<E>(parse: string -> Option<E>, c: Client<E>, p: seq<string>, q: seq<string>, rest1: string,
                   rest2: string)
    requires !c.closed
    ensures var mid := AfterParts(parse, c.(buffer := rest1), p);
            var one := AfterParts(parse, c.(buffer := rest2), p + q);
            if mid.closed then one == mid.(buffer := rest2) else one == AfterParts(parse, mid.(buffer := rest2), q)
  {
    BufferIsCarried(parse, c, p, rest1);
    BufferIsCarried(parse, c, p, rest2);
    PartsInTwo(parse, c.(buffer := rest2), p, q);
  }

  lemma PartsOfChunk(buffer: string, a: string, b: string)
    ensures var first := Parts(buffer + a);
            var second := Parts(Last(first) + b);
            var whole := Parts(buffer + (a + b));
            Last(whole) == Last(second) && Complete(whole) == Complete(first) + Complete(second)
  {
    assert buffer + (a + b) == (buffer + a) + b;
    PartsOfGrowing(buffer + a, b);
    var first := Parts(buffer + a);
    LastOfTwo(Complete(first), Parts(Last(first) + b));
  }

  lemma LastOfTwo(p: seq<string>, q: seq<string>)
    requires q != []
    ensures Last(p + q) == Last(q) && Complete(p + q) == p + Complete(q)
  {
  }

  /** Two chunks in a row are as good as one. */
  lemma ChunksJoin<E>(parse: string -> Option<E>, c: Client<E>, a: string, b: string)
    requires !c.closed
    ensures var two := AfterChunk(parse, AfterChunk(parse, c, a), b);
            var one := AfterChunk(parse, c, a + b);
            Seen(two) == Seen(one) && (!one.closed ==> two == one)
  {
    var first := Parts(c.buffer + a);
    var second := Parts(Last(first) + b);
    PartsOfChunk(c.buffer, a, b);
    TwoGoes(parse, c, Complete(first), Complete(second), Last(first), Last(second));
  }

  /** However a text is cut into chunks, the callbacks see what they see of the whole text. */
  lemma {:induction false} ChunkingIsUnseen<E>(parse: string -> Option<E>, chunks: seq<string>)
    ensures var cut := AfterChunks(parse, Fresh<E>(), chunks);
            var whole := AfterChunk(parse, Fresh<E>(), Text(chunks));
            Seen(cut) == Seen(whole) && (!whole.closed ==> cut == whole)
  {
    if chunks != [] {
      var front := chunks[..|chunks| - 1];
      ChunkingIsUnseen(parse, front);
      ChunksJoin(parse, Fresh<E>(), Text(front), chunks[|chunks| - 1]);
    } else {
      assert Parts("") == [""];
      assert "" + "" == "";
    }
  }

  // ----------------------------------------------------------------- round trip

  /** The events in these frames, in order; the frame that ends a run's stream reads as {}. */
  function Events<E>(parse: string -> Option<E>, frames: seq<Frame>): (r: seq<E>) {
    if frames == [] then []
    else
      var f := frames[|frames| - 1];
      var data := if f.Data? then f.payload else if f.EventDone? then "{}" else "";
      Events(parse, frames[..|frames| - 1])
      + (if data == "" then [] else match parse(data) case Some(e) => [e] case None => [])
  }

  lemma DataOfBlock(f: Frame)
    requires f.Data? ==> Sendable(f.payload)
    ensures DataOf(Block(f)) == if f.Data? then f.payload else if f.EventDone? then "{}" else ""
  {
    match f
    case Data(payload) => DataOfData(payload);
    case Keepalive => DataOfKeepalive();
    case EventDone => DataOfDone();
  }

  lemma {:induction false} BlocksOfLonger(frames: seq<Frame>)
    requires frames != []
    ensures Blocks(frames) == Blocks(frames[..|frames| - 1]) + [Block(frames[|frames| - 1])]
  {
    if |frames| > 1 {
      BlocksOfLonger(frames[1..]);
      assert frames[1..][..|frames| - 2] == frames[..|frames| - 1][1..];
    }
  }

  lemma {:induction false} BlocksDeliver<E>(parse: string -> Option<E>, frames: seq<Frame>)
    requires Printable(frames)
    ensures AfterParts(parse, Fresh<E>(), Blocks(frames)) == Fresh<E>().(delivered := Events(parse, frames))
  {
    if frames != [] {
      var front, f := frames[..|frames| - 1], frames[|frames| - 1];
      BlocksDeliver(parse, front);
      BlocksOfLonger(frames);
      DataOfBlock(f);
    }
  }

  /** Whatever frames a server prints and wherever the text is cut, the client delivers exactly the
      events in them, in order, keeps no rest, and does not take the stream for ended: no frame of either
      server reads as the word the client waits for, so only the end of the response ends it. */
  lemma FramesRoundTrip<E>(parse: string -> Option<E>, frames: seq<Frame>, chunks: seq<string>)
    requires Printable(frames) && Text(chunks) == Print(frames)
    ensures AfterChunks(parse, Fresh<E>(), chunks) == Fresh<E>().(delivered := Events(parse, frames))
  {
    ChunkingIsUnseen<E>(parse, chunks);
    PrintedParts(frames);
    assert "" + Print(frames) == Print(frames);
    assert Complete(Blocks(frames) + [""]) == Blocks(frames) && Last(Blocks(frames) + [""]) == "";
    BlocksDeliver<E>(parse, frames);
  }

  function DataFrames<E>(dump: E -> string, events: seq<E>): (r: seq<Frame>)
    ensures |r| == |events| && forall k :: 0 <= k < |r| ==> r[k] == Data(dump(events[k]))
  {
    seq(|events|, k requires 0 <= k < |events| => Data(dump(events[k])))
  }

  /** The frames without the keepalives between them. */
  function WithoutKeepalives(frames: seq<Frame>): (r: seq<Frame>) {
    if frames == [] then []
    else
      var f := frames[|frames| - 1];
      WithoutKeepalives(frames[..|frames| - 1]) + (if f.Keepalive? then [] else [f])
  }

  lemma {:induction false} KeepalivesCarryNothing<E>(parse: string -> Option<E>, frames: seq<Frame>)
    ensures Events(parse, frames) == Events(parse, WithoutKeepalives(frames))
  {
    if frames != [] {
      var front, f := frames[..|frames| - 1], frames[|frames| - 1];
      KeepalivesCarryNothing(parse, front);
      var kept := WithoutKeepalives(front);
      if f.Keepalive? {
        assert WithoutKeepalives(frames) == kept;
      } else {
        assert WithoutKeepalives(frames) == kept + [f];
        assert (kept + [f])[..|kept|] == kept;
      }
    }
  }

  lemma {:induction false} DumpedEvents<E>(parse: string -> Option<E>, dump: E -> string, events: seq<E>)
    requires forall e :: e in events ==> parse(dump(e)) == Some(e) && dump(e) != ""
    ensures Events(parse, DataFrames(dump, events)) == events
  {
    if events != [] {
      var front := events[..|events| - 1];
      DumpedEvents(parse, dump, front);
      assert DataFrames(dump, events)[..|events| - 1] == DataFrames(dump, front);
    }
  }

  lemma {:induction false} KeptFrames(frames: seq<Frame>)
    ensures forall f :: f in frames && f.Data? ==> f in WithoutKeepalives(frames)
  {
    if frames != [] { KeptFrames(frames[..|frames| - 1]); }
  }

  /** A list of events, printed as JSON with keepalives anywhere between, arrives as that list. */
  lemma EventsRoundTrip<E>(parse: string -> Option<E>, dump: E -> string, events: seq<E>,
                           frames: seq<Frame>, chunks: seq<string>)
    requires forall e :: e in events ==> parse(dump(e)) == Some(e) && Sendable(dump(e))
    requires WithoutKeepalives(frames) == DataFrames(dump, events) && Text(chunks) == Print(frames)
    ensures AfterChunks(parse, Fresh<E>(), chunks) == Fresh<E>().(delivered := events)
  {
    KeptFrames(frames);
    FramesRoundTrip(parse, frames, chunks);
    KeepalivesCarryNothing(parse, frames);
    DumpedEvents(parse, dump, events);
  }

  // -------------------------------------------------------------- onDone, once

  datatype Signal = Chunk(text: string) | End | Error | Cancel

  /** The callbacks of the request and the cancel function that streamRun returns. */
  function AfterSignal<E>(parse: string -> Option<E>, c: Client<E>, s: Signal): (r: Client<E>) {
    match s
    case Chunk(text) => AfterChunk(parse, c, text)
    case End => Finish(c)
    case Error => Finish(c)
    case Cancel => if c.done then c else c.(done := true, closed := true)
  }

  function AfterSignals<E>(parse: string -> Option<E>, signals: seq<Signal>): (r: Client<E>) {
    if signals == [] then Fresh<E>()
    else AfterSignal(parse, AfterSignals(parse, signals[..|signals| - 1]), signals[|signals| - 1])
  }

  lemma {:induction false} PartsFinishOnce<E>(parse: string -> Option<E>, c: Client<E>, parts: seq<string>)
    ensures var r := AfterParts(parse, c, parts);
            r == c.(done := r.done, closed := r.closed, delivered := r.delivered, doneCalls := r.doneCalls)
            && (r.done == c.done ==> r.doneCalls == c.doneCalls)
            && (r.done != c.done ==> r.done && r.doneCalls == c.doneCalls + 1)
  {
    if parts != [] { PartsFinishOnce(parse, c, Complete(parts)); }
  }

  /** In every run onDone is called at most once, and exactly once by the end of a run that was not
      cancelled. */
  lemma {:induction false} DoneOnce<E>(parse: string -> Option<E>, signals: seq<Signal>)
    ensures var r := AfterSignals(parse, signals);
            && r.doneCalls <= (if r.done then 1 else 0)
            && (r.done && Cancel !in signals ==> r.doneCalls == 1)
            && ((End in signals || Error in signals || Cancel in signals) ==> r.done)
  {
    if signals != [] {
      var front, s := signals[..|signals| - 1], signals[|signals| - 1];
      DoneOnce(parse, front);
      var c := AfterSignals(parse, front);
      match s
      case Chunk(text) =>
        if !c.closed {
          var parts := Parts(c.buffer + text);
          PartsFinishOnce(parse, c.(buffer := Last(parts)), Complete(parts));
        }
      case _ =>
    }
  }
}
