/** What the frames, the lines and the signals of an event stream come to, written out. */
module SseLaws {
  import opened Texts
  import opened Wrappers
  import opened SseText
  import opened SseClient

  // --------------------------------------------------------------------- text

  /** The bytes of each frame. */
  lemma PrintedFrames(payload: string, rest: seq<Frame>)
    ensures Print([Data(payload)] + rest) == "data: " + payload + "\n\n" + Print(rest)
    ensures Print([Keepalive] + rest) == ": keepalive\n\n" + Print(rest)
    ensures Print([EventDone] + rest) == "event: done\ndata: {}\n\n" + Print(rest)
    ensures Print([]) == ""
  {
    assert ([Data(payload)] + rest)[1..] == rest;
    assert ([Keepalive] + rest)[1..] == rest;
    assert ([EventDone] + rest)[1..] == rest;
    assert ": keepalive" + "\n\n" == ": keepalive\n\n";
    assert "event: done\ndata: {}" + "\n\n" == "event: done\ndata: {}\n\n";
  }

  lemma LineInFront(head: string, tail: string)
    requires FirstNewline(head) < |head|
    ensures var i := FirstNewline(head);
            Lines(head + "\n" + tail) == [head[..i]] + Lines(head[i + 1..] + "\n" + tail)
  {
    var whole, i := head + "\n" + tail, FirstNewline(head);
    assert forall k :: 0 <= k <= i ==> whole[k] == head[k];
    NewlineIs(whole, i);
    assert whole[..i] == head[..i] && whole[i + 1..] == head[i + 1..] + "\n" + tail;
  }

  lemma LineAlone(head: string, tail: string)
    requires '\n' !in head
    ensures Lines(head + "\n" + tail) == Lines(head) + Lines(tail)
  {
    var whole := head + "\n" + tail;
    assert forall k :: 0 <= k < |head| ==> whole[k] == head[k];
    NewlineIs(whole, |head|);
    assert whole[..|head|] == head && whole[|head| + 1..] == tail;
    LineWithoutNewline(head);
  }

  lemma {:induction false} LinesJoin(head: string, tail: string)
    ensures Lines(head + "\n" + tail) == Lines(head) + Lines(tail)
    decreases |head|
  {
    var i := FirstNewline(head);
    if i < |head| {
      LineInFront(head, tail);
      LinesJoin(head[i + 1..], tail);
      Regroup(head[..i], Lines(head[i + 1..]), Lines(tail));
    } else {
      LineAlone(head, tail);
    }
  }

  lemma OneMoreLine(lines: seq<string>, line: string)
    ensures DataOfLines(lines + [line]) == DataOfLines(lines) + DataOfLines([line])
  {
    OneLine(line);
    assert (lines + [line])[..|lines|] == lines;
  }

  lemma LineJoins(p: seq<string>, q: seq<string>, line: string)
    requires DataOfLines(p + q) == DataOfLines(p) + DataOfLines(q)
    ensures DataOfLines(p + (q + [line])) == DataOfLines(p) + DataOfLines(q + [line])
  {
    OneMoreLine(p + q, line);
    OneMoreLine(q, line);
    assert p + (q + [line]) == (p + q) + [line];
  }

  lemma {:induction false} DataJoins(p: seq<string>, q: seq<string>)
    ensures DataOfLines(p + q) == DataOfLines(p) + DataOfLines(q)
    decreases |q|
  {
    if q == [] {
      assert p + q == p;
    } else {
      DataJoins(p, q[..|q| - 1]);
      LineJoins(p, q[..|q| - 1], q[|q| - 1]);
      assert q == q[..|q| - 1] + [q[|q| - 1]];
    }
  }

  /** What a part says: its lines one after the other; a line says what follows "data:", trimmed, and any
      other line says nothing. */
  lemma PartSays(head: string, tail: string, line: string)
    requires '\n' !in line
    ensures DataOf(head + "\n" + tail) == DataOf(head) + DataOf(tail)
    ensures DataOf("data:" + line) == Trim(line, Space)
    ensures !("data:" <= line) ==> DataOf(line) == ""
  {
    LinesJoin(head, tail);
    DataJoins(Lines(head), Lines(tail));
    LineWithoutNewline("data:" + line);
    OneLine("data:" + line);
    assert ("data:" + line)[5..] == line && ("data:" + line)[..5] == "data:";
    LineWithoutNewline(line);
    OneLine(line);
  }

  // ------------------------------------------------------------------- events

  /** An event that parses is delivered behind the earlier ones, a malformed one and a keepalive are skipped,
      and the frame that ends a run's stream counts as the event {}. */
  lemma OneMoreFrame<E>(parse: string -> Option<E>, frames: seq<Frame>, payload: string)
    requires payload != ""
    ensures Events(parse, []) == []
    ensures Events(parse, frames + [Data(payload)])
              == Events(parse, frames) + (if parse(payload).Some? then [parse(payload).value] else [])
    ensures Events(parse, frames + [Keepalive]) == Events(parse, frames)
    ensures Events(parse, frames + [EventDone]) == Events(parse, frames + [Data("{}")])
  {
    assert (frames + [Data(payload)])[..|frames|] == frames;
    assert (frames + [Keepalive])[..|frames|] == frames;
    assert (frames + [EventDone])[..|frames|] == frames;
    assert (frames + [Data("{}")])[..|frames|] == frames;
  }

  // ------------------------------------------------------------------ the end

  lemma DataOfDoneWord()
    ensures DataOf("data: done") == "done"
  {
    DataOfWord(" done", "data: done");
    TrimmedDone(" done");
  }

  lemma DataOfWord(line: string, part: string)
    requires '\n' !in line && part == "data:" + line
    ensures DataOf(part) == Trim(line, Space)
  {
    PartSays("", "", line);
  }

  lemma TrimmedDone(line: string)
    requires line == " done"
    ensures Trim(line, Space) == "done"
  {
    assert line[1..] == "done";
  }

  lemma PartInFront(part: string, rest: string)
    requires '\n' !in part
    ensures Parts(part + "\n\n" + rest) == [part] + Parts(rest)
  {
    var text := part + "\n\n" + rest;
    forall k: nat | k < |part| ensures !BreakAt(text, k) {
      assert text[k] == part[k];
    }
    FirstBreakIs(text, |part|);
    assert text[..|part|] == part && text[|part| + 2..] == rest;
  }

  lemma PartsBehind(frames: seq<Frame>, rest: string)
    requires Printable(frames)
    ensures Parts(Print(frames) + rest) == Blocks(frames) + Parts(rest)
  {
    PartsOfGrowing(Print(frames), rest);
    PrintedParts(frames);
    LastOfTwo(Blocks(frames), [""]);
    assert Complete([""]) == [] && Blocks(frames) + [] == Blocks(frames) && "" + rest == rest;
  }

  lemma PartsUpToDone(frames: seq<Frame>, rest: string)
    requires Printable(frames)
    ensures Parts(Print(frames) + ("data: done\n\n" + rest)) == Blocks(frames) + (["data: done"] + Parts(rest))
  {
    var part := "data: done";
    assert '\n' !in part && part + "\n\n" == "data: done\n\n";
    PartInFront(part, rest);
    PartsBehind(frames, part + "\n\n" + rest);
  }

  lemma DoneCloses<E>(parse: string -> Option<E>, c: Client<E>)
    ensures AfterPart(parse, c, "data: done") == Finish(c).(closed := true)
  {
    DataOfDoneWord();
  }

  lemma UpToClosing<E>(parse: string -> Option<E>, c: Client<E>, p: seq<string>, word: string, rest: seq<string>)
    requires !c.closed && !AfterParts(parse, c, p).closed && AfterPart(parse, AfterParts(parse, c, p), word).closed
    ensures AfterParts(parse, c, p + ([word] + rest)) == AfterPart(parse, AfterParts(parse, c, p), word)
  {
    var one := p + [word];
    assert Complete(one) == p && Last(one) == word;
    assert p + ([word] + rest) == one + rest;
    PartsInTwo(parse, c, one, rest);
  }

  /** The word the client waits for: whatever frames came before it, wherever the text is cut and whatever
      follows, the client has delivered the events before it, called onDone once and closed the request. */
  lemma DoneWordEnds<E>(parse: string -> Option<E>, frames: seq<Frame>, rest: string, chunks: seq<string>)
    requires Printable(frames) && Text(chunks) == Print(frames) + ("data: done\n\n" + rest)
    ensures var c := AfterChunks(parse, Fresh<E>(), chunks);
            c.delivered == Events(parse, frames) && c.done && c.closed && c.doneCalls == 1
  {
    ChunkingIsUnseen<E>(parse, chunks);
    PartsUpToDone(frames, rest);
    var parts := Parts(Text(chunks));
    assert "" + Text(chunks) == Text(chunks);
    LastOfTwo(Blocks(frames), ["data: done"] + Parts(rest));
    LastOfTwo(["data: done"], Parts(rest));
    BlocksDeliver<E>(parse, frames);
    BufferIsCarried(parse, Fresh<E>(), Blocks(frames), Last(parts));
    var c := Fresh<E>().(buffer := Last(parts));
    DoneCloses(parse, AfterParts(parse, c, Blocks(frames)));
    UpToClosing(parse, c, Blocks(frames), "data: done", Complete(Parts(rest)));
  }

  lemma {:induction false} ClosedForGood<E>(parse: string -> Option<E>, before: seq<Signal>, after: seq<Signal>)
    requires var c := AfterSignals(parse, before); c.done && c.closed
    ensures AfterSignals<E>(parse, before + after) == AfterSignals(parse, before)
    decreases |after|
  {
    if after == [] {
      assert before + after == before;
    } else {
      assert (before + after)[..|before + after| - 1] == before + after[..|after| - 1];
      ClosedForGood<E>(parse, before, after[..|after| - 1]);
    }
  }

  /** A cancellation is final: whatever arrives after it, nothing more is delivered and onDone is not called;
      it only comes too late if the stream had ended. */
  lemma CancelSilences<E>(parse: string -> Option<E>, before: seq<Signal>, after: seq<Signal>)
    ensures var c := AfterSignals<E>(parse, before);
            var r := AfterSignals<E>(parse, before + [Cancel] + after);
            !c.done ==> r.delivered == c.delivered && r.doneCalls == c.doneCalls && r.closed && r.done
    ensures AfterSignals<E>(parse, before).done ==>
              AfterSignals<E>(parse, before + [Cancel]) == AfterSignals<E>(parse, before)
  {
    assert (before + [Cancel])[..|before|] == before;
    if !AfterSignals<E>(parse, before).done { ClosedForGood<E>(parse, before + [Cancel], after); }
  }
}
