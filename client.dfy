/**
 * The client's reader of the event streams (src/services/api.ts): the received text is cut at
 * line breaks, the last, unfinished line is kept for the next read, and each finished line
 * that starts with `data: ` is parsed as JSON and handed to `onChunk`; a line that does not
 * parse is skipped. The network reads are the `chunks` parameter, already decoded to text,
 * and the calls to `onChunk` are the returned sequence, in order.
 */
module Client {
  import opened Wrappers
  import opened Text
  import opened Json
  import opened Http

  /** Who wrote a message of a conversation. */
  datatype Role = User | Assistant

  /** `Message`: one message of a conversation, as the pages keep it and post it. */
  datatype Message = Message(role: Role, content: string)

  /** `response.ok`: a status in the range 200-299. */
  predicate Ok(status: int) {
    200 <= status <= 299
  }

  /** What one finished line passes to `onChunk`: the parsed object of a `data: ` line, if it parses. */
  function LineEvents(line: string): seq<Payload> {
    if "data: " <= line then
      match ParseObject(line[6..])
      case Some(o) => [FromObject(o)]
      case None => []
    else []
  }

  /** What a list of finished lines passes to `onChunk`, line by line, in order. */
  function LinesEvents(lines: seq<string>): (r: seq<Payload>)
    ensures |r| <= |lines|
  {
    if lines == [] then [] else LinesEvents(lines[..|lines| - 1]) + LineEvents(lines[|lines| - 1])
  }

  /** The finished lines of a text: every piece between line breaks but the last. */
  function FinishedLines(text: string): seq<string> {
    var ps := Split(text, '\n');
    ps[..|ps| - 1]
  }

  /** Everything `onChunk` receives once `text` has arrived, however it was cut into reads. */
  function Delivered(text: string): seq<Payload> {
    LinesEvents(FinishedLines(text))
  }

  lemma {:induction false} LinesEventsAppend(a: seq<string>, b: seq<string>)
    ensures LinesEvents(a + b) == LinesEvents(a) + LinesEvents(b)
    decreases |b|
  {
    if b == [] {
      assert a + b == a;
    } else {
      var n := |b|;
      var front, last := b[..n - 1], b[n - 1];
      assert (a + b)[..|a + b| - 1] == a + front;
      assert (a + b)[|a + b| - 1] == last;
      LinesEventsAppend(a, front);
      calc {
        LinesEvents(a + b);
        LinesEvents(a + front) + LineEvents(last);
        LinesEvents(a) + LinesEvents(front) + LineEvents(last);
        LinesEvents(a) + (LinesEvents(front) + LineEvents(last));
      }
    }
  }

  lemma LinesEventsSnoc(lines: seq<string>, j: int)
    requires 0 <= j < |lines|
    ensures LinesEvents(lines[..j + 1]) == LinesEvents(lines[..j]) + LineEvents(lines[j])
  {
    assert lines[..j + 1][..j] == lines[..j];
  }

  /** The loop over `lines` after `pop`: hands each finished line of `buffer` to `onChunk`, in order. */
  method DispatchLines(lines: seq<string>) returns (events: seq<Payload>)
    ensures events == LinesEvents(lines)
  {
    events := [];
    var j := 0;
    while j < |lines|
      invariant 0 <= j <= |lines|
      invariant events == LinesEvents(lines[..j])
    {
      var line := lines[j];
      if "data: " <= line {
        var parsed := ParseObject(line[6..]);
        if parsed.Some? {
          events := events + [FromObject(parsed.value)];
        }
      }
      LinesEventsSnoc(lines, j);
      j := j + 1;
    }
    assert lines[..j] == lines;
  }

  /**
   * The `while (true)` loop: appends each read to `buffer`, splits it at line breaks, keeps the
   * last piece and dispatches the others. What reaches `onChunk` depends only on the text
   * received, not on where the reads cut it, and the unfinished last line is never dispatched.
   */
  method ReadEvents(chunks: seq<string>) returns (events: seq<Payload>)
    ensures events == Delivered(Concat(chunks))
  {
    var buffer := "";
    events := [];
    ghost var received := "";
    var i := 0;
    while i < |chunks|
      invariant 0 <= i <= |chunks|
      invariant received == Concat(chunks[..i])
      invariant buffer == LastPiece(received, '\n')
      invariant events == Delivered(received)
    {
      ReadStep(received, chunks[i]);
      buffer := buffer + chunks[i];
      var lines := Split(buffer, '\n');
      assert lines[|lines| - 1] == LastPiece(buffer, '\n');
      assert lines[..|lines| - 1] == FinishedLines(buffer);
      buffer := lines[|lines| - 1];
      var dispatched := DispatchLines(lines[..|lines| - 1]);
      events := events + dispatched;
      ConcatSnoc(chunks, i);
      received := received + chunks[i];
      i := i + 1;
    }
    assert chunks[..i] == chunks;
  }

  lemma ConcatSnoc(chunks: seq<string>, i: int)
    requires 0 <= i < |chunks|
    ensures Concat(chunks[..i + 1]) == Concat(chunks[..i]) + chunks[i]
  {
    assert chunks[..i + 1] == chunks[..i] + [chunks[i]];
    ConcatAppend(chunks[..i], [chunks[i]]);
  }

  /** One read: the lines it finishes are those of the kept last piece followed by the new text. */
  lemma ReadStep(received: string, chunk: string)
    ensures var rest := LastPiece(received, '\n') + chunk;
      && LastPiece(received + chunk, '\n') == LastPiece(rest, '\n')
      && Delivered(received + chunk) == Delivered(received) + Delivered(rest)
  {
    var ps := Split(received, '\n');
    var rest := LastPiece(received, '\n') + chunk;
    var qs := Split(rest, '\n');
    SplitAppend(received, chunk, '\n');
    assert Split(received + chunk, '\n') == ps[..|ps| - 1] + qs;
    assert FinishedLines(received + chunk) == FinishedLines(received) + FinishedLines(rest);
    LinesEventsAppend(FinishedLines(received), FinishedLines(rest));
  }

  /**
   * `sendMessageToAssistant`: a response that is not `ok` throws before anything is read;
   * otherwise every finished `data: ` line that parses reaches `onChunk`.
   */
  method SendMessageToAssistant(status: int, chunks: seq<string>) returns (events: seq<Payload>, failed: bool)
    ensures failed <==> !Ok(status)
    ensures failed ==> events == []
    ensures !failed ==> events == Delivered(Concat(chunks))
  {
    if !Ok(status) {
      return [], true;
    }
    events := ReadEvents(chunks);
    failed := false;
  }

  /** `sendMessageToChatbot`: the same reading; its `catch` logs the error and throws it again. */
  method SendMessageToChatbot(status: int, chunks: seq<string>) returns (events: seq<Payload>, failed: bool)
    ensures failed <==> !Ok(status)
    ensures failed ==> events == []
    ensures !failed ==> events == Delivered(Concat(chunks))
  {
    if !Ok(status) {
      return [], true;
    }
    events := ReadEvents(chunks);
    failed := false;
  }

  /** A text that ends with a line break, or is empty: no line is half received. */
  predicate AtLineStart(text: string) {
    text == [] || text[|text| - 1] == '\n'
  }

  /** Text after the last line break is held back: a partial line adds nothing until its line break arrives. */
  lemma PartialLineHeldBack(text: string, partial: string)
    requires AtLineStart(text) && '\n' !in partial
    ensures Delivered(text + partial) == Delivered(text)
  {
    SplitAppend(text, partial, '\n');
    assert LastPiece(text, '\n') == "" by {
      if text != [] {
        var t := text[..|text| - 1];
        assert text == t + ['\n'];
        SplitAppend(t, ['\n'], '\n');
        assert '\n' !in LastPiece(t, '\n') by {
          SplitPiecesAvoidSep(t, '\n');
        }
        SplitAtFirstSep(LastPiece(t, '\n'), "", '\n');
        assert LastPiece(t, '\n') + ['\n'] == LastPiece(t, '\n') + ['\n'] + "";
      }
    }
    SplitWithoutSep(partial, '\n');
    assert "" + partial == partial;
  }

  /** A frame is one `data: ` line that reads back as its object, then a blank line. */
  lemma FrameLine(e: Payload) returns (line: string)
    ensures Frame(e) == line + ['\n'] + ['\n']
    ensures '\n' !in line
    ensures LineEvents(line) == [e]
  {
    var j := Stringify(ToObject(e));
    PayloadRoundTrip(e);
    line := DataLine(j);
    ParsedLine(line, j, ParseObject(j).value);
  }

  lemma ParsedLine(line: string, j: string, o: Object)
    requires "data: " <= line && line[6..] == j && ParseObject(j) == Some(o)
    ensures LineEvents(line) == [FromObject(o)]
  {
  }

  /** The line `data: <json>`; it has a line break only where the JSON text has one. */
  lemma DataLine(j: string) returns (line: string)
    ensures line == "data: " + j && "data: " <= line && line[6..] == j
    ensures '\n' !in j ==> '\n' !in line
    ensures "data: " + j + "\n\n" == line + ['\n'] + ['\n']
  {
    line := "data: " + j;
    if '\n' !in j {
      forall k | 0 <= k < |line|
        ensures line[k] != '\n'
      {
        if k >= 6 {
          assert line[k] == j[k - 6];
        }
      }
    }
  }

  lemma ConcatFramesCons(es: seq<Payload>)
    requires es != []
    ensures Concat(Frames(es)) == Frame(es[0]) + Concat(Frames(es[1..]))
  {
    assert Frames(es)[1..] == Frames(es[1..]);
  }

  /** A line, a blank line, then more text: the first two pieces of the split are the line and the blank. */
  lemma SplitFrame(line: string, rest: string)
    requires '\n' !in line
    ensures FinishedLines(line + ['\n'] + ['\n'] + rest) == [line, ""] + FinishedLines(rest)
  {
    var text := line + ['\n'] + ['\n'] + rest;
    assert text == line + ['\n'] + (['\n'] + rest);
    SplitAtFirstSep(line, ['\n'] + rest, '\n');
    assert ['\n'] + rest == [] + ['\n'] + rest;
    SplitAtFirstSep([], rest, '\n');
    var tail := Split(rest, '\n');
    assert Split(text, '\n') == [line] + ([""] + tail);
    assert [line] + ([""] + tail) == [line, ""] + tail;
  }

  lemma LinesEventsPair(line: string, blank: string)
    requires blank == ""
    ensures LinesEvents([line, blank]) == LineEvents(line)
  {
    assert LineEvents(blank) == [];
    assert [line, blank][..1] == [line];
    assert [line][..0] == [];
    assert LinesEvents([line]) == LinesEvents([]) + LineEvents(line);
    assert LinesEvents([line, blank]) == LinesEvents([line]) + LineEvents(blank);
  }

  /**
   * The event stream of a list of objects reads back, on the client, as exactly those objects:
   * each frame is one `data: ` line that parses to its object, followed by a blank line.
   */
  lemma {:induction false} FramesDelivered(es: seq<Payload>)
    ensures Delivered(Concat(Frames(es))) == es
  {
    if es != [] {
      var rest := Concat(Frames(es[1..]));
      ConcatFramesCons(es);
      var line := FrameLine(es[0]);
      DeliveredAfterLine(line, rest);
      FramesDelivered(es[1..]);
      assert [es[0]] + es[1..] == es;
    }
  }

  /** A finished line and a blank line in front of more text deliver the line's object first. */
  lemma DeliveredAfterLine(line: string, rest: string)
    requires '\n' !in line
    ensures Delivered(line + ['\n'] + ['\n'] + rest) == LineEvents(line) + Delivered(rest)
  {
    SplitFrame(line, rest);
    LinesEventsAppend([line, ""], FinishedLines(rest));
    LinesEventsPair(line, "");
  }

  /** However the frames are cut into reads, the client receives every object of the stream, in order. */
  lemma StreamDelivered(chunks: seq<string>, es: seq<Payload>)
    requires Concat(chunks) == Concat(Frames(es))
    ensures Delivered(Concat(chunks)) == es
  {
    FramesDelivered(es);
  }

  /**
   * A body made of one JSON text without a line break, as `res.json` sends, has no finished
   * line: the client hands nothing to `onChunk`, whatever the object says.
   */
  lemma JsonBodyDeliversNothing(o: Object)
    ensures Delivered(Stringify(o)) == []
  {
    StringifyHasNoNewline(o);
    SplitWithoutSep(Stringify(o), '\n');
  }
}
