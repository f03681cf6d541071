/**
 * The chatbot's stream re-chunker (backend/langchain.js, `handleStream`, repeated inline in
 * the `/api/chatbot` route of backend/server.js) and the title the chatbot gives a new
 * conversation (`getChatbotResponse`). Deltas are gathered in a buffer that is sent as
 * `{content, title}` once it reaches 5 UTF-16 code units or the delta just added holds one of
 * `. , ! ?`; whatever is left is sent at the end, followed by `{done: true, title}`.
 */
module ChatbotStream {
  import opened Wrappers
  import opened Text
  import opened Json
  import opened Http

  // ---------------------------------------------------------------------------------------
  // The conversation title

  /** One message of the conversation, as the client posts it. */
  datatype ChatMessage = ChatMessage(role: string, content: string)

  /**
   * The title of the response: `null` unless the conversation is new and has a message, in
   * which case it is the trimmed reply of the title completion, which is asked about the first
   * message only. `complete` stands for that completion call; `None` is a call that throws (a
   * network failure, or a reply without text), and so is the result here.
   */
  function TitleFor(messages: seq<ChatMessage>, isNewConversation: bool, complete: string -> Option<string>): (r: Option<TitleField>)
    ensures r.Some? && r.value.Title? ==> IsTrimmed(r.value.text)
    ensures r.Some? ==> !r.value.NoTitle?
  {
    if isNewConversation && |messages| > 0 then
      match complete(messages[0].content)
      case None => None
      case Some(reply) => Some(Title(Trim(reply)))
    else Some(NullTitle)
  }

  /** Only a new conversation with at least one message asks for a title; every other one gets `null` and cannot fail here. */
  lemma TitleOnlyWhenNew(messages: seq<ChatMessage>, isNewConversation: bool, complete: string -> Option<string>)
    ensures TitleFor(messages, isNewConversation, complete).Some? && TitleFor(messages, isNewConversation, complete).value.Title?
        <==> isNewConversation && |messages| > 0 && complete(messages[0].content).Some?
    ensures !(isNewConversation && |messages| > 0) ==> TitleFor(messages, isNewConversation, complete) == Some(NullTitle)
  {
  }

  /** The title depends on the first message's text only: the rest of the conversation and the roles play no part. */
  lemma TitleFromFirstMessage(m1: seq<ChatMessage>, m2: seq<ChatMessage>, isNewConversation: bool, complete: string -> Option<string>)
    requires m1 != [] && m2 != [] && m1[0].content == m2[0].content
    ensures TitleFor(m1, isNewConversation, complete) == TitleFor(m2, isNewConversation, complete)
  {
  }

  // ---------------------------------------------------------------------------------------
  // The re-chunking policy

  /** The handler's variables: the unsent text, all the text received, and every text sent so far. */
  datatype State = State(buffer: string, fullContent: string, sent: seq<string>)

  const Start := State("", "", [])

  /** The characters of the class `[.,!?]`. */
  const Punctuation: set<char> := {'.', ',', '!', '?'}

  /** `/[.,!?]/.test(s)`. */
  predicate HasPunctuation(s: string) {
    HasAnyOf(s, Punctuation)
  }

  /** The buffer has reached 5 UTF-16 code units (`length`), or the delta just added to it holds punctuation. */
  predicate ShouldFlush(buffer: string, content: string)
    ensures !ShouldFlush(buffer, content) ==> JsLength(buffer) < 5
  {
    JsLength(buffer) >= 5 || HasPunctuation(content)
  }

  /** One delta of the model stream (`''` when it has no content): it sends at most once, appending. */
  function Step(st: State, content: string): (r: State)
    ensures content == "" ==> r == st
    ensures |st.sent| <= |r.sent| <= |st.sent| + 1
  {
    if content == "" then st
    else
      var b := st.buffer + content;
      var full := st.fullContent + content;
      if ShouldFlush(b, content) then State("", full, st.sent + [b])
      else State(b, full, st.sent)
  }

  /** The state after the given deltas: at most one send per delta. */
  function Run(deltas: seq<string>): (r: State)
    ensures |r.sent| <= |deltas|
  {
    if deltas == [] then Start else Step(Run(deltas[..|deltas| - 1]), deltas[|deltas| - 1])
  }

  /** The remaining buffer, when it is non-empty. */
  function Remainder(buffer: string): seq<string> {
    if buffer != "" then [buffer] else []
  }

  function ContentEvent(text: string, title: TitleField): Payload {
    Payload(Some(text), false, title)
  }

  function DoneEvent(title: TitleField): Payload {
    Payload(None, true, title)
  }

  function ContentEvents(texts: seq<string>, title: TitleField): (ps: seq<Payload>)
    ensures |ps| == |texts|
    ensures forall i :: 0 <= i < |texts| ==> ps[i] == ContentEvent(texts[i], title)
  {
    seq(|texts|, i requires 0 <= i < |texts| => ContentEvent(texts[i], title))
  }

  /** The texts the handler sends for the given deltas, in order. */
  function SentTexts(deltas: seq<string>): seq<string> {
    var st := Run(deltas);
    st.sent + Remainder(st.buffer)
  }

  /** The objects the handler writes for the given deltas, in order: one per send, then `done`. */
  function Events(deltas: seq<string>, title: TitleField): (r: seq<Payload>)
    ensures |r| == |SentTexts(deltas)| + 1 && r[|r| - 1] == DoneEvent(title)
  {
    ContentEvents(SentTexts(deltas), title) + [DoneEvent(title)]
  }

  lemma RunSnoc(deltas: seq<string>, i: int, st: State)
    requires 0 <= i < |deltas| && Run(deltas[..i]) == st
    ensures Run(deltas[..i + 1]) == Step(st, deltas[i])
  {
    assert deltas[..i + 1][..i] == deltas[..i];
  }

  lemma ContentEventsAppend(a: seq<string>, b: seq<string>, title: TitleField)
    ensures ContentEvents(a + b, title) == ContentEvents(a, title) + ContentEvents(b, title)
  {
  }

  lemma ContentFramesSnoc(sent: seq<string>, text: string, title: TitleField)
    ensures Frames(ContentEvents(sent + [text], title)) == Frames(ContentEvents(sent, title)) + [Frame(ContentEvent(text, title))]
  {
    ContentEventsAppend(sent, [text], title);
    FramesAppend(ContentEvents(sent, title), [ContentEvent(text, title)]);
  }

  lemma EventsFrames(deltas: seq<string>, title: TitleField, st: State)
    requires Run(deltas) == st
    ensures Frames(Events(deltas, title))
         == Frames(ContentEvents(st.sent, title)) + Frames(ContentEvents(Remainder(st.buffer), title)) + [Frame(DoneEvent(title))]
  {
    ContentEventsAppend(st.sent, Remainder(st.buffer), title);
    FramesAppend(ContentEvents(st.sent + Remainder(st.buffer), title), [DoneEvent(title)]);
    FramesAppend(ContentEvents(st.sent, title), ContentEvents(Remainder(st.buffer), title));
  }

  /** Writes the buffer as a `{content, title}` frame. */
  method WriteContent(res: Response, buffer: string, title: TitleField)
    requires !res.ended
    modifies res
    ensures res.body == old(res.body) + [Frame(ContentEvent(buffer, title))]
    ensures res.statusCode == old(res.statusCode) && res.headers == old(res.headers) && !res.ended
  {
    res.Write(Frame(Payload(Some(buffer), false, title)));
  }

  /**
   * The `for await` loop of `handleStream`: moves each delta into the buffer and sends the
   * buffer when it is due; returns the handler's variables after the last delta.
   */
  method Rechunk(deltas: seq<string>, title: TitleField, res: Response) returns (buffer: string, fullContent: string, ghost sent: seq<string>)
    requires !res.ended
    modifies res
    ensures Run(deltas) == State(buffer, fullContent, sent)
    ensures res.body == old(res.body) + Frames(ContentEvents(sent, title))
    ensures res.statusCode == old(res.statusCode) && res.headers == old(res.headers) && !res.ended
  {
    fullContent := "";
    buffer := "";
    sent := [];
    var i := 0;
    while i < |deltas|
      invariant 0 <= i <= |deltas|
      invariant Run(deltas[..i]) == State(buffer, fullContent, sent)
      invariant res.body == old(res.body) + Frames(ContentEvents(sent, title))
      invariant !res.ended
      invariant res.statusCode == old(res.statusCode) && res.headers == old(res.headers)
    {
      var content := deltas[i];
      ghost var before := State(buffer, fullContent, sent);
      if content != "" {
        fullContent := fullContent + content;
        buffer := buffer + content;
        if ShouldFlush(buffer, content) {
          WriteContent(res, buffer, title);
          ContentFramesSnoc(sent, buffer, title);
          AppendAssoc(old(res.body), Frames(ContentEvents(sent, title)), [Frame(ContentEvent(buffer, title))]);
          sent := sent + [buffer];
          buffer := "";
        }
      }
      RunSnoc(deltas, i, before);
      assert Run(deltas[..i + 1]) == State(buffer, fullContent, sent);
      i := i + 1;
    }
    assert deltas[..i] == deltas;
  }

  /** The end of `handleStream`: sends the remaining buffer if any, then `{done: true, title}`. */
  method Finish(buffer: string, title: TitleField, res: Response)
    requires !res.ended
    modifies res
    ensures res.body == old(res.body) + Frames(ContentEvents(Remainder(buffer), title)) + [Frame(DoneEvent(title))]
    ensures res.ended
    ensures res.statusCode == old(res.statusCode) && res.headers == old(res.headers)
  {
    if buffer != "" {
      WriteContent(res, buffer, title);
      assert ContentEvents(Remainder(buffer), title) == [ContentEvent(buffer, title)];
      assert Frames([ContentEvent(buffer, title)]) == [Frame(ContentEvent(buffer, title))];
    } else {
      assert ContentEvents(Remainder(buffer), title) == [];
    }
    res.Write(Frame(Payload(None, true, title)));
    res.End();
  }

  /** `handleStream(stream, res, title)`: writes one frame per event, then ends the response. */
  method HandleStream(deltas: seq<string>, title: TitleField, res: Response)
    requires !res.ended
    modifies res
    ensures res.body == old(res.body) + Frames(Events(deltas, title))
    ensures res.ended
    ensures res.statusCode == old(res.statusCode) && res.headers == old(res.headers)
  {
    var buffer, fullContent, sent := Rechunk(deltas, title, res);
    ghost var st := State(buffer, fullContent, sent);
    ghost var a, b := Frames(ContentEvents(sent, title)), Frames(ContentEvents(Remainder(buffer), title));
    ghost var d := [Frame(DoneEvent(title))];
    Finish(buffer, title, res);
    EventsFrames(deltas, title, st);
    AppendAssoc(old(res.body) + a, b, d);
    AppendAssoc(old(res.body), a, b + d);
    AppendAssoc(a, b, d);
  }

  // ---------------------------------------------------------------------------------------
  // Properties of the policy

  /** What holds of the handler's variables between deltas. */
  predicate Reachable(st: State) {
    && JsLength(st.buffer) < 5
    && !HasPunctuation(st.buffer)
    && (forall i :: 0 <= i < |st.sent| ==> st.sent[i] != "")
    && (forall i :: 0 <= i < |st.sent| ==> JsLength(st.sent[i]) >= 5 || HasPunctuation(st.sent[i]))
    && Concat(st.sent) + st.buffer == st.fullContent
  }

  /** Punctuation in a concatenation comes from one of its two parts. */
  lemma PunctuationOfAppend(a: string, b: string)
    ensures HasPunctuation(a + b) <==> HasPunctuation(a) || HasPunctuation(b)
  {
    if HasPunctuation(a + b) {
      var i :| 0 <= i < |a + b| && (a + b)[i] in Punctuation;
      if i >= |a| {
        assert b[i - |a|] == (a + b)[i];
      }
    }
    if HasPunctuation(a) {
      var i :| 0 <= i < |a| && a[i] in Punctuation;
      assert (a + b)[i] == a[i];
    }
    if HasPunctuation(b) {
      var i :| 0 <= i < |b| && b[i] in Punctuation;
      assert (a + b)[|a| + i] == b[i];
    }
  }

  /** Each step keeps the handler's variables `Reachable`. */
  lemma StepReachable(st: State, content: string)
    requires Reachable(st)
    ensures Reachable(Step(st, content))
  {
    if content != "" {
      var b := st.buffer + content;
      PunctuationOfAppend(st.buffer, content);
      if ShouldFlush(b, content) {
        var r := State("", st.fullContent + content, st.sent + [b]);
        assert Step(st, content) == r;
        ConcatAppend(st.sent, [b]);
        assert Concat([b]) == b;
      } else {
        assert Step(st, content) == State(b, st.fullContent + content, st.sent);
      }
    }
  }

  /**
   * Every state the handler reaches: the buffer held back is shorter than 5 code units and holds
   * no punctuation, each send is non-empty and has 5 code units or punctuation, and the sends
   * followed by the buffer are exactly the text received.
   */
  lemma {:induction false} RunReachable(deltas: seq<string>)
    ensures Reachable(Run(deltas))
  {
    if deltas != [] {
      RunReachable(deltas[..|deltas| - 1]);
      StepReachable(Run(deltas[..|deltas| - 1]), deltas[|deltas| - 1]);
    }
  }

  /**
   * In every reachable state testing the delta for punctuation, as the source does, is the same
   * as testing the whole buffer: the buffer held back never has any.
   */
  lemma FlushTestsBuffer(deltas: seq<string>, content: string)
    ensures var b := Run(deltas).buffer + content;
      ShouldFlush(b, content) <==> JsLength(b) >= 5 || HasPunctuation(b)
  {
    RunReachable(deltas);
    PunctuationOfAppend(Run(deltas).buffer, content);
  }

  /** All the text received is kept in `fullContent`. */
  lemma {:induction false} RunFullContent(deltas: seq<string>)
    ensures Run(deltas).fullContent == Concat(deltas)
  {
    if deltas != [] {
      var n := |deltas|;
      RunFullContent(deltas[..n - 1]);
      ConcatAppend(deltas[..n - 1], [deltas[n - 1]]);
      assert deltas[..n - 1] + [deltas[n - 1]] == deltas;
    }
  }

  /** Text is neither lost nor duplicated: the sends spell out the deltas, and `fullContent`. */
  lemma SentTextsSpellDeltas(deltas: seq<string>)
    ensures Concat(SentTexts(deltas)) == Concat(deltas) == Run(deltas).fullContent
  {
    var st := Run(deltas);
    RunReachable(deltas);
    RunFullContent(deltas);
    ConcatAppend(st.sent, Remainder(st.buffer));
    if st.buffer != "" {
      assert Concat([st.buffer]) == st.buffer;
    }
  }

  /** No send is empty, and every send but the last has 5 code units or punctuation. */
  lemma SentTextsAreDue(deltas: seq<string>)
    ensures var ts := SentTexts(deltas);
      && (forall i :: 0 <= i < |ts| ==> ts[i] != "")
      && (forall i :: 0 <= i < |ts| - 1 ==> JsLength(ts[i]) >= 5 || HasPunctuation(ts[i]))
  {
    RunReachable(deltas);
  }

  /**
   * The events are non-empty content events followed by exactly one `done`, which comes last,
   * and every one of them carries the same title.
   */
  lemma EventsShape(deltas: seq<string>, title: TitleField)
    ensures var es := Events(deltas, title);
      && es != [] && es[|es| - 1] == DoneEvent(title)
      && (forall i :: 0 <= i < |es| ==> es[i].title == title)
      && (forall i :: 0 <= i < |es| - 1 ==>
            !es[i].done && es[i].content.Some? && es[i].content.value != "")
  {
    SentTextsAreDue(deltas);
  }

  /** A delta without content has no effect, wherever it stands among the others. */
  lemma {:induction false} EmptyDeltasIgnored(before: seq<string>, after: seq<string>)
    ensures Run(before + [""] + after) == Run(before + after)
  {
    EmptyDeltaAtEnds(before);
    RunSameSuffix(before + [""], before, after);
  }

  /** Two delta sequences that end in the same state still do after the same further deltas. */
  lemma {:induction false} RunSameSuffix(p: seq<string>, q: seq<string>, s: seq<string>)
    requires Run(p) == Run(q)
    ensures Run(p + s) == Run(q + s)
    decreases |s|
  {
    if s == [] {
      assert p + s == p && q + s == q;
    } else {
      var t, d := s[..|s| - 1], s[|s| - 1];
      RunSameSuffix(p, q, t);
      assert p + s == (p + t) + [d] && q + s == (q + t) + [d] by { assert s == t + [d]; }
      RunPush(p + t, d);
      RunPush(q + t, d);
    }
  }

  /** One more delta is one more step of the fold. */
  lemma RunPush(deltas: seq<string>, d: string)
    ensures Run(deltas + [d]) == Step(Run(deltas), d)
  {
    assert (deltas + [d])[..|deltas|] == deltas;
  }

  /** A delta without content at either end has no effect. */
  lemma {:induction false} EmptyDeltaAtEnds(deltas: seq<string>)
    ensures Run(deltas + [""]) == Run(deltas)
    ensures Run([""] + deltas) == Run(deltas)
  {
    assert (deltas + [""])[..|deltas|] == deltas;
    if deltas != [] {
      var n, x := |deltas|, [""] + deltas;
      assert x[..n] == [""] + deltas[..n - 1] && x[n] == deltas[n - 1];
      EmptyDeltaAtEnds(deltas[..n - 1]);
      assert Run(x) == Step(Run(x[..n]), x[n]);
    } else {
      assert [""] + deltas == [""];
      assert [""][..0] == [];
    }
  }

  /** A delta that leaves the buffer short of 5 code units and holds no punctuation is kept back. */
  lemma HeldBack(st: State, content: string)
    requires content != "" && JsLength(st.buffer + content) < 5 && !HasPunctuation(content)
    ensures Step(st, content) == State(st.buffer + content, st.fullContent + content, st.sent)
  {
  }

  /** A delta that brings the buffer to 5 code units sends it. */
  lemma SentOnLength(st: State, content: string)
    requires content != "" && JsLength(st.buffer + content) >= 5
    ensures Step(st, content) == State("", st.fullContent + content, st.sent + [st.buffer + content])
  {
  }

  /**
   * Short deltas are held back until 5 code units have gathered: a first delta under 5 code
   * units without punctuation is sent together with the next one once they reach 5, as
   * `["He", "llo"]` sends `Hello`.
   */
  lemma ShortDeltasGathered(first: string, second: string)
    requires first != "" && second != "" && !HasPunctuation(first)
    requires JsLength(first) < 5 <= JsLength(first + second)
    ensures SentTexts([first, second]) == [first + second]
  {
    var d1, d := [first], [first, second];
    assert d1[..0] == [] && d[..1] == d1;
    assert "" + first == first;
    HeldBack(Start, first);
    SentOnLength(State(first, first, []), second);
    assert Run(d1) == State(first, first, []);
  }

  /**
   * `length` counts a character outside the Basic Multilingual Plane twice: three emoji already
   * reach 5 code units, so `["🎉🎉🎉", "ab"]` sends the emoji, then `ab`.
   */
  lemma AstralCharactersCountTwice()
    ensures SentTexts(["🎉🎉🎉", "ab"]) == ["🎉🎉🎉", "ab"]
  {
    var c := '🎉';
    var e := [c, c, c];
    var d1, d := [e], [e, "ab"];
    assert d1[..0] == [] && d[..1] == d1;
    assert "" + e == e && "" + "ab" == "ab";
    assert JsLength(e) == 6 by {
      assert Units(c) == 2;
      JsLengthCons(c, []);
      assert [c] + [] == [c] && [c] + [c] == [c, c] && [c] + [c, c] == e;
      JsLengthCons(c, [c]);
      JsLengthCons(c, [c, c]);
    }
    SentOnLength(Start, e);
    assert !HasPunctuation("ab");
    HeldBack(State("", e, [e]), "ab");
    assert Run(d1) == State("", e, [e]);
  }
}
