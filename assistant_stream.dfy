/**
 * The assistant's stream re-chunker (backend/assistant.js, `handleStream`): model deltas are
 * gathered in a buffer that is sent, cleaned up, once it ends a sentence or reaches 50
 * UTF-16 code units, and never twice in a row with the same raw text.
 */
module AssistantStream {
  import opened Wrappers
  import opened Text
  import opened Json
  import opened Http

  /** The characters of the class `[.!?]`. */
  predicate IsSentenceEnd(c: char) {
    c == '.' || c == '!' || c == '?'
  }

  // ---------------------------------------------------------------------------------------
  // Clean-up: collapse white space, space the sentence ends, trim

  /** At `i`, white space is a plain space not followed by more white space. */
  predicate SpacedAt(s: string, i: int)
    requires 0 <= i < |s|
  {
    IsSpace(s[i]) ==> s[i] == ' ' && (i + 1 < |s| ==> !IsSpace(s[i + 1]))
  }

  /** Every white-space character is a plain space and none follows another. */
  predicate Spaced(s: string) {
    forall i :: 0 <= i < |s| ==> SpacedAt(s, i)
  }

  /** At `i`, a sentence end is followed by a space. */
  predicate SpaceAfterEndAt(s: string, i: int)
    requires 0 <= i < |s|
  {
    IsSentenceEnd(s[i]) ==> i + 1 < |s| && s[i + 1] == ' '
  }

  /** Every sentence end is followed by a space. */
  predicate EndsSpaced(s: string) {
    forall i :: 0 <= i < |s| ==> SpaceAfterEndAt(s, i)
  }

  /** Every sentence end is followed by a space, except possibly as the last character. */
  predicate PunctSpaced(s: string) {
    forall i :: 0 <= i < |s| - 1 ==> SpaceAfterEndAt(s, i)
  }

  /** What the clean-up produces: trimmed, single plain spaces, a space after each sentence end. */
  predicate IsClean(s: string) {
    IsTrimmed(s) && Spaced(s) && PunctSpaced(s)
  }

  /** Each run of white space becomes one space (the first `replace`). */
  function CollapseSpaces(s: string): (r: string)
    ensures |r| == 0 <==> |s| == 0
    ensures s != [] && IsSpace(s[0]) ==> r[0] == ' '
    ensures s != [] && !IsSpace(s[0]) ==> r[0] == s[0]
    decreases |s|
  {
    if s == [] then []
    else if IsSpace(s[0]) then [' '] + CollapseSpaces(TrimStart(s[1..]))
    else [s[0]] + CollapseSpaces(s[1..])
  }

  /** Each sentence end, with the white space after it, becomes the sentence end and one space (the second `replace`). */
  function SpaceSentences(s: string): (r: string)
    ensures |r| == 0 <==> |s| == 0
    ensures s != [] ==> r[0] == s[0]
    decreases |s|
  {
    if s == [] then []
    else if IsSentenceEnd(s[0]) then [s[0], ' '] + SpaceSentences(TrimStart(s[1..]))
    else [s[0]] + SpaceSentences(s[1..])
  }

  /** Collapsing white space keeps every other character, in order. */
  lemma {:induction false} CollapseKeepsText(s: string)
    ensures NonSpace(CollapseSpaces(s)) == NonSpace(s)
    decreases |s|
  {
    if s != [] {
      var t := s[1..];
      if IsSpace(s[0]) {
        var u := TrimStart(t);
        CollapseKeepsText(u);
        NonSpaceTrim(t);
        NonSpaceSingle(' ');
        NonSpaceAppend([' '], CollapseSpaces(u));
      } else {
        CollapseKeepsText(t);
        NonSpaceSingle(s[0]);
        NonSpaceAppend([s[0]], CollapseSpaces(t));
      }
    }
  }

  /** Spacing the sentence ends keeps every other character, in order. */
  lemma {:induction false} SpaceSentencesKeepsText(s: string)
    ensures NonSpace(SpaceSentences(s)) == NonSpace(s)
    decreases |s|, 1
  {
    if s != [] {
      var t := s[1..];
      if IsSentenceEnd(s[0]) {
        SpaceSentencesKeepsTextAfterEnd(s);
      } else {
        assert SpaceSentences(s) == [s[0]] + SpaceSentences(t);
        SpaceSentencesKeepsText(t);
        NonSpaceSingle(s[0]);
        NonSpaceAppend([s[0]], SpaceSentences(t));
      }
    }
  }

  lemma {:induction false} SpaceSentencesKeepsTextAfterEnd(s: string)
    requires s != [] && IsSentenceEnd(s[0])
    ensures NonSpace(SpaceSentences(s)) == NonSpace(s)
    decreases |s|, 0
  {
    var t := s[1..];
    var u := TrimStart(t);
    var rest := SpaceSentences(u);
    assert NonSpace(rest) == NonSpace(t) by {
      SpaceSentencesKeepsText(u);
      NonSpaceTrim(t);
    }
    assert s == [s[0]] + t;
    assert SpaceSentences(s) == [s[0], ' '] + rest;
    NonSpaceRespaced(s[0], t, rest);
  }

  /** The clean-up applied to a buffer before it is sent; `trim` comes last. */
  function Clean(s: string): (r: string)
    ensures IsTrimmed(r)
  {
    Trim(SpaceSentences(CollapseSpaces(s)))
  }

  /** The clean-up changes nothing but white space. */
  lemma CleanKeepsText(s: string)
    ensures NonSpace(Clean(s)) == NonSpace(s)
  {
    var c := CollapseSpaces(s);
    CollapseKeepsText(s);
    SpaceSentencesKeepsText(c);
    NonSpaceTrim(SpaceSentences(c));
  }

  lemma SpacedSlice(s: string, a: nat, b: nat, t: string)
    requires Spaced(s) && a <= b <= |s| && t == s[a..b]
    ensures Spaced(t)
  {
    forall i | 0 <= i < b - a
      ensures SpacedAt(t, i)
    {
      assert SpacedAt(s, a + i);
      assert t[i] == s[a + i];
      if i + 1 < b - a {
        assert t[i + 1] == s[a + i + 1];
      }
    }
  }

  lemma SpacedSuffix(s: string, k: nat)
    requires Spaced(s) && k <= |s|
    ensures Spaced(s[k..])
  {
    SpacedSlice(s, k, |s|, s[k..]);
  }

  lemma PunctSpacedSlice(s: string, a: nat, b: nat, t: string)
    requires a <= b <= |s| && t == s[a..b]
    requires EndsSpaced(s)
    ensures PunctSpaced(t)
  {
    forall i | 0 <= i < b - a - 1
      ensures SpaceAfterEndAt(t, i)
    {
      assert SpaceAfterEndAt(s, a + i);
      assert t[i] == s[a + i] && t[i + 1] == s[a + i + 1];
    }
  }

  /** Two `Spaced` strings stay `Spaced` when joined, unless white space meets white space. */
  lemma SpacedConcat(a: string, b: string)
    requires Spaced(a) && Spaced(b)
    requires a != [] && b != [] && IsSpace(a[|a| - 1]) ==> !IsSpace(b[0])
    ensures Spaced(a + b)
  {
    forall i | 0 <= i < |a + b|
      ensures SpacedAt(a + b, i)
    {
      if i < |a| {
        assert SpacedAt(a, i);
      } else {
        assert SpacedAt(b, i - |a|);
      }
    }
  }

  /** Joining two strings whose sentence ends are all followed by a space keeps that property. */
  lemma SpaceAfterEndConcat(a: string, b: string)
    requires EndsSpaced(a) && EndsSpaced(b)
    ensures EndsSpaced(a + b)
  {
    forall i | 0 <= i < |a + b|
      ensures SpaceAfterEndAt(a + b, i)
    {
      if i < |a| {
        assert SpaceAfterEndAt(a, i);
      } else {
        assert SpaceAfterEndAt(b, i - |a|);
      }
    }
  }

  /** Collapsing leaves single plain spaces. */
  lemma {:induction false} CollapseSpaced(s: string)
    ensures Spaced(CollapseSpaces(s))
    decreases |s|
  {
    if s != [] {
      var head := if IsSpace(s[0]) then [' '] else [s[0]];
      var t := if IsSpace(s[0]) then TrimStart(s[1..]) else s[1..];
      CollapseSpaced(t);
      assert SpacedAt(head, 0);
      SpacedConcat(head, CollapseSpaces(t));
    }
  }

  /** Sentence spacing follows every sentence end by a space. */
  lemma {:induction false} SpaceSentencesEnds(s: string)
    ensures EndsSpaced(SpaceSentences(s))
    decreases |s|
  {
    if s != [] {
      var head := if IsSentenceEnd(s[0]) then [s[0], ' '] else [s[0]];
      var t := if IsSentenceEnd(s[0]) then TrimStart(s[1..]) else s[1..];
      SpaceSentencesEnds(t);
      assert SpaceAfterEndAt(head, 0);
      assert |head| == 2 ==> SpaceAfterEndAt(head, 1);
      SpaceAfterEndConcat(head, SpaceSentences(t));
    }
  }

  /** Sentence spacing keeps a string `Spaced`. */
  lemma {:induction false} SpaceSentencesSpaced(s: string)
    requires Spaced(s)
    ensures Spaced(SpaceSentences(s))
    decreases |s|
  {
    if s != [] {
      SpacedSuffix(s, 1);
      if IsSentenceEnd(s[0]) {
        var t := TrimStart(s[1..]);
        SpacedSuffix(s[1..], |s[1..]| - |t|);
        SpaceSentencesSpaced(t);
        assert SpacedAt([s[0], ' '], 0) && SpacedAt([s[0], ' '], 1);
        SpacedConcat([s[0], ' '], SpaceSentences(t));
      } else {
        SpaceSentencesSpaced(s[1..]);
        assert SpacedAt(s, 0);
        assert SpacedAt([s[0]], 0);
        SpacedConcat([s[0]], SpaceSentences(s[1..]));
      }
    }
  }

  /** The clean-up always produces clean text. */
  lemma CleanIsClean(s: string)
    ensures IsClean(Clean(s))
  {
    var c := CollapseSpaces(s);
    var p := SpaceSentences(c);
    assert Spaced(p) && EndsSpaced(p) by {
      CollapseSpaced(s);
      SpaceSentencesSpaced(c);
      SpaceSentencesEnds(c);
    }
    TrimKeepsClean(p);
  }

  /** Trimming a `Spaced` string whose sentence ends are followed by spaces leaves clean text. */
  lemma TrimKeepsClean(p: string)
    requires Spaced(p) && EndsSpaced(p)
    ensures IsClean(Trim(p))
  {
    var r := Trim(p);
    var a := TrimIsSlice(p);
    CleanSlice(p, a, a + |r|, r);
  }

  lemma CleanSlice(p: string, a: nat, b: nat, t: string)
    requires Spaced(p) && EndsSpaced(p) && a <= b <= |p| && t == p[a..b] && IsTrimmed(t)
    ensures IsClean(t)
  {
    SpacedSlice(p, a, b, t);
    PunctSpacedSlice(p, a, b, t);
  }

  /** Collapsing white space leaves a `Spaced` string unchanged. */
  lemma {:induction false} CollapseOfSpaced(s: string)
    requires Spaced(s)
    ensures CollapseSpaces(s) == s
    decreases |s|
  {
    if s != [] {
      SpacedSuffix(s, 1);
      assert SpacedAt(s, 0);
      if IsSpace(s[0]) {
        TrimStartOfUnpadded(s[1..]);
      }
      CollapseOfSpaced(s[1..]);
      assert [s[0]] + s[1..] == s;
    }
  }

  lemma PunctSpacedSuffix(s: string, k: nat)
    requires PunctSpaced(s) && k <= |s|
    ensures PunctSpaced(s[k..])
  {
    forall i | 0 <= i < |s| - k - 1
      ensures SpaceAfterEndAt(s[k..], i)
    {
      assert SpaceAfterEndAt(s, k + i);
      assert s[k..][i] == s[k + i] && s[k..][i + 1] == s[k + i + 1];
    }
  }

  /** On text already spaced after its sentence ends, sentence spacing adds at most a final space. */
  lemma {:induction false} SpaceSentencesOfSpaced(s: string)
    requires Spaced(s) && PunctSpaced(s)
    ensures SpaceSentences(s) == s + (if s != [] && IsSentenceEnd(s[|s| - 1]) then " " else "")
    decreases |s|
  {
    if s == [] {
    } else if !IsSentenceEnd(s[0]) {
      SpaceSentencesAfterOther(s);
    } else if |s| == 1 {
      TrimStartOfUnpadded(s[1..]);
      assert SpaceSentences(s) == [s[0], ' '] + SpaceSentences([]);
    } else {
      SpaceSentencesAfterEnd(s);
    }
  }

  /** The step of `SpaceSentencesOfSpaced` for text that does not start with a sentence end. */
  lemma {:induction false} SpaceSentencesAfterOther(s: string)
    requires Spaced(s) && PunctSpaced(s)
    requires s != [] && !IsSentenceEnd(s[0])
    ensures SpaceSentences(s) == s + (if IsSentenceEnd(s[|s| - 1]) then " " else "")
    decreases |s|, 0
  {
    var u := s[1..];
    SpacedSuffix(s, 1);
    PunctSpacedSuffix(s, 1);
    SpaceSentencesOfSpaced(u);
    var post := if IsSentenceEnd(s[|s| - 1]) then " " else "";
    if u != [] {
      assert u[|u| - 1] == s[|s| - 1];
    }
    assert SpaceSentences(u) == u + post;
    calc {
      SpaceSentences(s);
      [s[0]] + SpaceSentences(u);
      [s[0]] + (u + post);
      ([s[0]] + u) + post;
      { assert s == [s[0]] + u; }
      s + post;
    }
  }

  /** The step of `SpaceSentencesOfSpaced` for a sentence end followed by more text. */
  lemma {:induction false} SpaceSentencesAfterEnd(s: string)
    requires Spaced(s) && PunctSpaced(s)
    requires |s| >= 2 && IsSentenceEnd(s[0])
    ensures SpaceSentences(s) == s + (if IsSentenceEnd(s[|s| - 1]) then " " else "")
    decreases |s|, 0
  {
    var u := s[2..];
    assert SpaceAfterEndAt(s, 0);
    assert SpacedAt(s, 1);
    SpacedSuffix(s, 2);
    PunctSpacedSuffix(s, 2);
    assert s[1..] == [' '] + u;
    TrimStartOfUnpadded(u);
    assert TrimStart(s[1..]) == u;
    SpaceSentencesOfSpaced(u);
    var post := if IsSentenceEnd(s[|s| - 1]) then " " else "";
    if u != [] {
      assert u[|u| - 1] == s[|s| - 1];
      assert SpaceSentences(u) == u + post;
    } else {
      assert s[|s| - 1] == ' ';
      assert SpaceSentences(u) == u + post;
    }
    calc {
      SpaceSentences(s);
      [s[0], ' '] + SpaceSentences(u);
      [s[0], ' '] + (u + post);
      ([s[0], ' '] + u) + post;
      { assert s == [s[0], ' '] + u; }
      s + post;
    }
  }

  /** Cleaning clean text changes nothing. */
  lemma CleanOfClean(s: string)
    requires IsClean(s)
    ensures Clean(s) == s
  {
    CollapseOfSpaced(s);
    SpaceSentencesOfSpaced(s);
    var post := if s != [] && IsSentenceEnd(s[|s| - 1]) then " " else "";
    assert SpaceSentences(CollapseSpaces(s)) == "" + s + post;
    TrimOfPadded("", s, post);
  }

  /** The clean-up is idempotent. */
  lemma CleanIdempotent(s: string)
    ensures Clean(Clean(s)) == Clean(s)
  {
    CleanIsClean(s);
    CleanOfClean(Clean(s));
  }

  /** `/[.!?]\s*$/.test(s)`: the last character that is not white space ends a sentence. */
  predicate EndsSentence(s: string) {
    var t := TrimEnd(s);
    t != [] && IsSentenceEnd(t[|t| - 1])
  }

  /** A sentence end followed only by white space (what the regular expression looks for). */
  predicate EndAt(s: string, k: int) {
    0 <= k < |s| && IsSentenceEnd(s[k]) && AllSpace(s[k + 1..])
  }

  lemma EndsSentenceHasEnd(s: string)
    requires EndsSentence(s)
    ensures EndAt(s, |TrimEnd(s)| - 1)
  {
    var t := TrimEnd(s);
    assert AllSpace(s[|t|..]) by {
      forall i | 0 <= i < |s| - |t|
        ensures IsSpace(s[|t|..][i])
      {
        assert s[|t|..][i] == s[|t| + i];
      }
    }
  }

  lemma EndAtEndsSentence(s: string, k: int)
    requires EndAt(s, k)
    ensures EndsSentence(s)
  {
    assert s == s[..k + 1] + s[k + 1..];
    TrimEndSkipsSpace(s[..k + 1], s[k + 1..]);
    TrimEndOfUnpadded(s[..k + 1]);
  }

  /** `EndsSentence` matches the regular expression: a sentence end followed only by white space. */
  lemma EndsSentenceMatches(s: string)
    ensures EndsSentence(s) <==> exists k :: EndAt(s, k)
  {
    if EndsSentence(s) {
      EndsSentenceHasEnd(s);
    }
    if exists k :: EndAt(s, k) {
      var k :| EndAt(s, k);
      EndAtEndsSentence(s, k);
    }
  }

  // ---------------------------------------------------------------------------------------
  // The re-chunking policy

  /** The handler's variables: the unsent text, the raw text of the last send, and every raw send so far. */
  datatype State = State(buffer: string, lastSent: string, sent: seq<string>)

  const Start := State("", "", [])

  /** The buffer is new and ends a sentence or has reached 50 UTF-16 code units (`length`). */
  predicate ShouldFlush(buffer: string, lastSent: string)
    ensures ShouldFlush(buffer, lastSent) ==> buffer != "" && buffer != lastSent
    ensures buffer != lastSent && JsLength(buffer) >= 50 ==> ShouldFlush(buffer, lastSent)
  {
    buffer != lastSent && (JsLength(buffer) >= 50 || EndsSentence(buffer))
  }

  /** One delta of the model stream (`''` when it has no content): it sends at most once, appending. */
  function Step(st: State, delta: string): (r: State)
    ensures delta == "" ==> r == st
    ensures |st.sent| <= |r.sent| <= |st.sent| + 1
  {
    if delta == "" then st
    else
      var b := st.buffer + delta;
      if ShouldFlush(b, st.lastSent) then State("", b, st.sent + [b])
      else st.(buffer := b)
  }

  /** The state after the given deltas: at most one send per delta. */
  function Run(deltas: seq<string>): (r: State)
    ensures |r.sent| <= |deltas|
  {
    if deltas == [] then Start else Step(Run(deltas[..|deltas| - 1]), deltas[|deltas| - 1])
  }

  /** The remaining buffer, when it is non-empty and not the text sent last. */
  function Remainder(st: State): seq<string> {
    if st.buffer != "" && st.buffer != st.lastSent then [st.buffer] else []
  }

  function ContentEvent(raw: string): Payload {
    Payload(Some(Clean(raw)), false, NoTitle)
  }

  const DoneEvent := Payload(None, true, NoTitle)

  function ContentEvents(raws: seq<string>): (ps: seq<Payload>)
    ensures |ps| == |raws|
    ensures forall i :: 0 <= i < |raws| ==> ps[i] == ContentEvent(raws[i])
  {
    seq(|raws|, i requires 0 <= i < |raws| => ContentEvent(raws[i]))
  }

  /** The raw texts the handler sends for the given deltas, in order. */
  function SentTexts(deltas: seq<string>): seq<string> {
    var st := Run(deltas);
    st.sent + Remainder(st)
  }

  /** The objects the handler writes for the given deltas, in order: one per send, then `done`. */
  function Events(deltas: seq<string>): (r: seq<Payload>)
    ensures |r| == |SentTexts(deltas)| + 1 && r[|r| - 1] == DoneEvent
  {
    ContentEvents(SentTexts(deltas)) + [DoneEvent]
  }

  lemma RunSnoc(deltas: seq<string>, i: int, st: State)
    requires 0 <= i < |deltas| && Run(deltas[..i]) == st
    ensures Run(deltas[..i + 1]) == Step(st, deltas[i])
  {
    assert deltas[..i + 1][..i] == deltas[..i];
  }

  lemma ContentEventsAppend(a: seq<string>, b: seq<string>)
    ensures ContentEvents(a + b) == ContentEvents(a) + ContentEvents(b)
  {
    forall i | 0 <= i < |a| + |b|
      ensures ContentEvents(a + b)[i] == (ContentEvents(a) + ContentEvents(b))[i]
    {
      ContentEventsAppendAt(a, b, i);
    }
  }

  lemma ContentEventsAppendAt(a: seq<string>, b: seq<string>, i: int)
    requires 0 <= i < |a| + |b|
    ensures ContentEvents(a + b)[i] == (ContentEvents(a) + ContentEvents(b))[i]
  {
    if i < |a| {
      assert (a + b)[i] == a[i];
    } else {
      assert (a + b)[i] == b[i - |a|];
    }
  }

  lemma ContentEventsSnoc(sent: seq<string>, raw: string)
    ensures ContentEvents(sent + [raw]) == ContentEvents(sent) + [ContentEvent(raw)]
  {
    ContentEventsAppend(sent, [raw]);
    ContentEventsSingle(raw);
  }

  lemma ContentEventsSingle(raw: string)
    ensures ContentEvents([raw]) == [ContentEvent(raw)]
  {
    assert ContentEvents([raw])[0] == ContentEvent([raw][0]);
  }

  lemma ContentFramesSnoc(sent: seq<string>, raw: string)
    ensures Frames(ContentEvents(sent + [raw])) == Frames(ContentEvents(sent)) + [Frame(ContentEvent(raw))]
  {
    ContentEventsSnoc(sent, raw);
    FramesSnoc(ContentEvents(sent), ContentEvent(raw));
  }

  lemma EventsFrames(deltas: seq<string>, st: State)
    requires Run(deltas) == st
    ensures Frames(Events(deltas))
         == Frames(ContentEvents(st.sent)) + Frames(ContentEvents(Remainder(State(st.buffer, st.lastSent, [])))) + [Frame(DoneEvent)]
  {
    assert Remainder(State(st.buffer, st.lastSent, [])) == Remainder(st);
    ContentEventsAppend(st.sent, Remainder(st));
    FramesAppend(ContentEvents(st.sent + Remainder(st)), [DoneEvent]);
    FramesAppend(ContentEvents(st.sent), ContentEvents(Remainder(st)));
  }

  /** Cleans up a raw buffer and writes it as a `{content}` frame. */
  method WriteContent(res: Response, raw: string)
    requires !res.ended
    modifies res
    ensures res.body == old(res.body) + [Frame(ContentEvent(raw))]
    ensures res.statusCode == old(res.statusCode) && res.headers == old(res.headers) && !res.ended
  {
    var cleanContent := Clean(raw);
    res.Write(Frame(Payload(Some(cleanContent), false, NoTitle)));
  }

  /**
   * The `for await` loop of `handleStream`: moves each delta into the buffer and sends the
   * buffer when it is due; returns the handler's variables after the last delta.
   */
  method Rechunk(deltas: seq<string>, res: Response) returns (buffer: string, lastSentContent: string, ghost sent: seq<string>)
    requires !res.ended
    modifies res
    ensures Run(deltas) == State(buffer, lastSentContent, sent)
    ensures res.body == old(res.body) + Frames(ContentEvents(sent))
    ensures res.statusCode == old(res.statusCode) && res.headers == old(res.headers) && !res.ended
  {
    buffer := "";
    lastSentContent := "";
    sent := [];
    var i := 0;
    while i < |deltas|
      invariant 0 <= i <= |deltas|
      invariant Run(deltas[..i]) == State(buffer, lastSentContent, sent)
      invariant res.body == old(res.body) + Frames(ContentEvents(sent))
      invariant !res.ended
      invariant res.statusCode == old(res.statusCode) && res.headers == old(res.headers)
    {
      var content := deltas[i];
      ghost var before := State(buffer, lastSentContent, sent);
      if content != "" {
        buffer := buffer + content;
        if ShouldFlush(buffer, lastSentContent) {
          WriteContent(res, buffer);
          ContentFramesSnoc(sent, buffer);
          AppendAssoc(old(res.body), Frames(ContentEvents(sent)), [Frame(ContentEvent(buffer))]);
          lastSentContent := buffer;
          sent := sent + [buffer];
          buffer := "";
        }
      }
      RunSnoc(deltas, i, before);
      assert Run(deltas[..i + 1]) == State(buffer, lastSentContent, sent);
      i := i + 1;
    }
    assert deltas[..i] == deltas;
  }

  lemma RemainderFrames(buffer: string, lastSent: string)
    ensures Frames(ContentEvents(Remainder(State(buffer, lastSent, []))))
         == if buffer != "" && buffer != lastSent then [Frame(ContentEvent(buffer))] else []
  {
    if buffer != "" && buffer != lastSent {
      assert ContentEvents([buffer]) == [ContentEvent(buffer)];
    }
  }

  /** The end of `handleStream`: sends the remaining buffer unless it repeats the last send, then `done`. */
  method Finish(buffer: string, lastSentContent: string, res: Response)
    requires !res.ended
    modifies res
    ensures res.body == old(res.body) + Frames(ContentEvents(Remainder(State(buffer, lastSentContent, [])))) + [Frame(DoneEvent)]
    ensures res.ended
    ensures res.statusCode == old(res.statusCode) && res.headers == old(res.headers)
  {
    RemainderFrames(buffer, lastSentContent);
    if buffer != "" && buffer != lastSentContent {
      WriteContent(res, buffer);
    }
    res.Write(Frame(DoneEvent));
    res.End();
  }

  /** `handleStream(stream, res)`: writes one frame per event, then ends the response. */
  method HandleStream(deltas: seq<string>, res: Response)
    requires !res.ended
    modifies res
    ensures res.body == old(res.body) + Frames(Events(deltas))
    ensures res.ended
    ensures res.statusCode == old(res.statusCode) && res.headers == old(res.headers)
  {
    var buffer, lastSentContent, sent := Rechunk(deltas, res);
    ghost var st := State(buffer, lastSentContent, sent);
    ghost var a, b := Frames(ContentEvents(sent)), Frames(ContentEvents(Remainder(State(buffer, lastSentContent, []))));
    Finish(buffer, lastSentContent, res);
    EventsFrames(deltas, st);
    AppendAssoc(old(res.body) + a, b, [Frame(DoneEvent)]);
    AppendAssoc(old(res.body), a, b + [Frame(DoneEvent)]);
    AppendAssoc(a, b, [Frame(DoneEvent)]);
  }

  // ---------------------------------------------------------------------------------------
  // Properties of the policy

  /** What holds of the handler's variables between deltas. */
  predicate Reachable(st: State) {
    && st.lastSent == (if st.sent == [] then "" else st.sent[|st.sent| - 1])
    && (forall i :: 0 <= i < |st.sent| ==> st.sent[i] != "")
    && (forall i :: 0 <= i < |st.sent| - 1 ==> st.sent[i] != st.sent[i + 1])
    && (forall i :: 0 <= i < |st.sent| ==> JsLength(st.sent[i]) >= 50 || EndsSentence(st.sent[i]))
    && !ShouldFlush(st.buffer, st.lastSent)
  }

  /**
   * Every state the handler reaches: each send is non-empty, long enough or a finished
   * sentence, differs from the send before it, and the buffer held back is not yet due.
   */
  lemma {:induction false} RunReachable(deltas: seq<string>)
    ensures Reachable(Run(deltas))
  {
    if deltas != [] {
      RunReachable(deltas[..|deltas| - 1]);
      StepReachable(Run(deltas[..|deltas| - 1]), deltas[|deltas| - 1]);
    }
  }

  /** Each step keeps the handler's variables `Reachable`. */
  lemma StepReachable(st: State, delta: string)
    requires Reachable(st)
    ensures Reachable(Step(st, delta))
  {
    if delta != "" {
      var b := st.buffer + delta;
      if ShouldFlush(b, st.lastSent) {
        assert Step(st, delta) == State("", b, st.sent + [b]);
        FlushKeepsReachable(st, b);
      } else {
        assert Step(st, delta) == st.(buffer := b);
      }
    }
  }

  /** Sending a due buffer keeps the handler's variables `Reachable`. */
  lemma FlushKeepsReachable(st: State, b: string)
    requires Reachable(st) && b != "" && ShouldFlush(b, st.lastSent)
    ensures Reachable(State("", b, st.sent + [b]))
  {
    var r := State("", b, st.sent + [b]);
    assert r.sent[|r.sent| - 1] == b;
    assert forall i :: 0 <= i < |st.sent| ==> r.sent[i] == st.sent[i];
    assert !ShouldFlush("", b);
  }

  /** One step moves the delta into the buffer or, with the buffer, into a send. */
  lemma StepConservesText(st: State, delta: string)
    ensures Concat(Step(st, delta).sent) + Step(st, delta).buffer == Concat(st.sent) + st.buffer + delta
  {
    if delta != "" {
      ConcatAppend(st.sent, [st.buffer + delta]);
    }
  }

  /** Text is neither lost nor duplicated: sends followed by the buffer spell out the deltas. */
  lemma {:induction false} RunConservesText(deltas: seq<string>)
    ensures Concat(Run(deltas).sent) + Run(deltas).buffer == Concat(deltas)
  {
    if deltas != [] {
      var n := |deltas|;
      RunConservesText(deltas[..n - 1]);
      StepConservesText(Run(deltas[..n - 1]), deltas[n - 1]);
      ConcatAppend(deltas[..n - 1], [deltas[n - 1]]);
      assert deltas[..n - 1] + [deltas[n - 1]] == deltas;
    }
  }

  /**
   * The raw texts sent spell out the deltas, except that a final buffer equal to the text sent
   * just before it is dropped.
   */
  lemma SentTextsSpellDeltas(deltas: seq<string>)
    ensures var st := Run(deltas);
      || Concat(SentTexts(deltas)) == Concat(deltas)
      || (st.buffer != "" && st.buffer == st.lastSent
          && Concat(SentTexts(deltas)) + st.buffer == Concat(deltas))
  {
    var st := Run(deltas);
    RunConservesText(deltas);
    ConcatAppend(st.sent, Remainder(st));
    if Remainder(st) != [] {
      assert Concat([st.buffer]) == st.buffer;
    }
  }

  /** Only the buffer left at the end can be shorter than 50 code units without ending a sentence. */
  lemma SentTextsAreDue(deltas: seq<string>)
    ensures var ts := SentTexts(deltas);
      forall i :: 0 <= i < |ts| - 1 ==> JsLength(ts[i]) >= 50 || EndsSentence(ts[i])
  {
    RunReachable(deltas);
  }

  /** No two consecutive sends carry the same raw text, and none is empty. */
  lemma SentTextsNoRepeat(deltas: seq<string>)
    ensures var ts := SentTexts(deltas);
      && (forall i :: 0 <= i < |ts| ==> ts[i] != "")
      && (forall i :: 0 <= i < |ts| - 1 ==> ts[i] != ts[i + 1])
  {
    RunReachable(deltas);
  }

  /** The events are clean content events followed by exactly one `done`, which comes last. */
  lemma EventsShape(deltas: seq<string>)
    ensures var es := Events(deltas);
      && es != [] && es[|es| - 1] == DoneEvent
      && (forall i :: 0 <= i < |es| - 1 ==>
            !es[i].done && es[i].content.Some? && IsClean(es[i].content.value))
  {
    var ts := SentTexts(deltas);
    forall i | 0 <= i < |ts|
      ensures IsClean(ContentEvents(ts)[i].content.value)
    {
      CleanIsClean(ts[i]);
    }
  }

  /** A delta without content has no effect, wherever it stands among the others. */
  lemma {:induction false} EmptyDeltasIgnored(before: seq<string>, after: seq<string>)
    ensures Run(before + [""] + after) == Run(before + after)
  {
    EmptyDeltaAtEnds(before);
    RunSameSuffix(before + [""], before, after);
  }

  /** Two delta sequences that end in the same state still do after the same further deltas. */
  lemma {:induction false} RunSameSuffix(p: seq<string>, q: seq<string>, s: seq<string>)
    requires Run(p) == Run(q)
    ensures Run(p + s) == Run(q + s)
    decreases |s|
  {
    if s == [] {
      assert p + s == p && q + s == q;
    } else {
      var t, d := s[..|s| - 1], s[|s| - 1];
      RunSameSuffix(p, q, t);
      assert p + s == (p + t) + [d] && q + s == (q + t) + [d] by { assert s == t + [d]; }
      RunPush(p + t, d);
      RunPush(q + t, d);
    }
  }

  /** One more delta is one more step of the fold. */
  lemma RunPush(deltas: seq<string>, d: string)
    ensures Run(deltas + [d]) == Step(Run(deltas), d)
  {
    assert (deltas + [d])[..|deltas|] == deltas;
  }

  /** A delta without content at either end has no effect. */
  lemma {:induction false} EmptyDeltaAtEnds(deltas: seq<string>)
    ensures Run(deltas + [""]) == Run(deltas)
    ensures Run([""] + deltas) == Run(deltas)
  {
    assert (deltas + [""])[..|deltas|] == deltas;
    if deltas != [] {
      var n, x := |deltas|, [""] + deltas;
      assert x[..n] == [""] + deltas[..n - 1] && x[n] == deltas[n - 1];
      EmptyDeltaAtEnds(deltas[..n - 1]);
      assert Run(x) == Step(Run(x[..n]), x[n]);
    } else {
      assert [""] + deltas == [""];
      assert [""][..0] == [];
    }
  }

  /**
   * The guard against sending the same text twice cannot tell a resend from a model that says
   * the same sentence twice: as the final buffer, the second one is dropped, so
   * `["Hi.", "Hi."]` sends `Hi.` only once.
   */
  lemma RepeatedFinalSentenceDropped()
    ensures SentTexts(["Hi.", "Hi."]) == ["Hi."]
  {
    var d := ["Hi.", "Hi."];
    assert d[..1] == ["Hi."] && d[..1][..0] == [];
    assert EndsSentence("Hi.");
    assert ShouldFlush("" + "Hi.", "");
    assert Step(Start, "Hi.") == State("", "Hi.", ["Hi."]);
    assert Run(["Hi."]) == State("", "Hi.", ["Hi."]);
  }
}
