/**
 * What the client receives from each route: the reply's body, cut into reads anywhere, read by
 * the client's event-stream reader.
 */
module Integration {
  import opened Wrappers
  import opened Text
  import opened Json
  import opened Http
  import opened Client
  import opened Server
  import ChatbotStream
  import AssistantStream
  import AssistantChat

  lemma ConcatSingle(s: string)
    ensures Concat([s]) == s
  {
  }

  /**
   * backend/server.js answers `/api/assistant` with one JSON object, which the client reads as
   * an event stream: it hands nothing to `onChunk`, whatever the model replied.
   */
  lemma AssistantJsonDeliversNothing(completion: Option<string>, chunks: seq<string>)
    requires Concat(chunks) == Concat(AssistantReply(completion).body)
    ensures Delivered(Concat(chunks)) == []
  {
    match completion
    case Some(c) =>
      ConcatSingle(Stringify(AssistantObject(c)));
      JsonBodyDeliversNothing(AssistantObject(c));
    case None =>
      ConcatSingle(ErrorBody());
      JsonBodyDeliversNothing([("error", Str("Failed to get AI response"))]);
  }

  /** A concrete reply: the model answers `Hi.` and the client receives no object at all. */
  lemma AssistantAnswerLost()
    ensures AssistantReply(Some("Hi.")).status == 200
    ensures Delivered(Concat(AssistantReply(Some("Hi.")).body)) == []
  {
    AssistantJsonDeliversNothing(Some("Hi."), AssistantReply(Some("Hi.")).body);
  }

  /**
   * Served as an event stream, the assistant route delivers every event it writes: on a
   * successful stream the client receives exactly the re-chunker's `Events`, ending with `done`.
   */
  lemma AssistantStreamDelivered(up: Upstream, chunks: seq<string>)
    requires AssistantStreamReply(up).status == 200
    requires Concat(chunks) == Concat(AssistantStreamReply(up).body)
    ensures AssistantStreamReply(up).ended ==> Delivered(Concat(chunks)) == AssistantStream.Events(up.deltas)
    ensures !AssistantStreamReply(up).ended ==>
      Delivered(Concat(chunks)) == AssistantStream.ContentEvents(AssistantStream.Run(up.deltas).sent)
  {
    if up.fails {
      FramesDelivered(AssistantStream.ContentEvents(AssistantStream.Run(up.deltas).sent));
    } else {
      FramesDelivered(AssistantStream.Events(up.deltas));
    }
  }

  /**
   * The chatbot route's frames reach the client as written, however the body is cut into
   * reads: each object with the conversation's title, and `done` last when the stream ended.
   */
  lemma ChatbotDelivered(messages: seq<ChatbotStream.ChatMessage>, isNewConversation: bool, complete: string -> Option<string>, up: Upstream, chunks: seq<string>)
    requires ChatbotReply(messages, isNewConversation, complete, up).status == 200
    requires Concat(chunks) == Concat(ChatbotReply(messages, isNewConversation, complete, up).body)
    ensures var title := ChatbotStream.TitleFor(messages, isNewConversation, complete);
      title.Some? && Delivered(Concat(chunks)) == StreamedEvents(up.deltas, up.fails, title.value)
  {
    var title := ChatbotStream.TitleFor(messages, isNewConversation, complete);
    FramesDelivered(StreamedEvents(up.deltas, up.fails, title.value));
  }

  /** Chunks whose contents agree with the raw texts up to white space, one for one, spell them out up to white space. */
  lemma {:induction false} ChunksKeepText(es: seq<Payload>, raws: seq<string>)
    requires |es| == |raws|
    requires forall i :: 0 <= i < |es| ==> es[i].content.Some? && NonSpace(es[i].content.value) == NonSpace(raws[i])
    ensures NonSpace(AssistantChat.ChunksText(es)) == NonSpace(Concat(raws))
    decreases |raws|
  {
    if raws != [] {
      var n := |raws|;
      ChunksKeepText(es[..n - 1], raws[..n - 1]);
      ConcatSnoc(raws, n - 1);
      assert raws[..n] == raws;
      NonSpaceJoin(AssistantChat.ChunksText(es), AssistantChat.ChunksText(es[..n - 1]), es[n - 1].content.value,
                   Concat(raws), Concat(raws[..n - 1]), raws[n - 1]);
    }
  }

  /** The page's text for the content events of the raw texts keeps their non-space text. */
  lemma ContentEventsKeepText(raws: seq<string>)
    ensures NonSpace(AssistantChat.ChunksText(AssistantStream.ContentEvents(raws))) == NonSpace(Concat(raws))
  {
    var es := AssistantStream.ContentEvents(raws);
    forall i | 0 <= i < |es|
      ensures es[i].content.Some? && NonSpace(es[i].content.value) == NonSpace(raws[i])
    {
      AssistantStream.CleanKeepsText(raws[i]);
    }
    ChunksKeepText(es, raws);
  }

  /**
   * The clean-up changes only white space: the text the assistant page builds from the events
   * is the text of the deltas up to white space, except a final buffer equal to the text sent
   * just before it, which is dropped.
   */
  lemma EventsKeepText(deltas: seq<string>)
    ensures var st, shown := AssistantStream.Run(deltas), NonSpace(AssistantChat.ChunksText(AssistantStream.Events(deltas)));
      || shown == NonSpace(Concat(deltas))
      || (st.buffer != "" && st.buffer == st.lastSent && shown + NonSpace(st.buffer) == NonSpace(Concat(deltas)))
  {
    var st := AssistantStream.Run(deltas);
    var ts := AssistantStream.SentTexts(deltas);
    var es := AssistantStream.Events(deltas);
    var body := AssistantChat.ChunksText(AssistantStream.ContentEvents(ts));
    assert AssistantChat.ChunksText(es) == body by {
      assert es[..|es| - 1] == AssistantStream.ContentEvents(ts);
      assert AssistantChat.ChunkText(es[|es| - 1]) == "";
      assert body + "" == body;
    }
    assert NonSpace(body) == NonSpace(Concat(ts)) by {
      ContentEventsKeepText(ts);
    }
    AssistantStream.SentTextsSpellDeltas(deltas);
    if Concat(ts) != Concat(deltas) {
      NonSpaceAppend(Concat(ts), st.buffer);
    }
  }
}
