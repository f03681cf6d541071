/**
 * The two routes of backend/server.js: `/api/assistant`, which answers with one JSON object,
 * and `/api/chatbot`, which sets the event-stream headers and streams the model's reply with
 * the chatbot re-chunking policy. Calls to the model are parameters: the assistant's
 * completion, the title completion, and the streamed reply (`Upstream`).
 */
module Server {
  import opened Wrappers
  import opened Text
  import opened Json
  import opened Http
  import opened ChatbotStream
  import AssistantStream

  /** Everything a finished handler leaves in the response. */
  datatype Reply = Reply(status: int, headers: seq<(string, string)>, body: seq<string>, ended: bool)

  function ReplyOf(res: Response): Reply
    reads res
  {
    Reply(res.statusCode, res.headers, res.body, res.ended)
  }

  /** The response as Express hands it to a route. */
  predicate Untouched(res: Response)
    reads res
  {
    res.statusCode == 200 && res.headers == [] && res.body == [] && !res.ended
  }

  /** The 500 reply of both routes' `catch`. */
  function ErrorReply(headers: seq<(string, string)>): Reply {
    Reply(500, headers, [ErrorBody()], true)
  }

  // ---------------------------------------------------------------------------------------
  // /api/assistant

  /** `{ role: 'assistant', content }`. */
  function AssistantObject(content: string): Object {
    [("role", Str("assistant")), ("content", Str(content))]
  }

  /** The route's reply: the completion's text as one JSON object, or the error object when the completion throws. */
  function AssistantReply(completion: Option<string>): Reply {
    match completion
    case Some(content) => Reply(200, [], [Stringify(AssistantObject(content))], true)
    case None => ErrorReply([])
  }

  /** `app.post('/api/assistant', ...)`. */
  method AssistantRoute(completion: Option<string>, res: Response)
    requires Untouched(res)
    modifies res
    ensures ReplyOf(res) == AssistantReply(completion)
  {
    match completion
    case Some(content) =>
      var sent := res.SendJson(200, Stringify([("role", Str("assistant")), ("content", Str(content))]));
    case None =>
      var sent := res.SendJson(500, ErrorBody());
  }

  /**
   * The assistant route always ends its response with exactly one JSON text and no line break;
   * on success it reads back as the assistant's message, on failure as the error object.
   */
  lemma AssistantReplyIsOneObject(completion: Option<string>)
    ensures var r := AssistantReply(completion);
      && r.ended && |r.body| == 1 && '\n' !in r.body[0]
      && (r.status == 200 <==> completion.Some?)
      && (completion.Some? ==> ParseObject(r.body[0]) == Some(AssistantObject(completion.value)))
      && (completion.None? ==> r.status == 500 && ParseObject(r.body[0]) == Some([("error", Str("Failed to get AI response"))]))
  {
    match completion
    case Some(c) =>
      StringifyRoundTrip(AssistantObject(c));
      StringifyHasNoNewline(AssistantObject(c));
    case None =>
      StringifyRoundTrip([("error", Str("Failed to get AI response"))]);
      StringifyHasNoNewline([("error", Str("Failed to get AI response"))]);
  }

  // ---------------------------------------------------------------------------------------
  // /api/chatbot

  /**
   * The streamed completion: whether the call opens a stream at all, the delta contents it
   * yields (`''` for a chunk without content), and whether it throws after the last of them.
   */
  datatype Upstream = Upstream(opens: bool, deltas: seq<string>, fails: bool)

  const EventStreamHeaders: seq<(string, string)> :=
    [("Content-Type", "text/event-stream"), ("Cache-Control", "no-cache"), ("Connection", "keep-alive")]

  /**
   * The objects the route writes once the stream is open: all of `Events` when the stream ends
   * normally, only the content frames sent so far when it throws.
   */
  function StreamedEvents(deltas: seq<string>, fails: bool, title: TitleField): seq<Payload> {
    if fails then ContentEvents(Run(deltas).sent, title) else Events(deltas, title)
  }

  /**
   * The route's reply. A failure before anything is written becomes the 500 error object (after
   * the event-stream headers when they were already set); a failure once a frame has gone out
   * makes the `catch`'s `res.status(500).json` throw in turn. The model takes the process to
   * survive that rejection, so the response is left open; a runtime that ends the process or
   * closes the connection instead is not modelled.
   */
  function ChatbotReply(messages: seq<ChatMessage>, isNewConversation: bool, complete: string -> Option<string>, up: Upstream): Reply {
    match TitleFor(messages, isNewConversation, complete)
    case None => ErrorReply([])
    case Some(title) =>
      if !up.opens || (up.fails && Run(up.deltas).sent == []) then ErrorReply(EventStreamHeaders)
      else Reply(200, EventStreamHeaders, Frames(StreamedEvents(up.deltas, up.fails, title)), !up.fails)
  }

  /** `res.setHeader` for the three event-stream headers, in order. */
  method SetEventStreamHeaders(res: Response)
    requires Untouched(res)
    modifies res
    ensures res.headers == EventStreamHeaders
    ensures res.statusCode == 200 && res.body == [] && !res.ended
  {
    res.SetHeader("Content-Type", "text/event-stream");
    res.SetHeader("Cache-Control", "no-cache");
    res.SetHeader("Connection", "keep-alive");
  }

  /** `app.post('/api/chatbot', ...)`. */
  method ChatbotRoute(messages: seq<ChatMessage>, isNewConversation: bool, complete: string -> Option<string>, up: Upstream, res: Response)
    requires Untouched(res)
    modifies res
    ensures ReplyOf(res) == ChatbotReply(messages, isNewConversation, complete, up)
  {
    var title := TitleFor(messages, isNewConversation, complete);
    if title.None? {
      var sent := res.SendJson(500, ErrorBody());
      assert ReplyOf(res) == ErrorReply([]);
      return;
    }
    SetEventStreamHeaders(res);
    if !up.opens {
      var sent := res.SendJson(500, ErrorBody());
      assert ReplyOf(res) == ErrorReply(EventStreamHeaders);
      return;
    }
    if !up.fails {
      HandleStream(up.deltas, title.value, res);
      EmptyAppend(Frames(Events(up.deltas, title.value)));
      assert ReplyOf(res) == Reply(200, EventStreamHeaders, Frames(StreamedEvents(up.deltas, false, title.value)), true);
    } else {
      ghost var before := res.body;
      var buffer, fullContent, written := Rechunk(up.deltas, title.value, res);
      ghost var frames := Frames(ContentEvents(written, title.value));
      assert res.body == before + frames;
      EmptyAppend(frames);
      assert res.body == [] <==> written == [];
      var sent := res.SendJson(500, ErrorBody());
      if written == [] {
        assert ReplyOf(res) == ErrorReply(EventStreamHeaders);
      } else {
        assert ReplyOf(res) == Reply(200, EventStreamHeaders, Frames(StreamedEvents(up.deltas, true, title.value)), false);
      }
    }
  }

  /** The error object is sent exactly when something fails before the first frame is written. */
  lemma ChatbotErrorBeforeFirstFrame(messages: seq<ChatMessage>, isNewConversation: bool, complete: string -> Option<string>, up: Upstream)
    ensures var title := TitleFor(messages, isNewConversation, complete);
      ChatbotReply(messages, isNewConversation, complete, up).status == 500
      <==> title.None? || !up.opens || (up.fails && Run(up.deltas).sent == [])
    ensures ChatbotReply(messages, isNewConversation, complete, up).status == 500
      ==> ChatbotReply(messages, isNewConversation, complete, up).body == [ErrorBody()]
  {
  }

  /**
   * With the process surviving the `catch`'s own throw, the response is left open exactly when
   * the stream throws after at least one frame went out; then nothing marks the end of the
   * answer for the client.
   */
  lemma ChatbotOpenAfterLateFailure(messages: seq<ChatMessage>, isNewConversation: bool, complete: string -> Option<string>, up: Upstream)
    ensures !ChatbotReply(messages, isNewConversation, complete, up).ended
      <==> TitleFor(messages, isNewConversation, complete).Some? && up.opens && up.fails && Run(up.deltas).sent != []
  {
  }

  /**
   * Every frame of the chatbot route is written after the three event-stream headers and carries
   * the conversation's title; no frame but the last is `done`, and the last is `done` exactly
   * when the response is ended.
   */
  lemma ChatbotFramesAfterHeaders(messages: seq<ChatMessage>, isNewConversation: bool, complete: string -> Option<string>, up: Upstream)
    ensures var r := ChatbotReply(messages, isNewConversation, complete, up);
      r.status == 200 ==> r.headers == EventStreamHeaders && TitleFor(messages, isNewConversation, complete).Some?
    ensures var r := ChatbotReply(messages, isNewConversation, complete, up);
      var title := TitleFor(messages, isNewConversation, complete);
      r.status == 200 && title.Some? ==>
        var es := StreamedEvents(up.deltas, up.fails, title.value);
        && r.body == Frames(es)
        && (forall i :: 0 <= i < |es| ==> es[i].title == title.value)
        && (forall i :: 0 <= i < |es| - 1 ==> !es[i].done)
        && (r.ended <==> es != [] && es[|es| - 1].done)
  {
    var title := TitleFor(messages, isNewConversation, complete);
    if title.Some? && !up.fails {
      EventsShape(up.deltas, title.value);
    }
  }

  // ---------------------------------------------------------------------------------------
  // /api/assistant as an event stream

  /**
   * The assistant route as backend/assistant.js's `handleStream` serves it: the event-stream
   * headers, then the frames of the sentence re-chunker, with the same error handling as the
   * chatbot route. backend/server.js answers the same path with one JSON object instead.
   */
  function AssistantStreamReply(up: Upstream): Reply {
    if !up.opens || (up.fails && AssistantStream.Run(up.deltas).sent == []) then ErrorReply(EventStreamHeaders)
    else if up.fails then Reply(200, EventStreamHeaders, Frames(AssistantStream.ContentEvents(AssistantStream.Run(up.deltas).sent)), false)
    else Reply(200, EventStreamHeaders, Frames(AssistantStream.Events(up.deltas)), true)
  }

  method AssistantStreamRoute(up: Upstream, res: Response)
    requires Untouched(res)
    modifies res
    ensures ReplyOf(res) == AssistantStreamReply(up)
  {
    SetEventStreamHeaders(res);
    if !up.opens {
      var sent := res.SendJson(500, ErrorBody());
      assert ReplyOf(res) == ErrorReply(EventStreamHeaders);
      return;
    }
    if !up.fails {
      AssistantStream.HandleStream(up.deltas, res);
      EmptyAppend(Frames(AssistantStream.Events(up.deltas)));
    } else {
      ghost var before := res.body;
      var buffer, lastSentContent, written := AssistantStream.Rechunk(up.deltas, res);
      ghost var frames := Frames(AssistantStream.ContentEvents(written));
      assert res.body == before + frames;
      EmptyAppend(frames);
      assert res.body == [] <==> written == [];
      var sent := res.SendJson(500, ErrorBody());
      if written == [] {
        assert ReplyOf(res) == ErrorReply(EventStreamHeaders);
      }
    }
  }
}
