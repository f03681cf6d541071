/**
 * The assistant chat panel (src/components/AiAssistantChat.tsx): a send appends the user's
 * message and an empty assistant message, each streamed object's text is appended to that
 * last message, and a failed send removes every message left empty.
 */
module AssistantChat {
  import opened Wrappers
  import opened Text
  import opened Json
  import opened Client

  /** `chunk.content || ''`. */
  function ChunkText(chunk: Payload): string {
    chunk.content.GetOr("")
  }

  /** The texts of the chunks, concatenated in order. */
  function ChunksText(chunks: seq<Payload>): string {
    if chunks == [] then "" else ChunksText(chunks[..|chunks| - 1]) + ChunkText(chunks[|chunks| - 1])
  }

  /**
   * The chunk callback: the last message takes the chunk's text at its end when it is the
   * assistant's; the other messages, the roles and the length stay as they are.
   */
  function AppendChunk(conversation: seq<Message>, chunk: Payload): (r: seq<Message>)
    requires conversation != []
    ensures |r| == |conversation| && r[..|r| - 1] == conversation[..|conversation| - 1]
    ensures r[|r| - 1].role == conversation[|conversation| - 1].role
    ensures conversation[|conversation| - 1].role == Assistant ==>
      r[|r| - 1].content == conversation[|conversation| - 1].content + ChunkText(chunk)
    ensures conversation[|conversation| - 1].role == User ==> r == conversation
  {
    var last := conversation[|conversation| - 1];
    if last.role == Assistant then
      conversation[..|conversation| - 1] + [last.(content := last.content + ChunkText(chunk))]
    else conversation
  }

  /** The conversation after the callback has run for each chunk in turn. */
  function AppendChunks(conversation: seq<Message>, chunks: seq<Payload>): (r: seq<Message>)
    requires conversation != []
    ensures |r| == |conversation|
  {
    if chunks == [] then conversation
    else AppendChunk(AppendChunks(conversation, chunks[..|chunks| - 1]), chunks[|chunks| - 1])
  }

  /** `prev.filter(msg => msg.content !== '')`: the messages with text, in their order. */
  function RemoveEmpty(conversation: seq<Message>): (r: seq<Message>)
    ensures |r| <= |conversation|
    ensures forall i :: 0 <= i < |r| ==> r[i].content != "" && r[i] in conversation
    ensures forall i :: 0 <= i < |conversation| && conversation[i].content != "" ==> conversation[i] in r
  {
    if conversation == [] then []
    else
      var rest := RemoveEmpty(conversation[1..]);
      assert forall m :: m in conversation[1..] ==> m in conversation;
      if conversation[0].content == "" then rest else [conversation[0]] + rest
  }

  /** The filter keeps each message with text as many times as it occurs, and no empty one. */
  lemma {:induction false} RemoveEmptyCounts(conversation: seq<Message>)
    ensures forall m :: multiset(RemoveEmpty(conversation))[m] == if m.content == "" then 0 else multiset(conversation)[m]
  {
    if conversation != [] {
      RemoveEmptyCounts(conversation[1..]);
      assert conversation == [conversation[0]] + conversation[1..];
    }
  }

  /** The filter works message by message, so the messages kept stay in their order. */
  lemma {:induction false} RemoveEmptyAppend(a: seq<Message>, b: seq<Message>)
    ensures RemoveEmpty(a + b) == RemoveEmpty(a) + RemoveEmpty(b)
  {
    if a != [] {
      assert (a + b)[1..] == a[1..] + b;
      RemoveEmptyAppend(a[1..], b);
    } else {
      assert a + b == b;
    }
  }

  /**
   * The whole send of a non-blank query: the user's message and the placeholder are appended,
   * the chunks stream into the placeholder, and on failure the empty messages are removed.
   */
  function AfterSend(conversation: seq<Message>, query: string, chunks: seq<Payload>, failed: bool): seq<Message> {
    var streamed := AppendChunks(conversation + [Message(User, query), Message(Assistant, "")], chunks);
    if failed then RemoveEmpty(streamed) else streamed
  }

  lemma SnocTwice<T>(s: seq<T>, a: T, b: T)
    ensures s + [a] + [b] == s + [a, b]
  {
  }

  /** The placeholder ends up holding the chunks' texts in order; everything before it is untouched. */
  lemma {:induction false} PlaceholderCollectsChunks(conversation: seq<Message>, chunks: seq<Payload>)
    ensures AppendChunks(conversation + [Message(Assistant, "")], chunks)
         == conversation + [Message(Assistant, ChunksText(chunks))]
  {
    if chunks != [] {
      var n := |chunks|;
      PlaceholderCollectsChunks(conversation, chunks[..n - 1]);
      var before := conversation + [Message(Assistant, ChunksText(chunks[..n - 1]))];
      assert before[..|before| - 1] == conversation;
      assert chunks[..n - 1] + [chunks[n - 1]] == chunks;
    }
  }

  /** A successful send leaves the earlier messages, the user's message and one assistant message with all the streamed text. */
  lemma SendCollectsReply(conversation: seq<Message>, query: string, chunks: seq<Payload>)
    ensures AfterSend(conversation, query, chunks, false)
         == conversation + [Message(User, query), Message(Assistant, ChunksText(chunks))]
  {
    PlaceholderCollectsChunks(conversation + [Message(User, query)], chunks);
    assert conversation + [Message(User, query), Message(Assistant, "")]
        == (conversation + [Message(User, query)]) + [Message(Assistant, "")];
  }

  /**
   * A send that fails before any chunk arrives removes the placeholder and keeps the user's
   * message, which has text, as the last message.
   */
  lemma FailedSendKeepsQuestion(conversation: seq<Message>, query: string)
    requires !IsBlank(query)
    ensures var r := AfterSend(conversation, query, [], true);
      && r != [] && r[|r| - 1] == Message(User, query)
      && forall i :: 0 <= i < |r| ==> r[i].content != ""
  {
    var question := Message(User, query);
    var asked := conversation + [question];
    assert AfterSend(conversation, query, [], true) == RemoveEmpty(asked + [Message(Assistant, "")]) by {
      SnocTwice(conversation, question, Message(Assistant, ""));
    }
    RemoveEmptySnoc(asked, Message(Assistant, ""));
    assert question.content != "";
    RemoveEmptySnoc(conversation, question);
  }

  /** Filtering a conversation one message longer filters that message on its own. */
  lemma {:induction false} RemoveEmptySnoc(conversation: seq<Message>, m: Message)
    ensures RemoveEmpty(conversation + [m]) == RemoveEmpty(conversation) + (if m.content == "" then [] else [m])
  {
    if conversation == [] {
      assert conversation + [m] == [m];
      assert [m][1..] == [];
    } else {
      assert (conversation + [m])[1..] == conversation[1..] + [m];
      RemoveEmptySnoc(conversation[1..], m);
    }
  }

  /** The panel's state. */
  class Chat {
    var query: string
    var loading: bool
    var conversation: seq<Message>

    /** The panel opens with the assistant's greeting. */
    constructor (initialMessage: string)
      ensures query == "" && !loading && conversation == [Message(Assistant, initialMessage)]
    {
      query := "";
      loading := false;
      conversation := [Message(Assistant, initialMessage)];
    }

    /** The `onChunk` callback. */
    method OnChunk(chunk: Payload)
      requires conversation != []
      modifies this
      ensures conversation == AppendChunk(old(conversation), chunk)
      ensures query == old(query) && loading == old(loading)
    {
      var newConversation := conversation;
      var lastMessage := newConversation[|newConversation| - 1];
      if lastMessage.role == Assistant {
        lastMessage := lastMessage.(content := lastMessage.content + chunk.content.GetOr(""));
        newConversation := newConversation[|newConversation| - 1 := lastMessage];
      }
      conversation := newConversation;
    }

    /** Runs the callback on each chunk in the order `sendMessageToAssistant` reads them. */
    method StreamChunks(chunks: seq<Payload>)
      requires conversation != []
      modifies this
      ensures conversation == AppendChunks(old(conversation), chunks)
      ensures query == old(query) && loading == old(loading)
    {
      ghost var start := conversation;
      var i := 0;
      while i < |chunks|
        invariant 0 <= i <= |chunks|
        invariant conversation == AppendChunks(start, chunks[..i])
        invariant query == old(query) && loading == old(loading)
      {
        OnChunk(chunks[i]);
        assert chunks[..i + 1][..i] == chunks[..i];
        i := i + 1;
      }
      assert chunks[..i] == chunks;
    }

    /**
     * `sendMessage`, given what `sendMessageToAssistant` passes to `onChunk` and whether it
     * throws; returns the conversation posted, `None` when a blank query makes it return early.
     */
    method SendMessage(chunks: seq<Payload>, failed: bool) returns (posted: Option<seq<Message>>)
      modifies this
      ensures IsBlank(old(query)) ==> posted == None && conversation == old(conversation) && query == old(query) && loading == old(loading)
      ensures !IsBlank(old(query)) ==>
        && posted == Some(old(conversation) + [Message(User, old(query))])
        && conversation == AfterSend(old(conversation), old(query), chunks, failed)
        && query == "" && !loading
    {
      if IsBlank(query) {
        return None;
      }
      ghost var before, question := conversation, query;
      var withQuestion := PlaceQuestion();
      posted := Some(withQuestion);
      StreamChunks(chunks);
      assert conversation == AppendChunks(before + [Message(User, question), Message(Assistant, "")], chunks);
      if failed {
        conversation := RemoveEmpty(conversation);
      }
      loading := false;
    }

    /**
     * The part of `sendMessage` before the request: the question, then the empty placeholder,
     * appended, the input cleared and `loading` set; returns the conversation with the question.
     */
    method PlaceQuestion() returns (withQuestion: seq<Message>)
      modifies this
      ensures withQuestion == old(conversation) + [Message(User, old(query))]
      ensures conversation == old(conversation) + [Message(User, old(query)), Message(Assistant, "")]
      ensures query == "" && loading
    {
      ghost var before := conversation;
      var userMessage := Message(User, query);
      withQuestion := conversation + [userMessage];
      query := "";
      loading := true;
      conversation := withQuestion + [Message(Assistant, "")];
      SnocTwice(before, userMessage, Message(Assistant, ""));
    }
  }
}
