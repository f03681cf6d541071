/**
 * The chatbot page (src/pages/Chatbot.tsx): a list of conversations, one of them active; a
 * send appends the user's message and an empty assistant message to the active conversation,
 * streams the reply's text into that last message and takes the last truthy title the server
 * sends. Timestamps are day numbers and new ids are parameters.
 */
module ChatbotPage {
  import opened Wrappers
  import opened Text
  import opened Json
  import opened Client
  import AssistantChat

  /** `Conversation`. */
  datatype Conversation = Conversation(id: string, title: string, messages: seq<Message>, lastUpdated: int)

  const DefaultTitle := "New Conversation"
  const FirstGreeting := "Hello! I'm Bob, your productivity assistant. How can I help you today?"
  const NewGreeting := "Hello! I'm StriveBot, your productivity assistant. How can I help you today?"

  /** JavaScript truthiness of an optional string: present and not empty. */
  predicate Truthy(s: Option<string>) {
    s.Some? && s.value != ""
  }

  /** `conversations.find(c => c.id === id)`: the first conversation with that id. */
  function Find(conversations: seq<Conversation>, id: string): (r: Option<Conversation>)
    ensures r.Some? <==> exists i :: 0 <= i < |conversations| && conversations[i].id == id
    ensures r.Some? ==> r.value in conversations && r.value.id == id
  {
    if conversations == [] then None
    else if conversations[0].id == id then Some(conversations[0])
    else
      var r := Find(conversations[1..], id);
      assert forall i :: 1 <= i < |conversations| ==> conversations[i] == conversations[1..][i - 1];
      r
  }

  // ---------------------------------------------------------------------------------------
  // updateConversation, createNewConversation, deleteConversation

  /** `updateConversation` on one conversation. */
  function UpdateOne(c: Conversation, id: string, message: Message, newTitle: Option<string>, now: int): Conversation {
    if c.id == id then
      c.(messages := c.messages + [message], lastUpdated := now, title := if Truthy(newTitle) then newTitle.value else c.title)
    else c
  }

  /**
   * `updateConversation`: every conversation with the id gains the message at its end and the
   * time; its title becomes `newTitle` when that is truthy and stays otherwise; every other
   * conversation is untouched.
   */
  function UpdateConversation(conversations: seq<Conversation>, id: string, message: Message, newTitle: Option<string>, now: int): (r: seq<Conversation>)
    ensures |r| == |conversations|
    ensures forall i :: 0 <= i < |r| ==> r[i].id == conversations[i].id
    ensures forall i :: 0 <= i < |r| && conversations[i].id != id ==> r[i] == conversations[i]
    ensures forall i :: 0 <= i < |r| && conversations[i].id == id ==>
      && r[i].messages == conversations[i].messages + [message]
      && r[i].lastUpdated == now
      && r[i].title == if Truthy(newTitle) then newTitle.value else conversations[i].title
  {
    seq(|conversations|, i requires 0 <= i < |conversations| => UpdateOne(conversations[i], id, message, newTitle, now))
  }

  /**
   * Two updates in a row append both messages in order and leave the later truthy title,
   * else the earlier one, else the title as it was.
   */
  lemma UpdateTwice(conversations: seq<Conversation>, id: string, m1: Message, t1: Option<string>, m2: Message, t2: Option<string>, now: int)
    ensures var r := UpdateConversation(UpdateConversation(conversations, id, m1, t1, now), id, m2, t2, now);
      && |r| == |conversations|
      && forall i :: 0 <= i < |r| && conversations[i].id == id ==>
           && r[i].messages == conversations[i].messages + [m1, m2]
           && r[i].title == (if Truthy(t2) then t2.value else if Truthy(t1) then t1.value else conversations[i].title)
  {
    var once := UpdateConversation(conversations, id, m1, t1, now);
    var r := UpdateConversation(once, id, m2, t2, now);
    forall i | 0 <= i < |r| && conversations[i].id == id
      ensures r[i].messages == conversations[i].messages + [m1, m2]
    {
      assert once[i].id == id;
      assert conversations[i].messages + [m1] + [m2] == conversations[i].messages + [m1, m2];
    }
  }

  /** `createNewConversation`'s conversation. */
  function NewConversation(id: string, now: int): Conversation {
    Conversation(id, DefaultTitle, [Message(Assistant, NewGreeting)], now)
  }

  /**
   * `createNewConversation`: the new conversation goes first, before all the others, and
   * becomes the active one.
   */
  function AfterCreate(conversations: seq<Conversation>, newId: string, now: int): (r: (seq<Conversation>, Option<string>))
    ensures |r.0| == |conversations| + 1 && r.0[1..] == conversations
    ensures r.1 == Some(newId) && Find(r.0, newId) == Some(NewConversation(newId, now))
  {
    ([NewConversation(newId, now)] + conversations, Some(newId))
  }

  /** `prev.filter(conv => conv.id !== id)`. */
  function WithoutId(conversations: seq<Conversation>, id: string): (r: seq<Conversation>)
    ensures forall c :: c in r <==> c in conversations && c.id != id
    ensures |r| <= |conversations|
  {
    if conversations == [] then []
    else if conversations[0].id == id then WithoutId(conversations[1..], id)
    else [conversations[0]] + WithoutId(conversations[1..], id)
  }

  /**
   * `deleteConversation` as written: when the active conversation is deleted, the new active id
   * is the first id of the list as it was before the deletion, or none when at most one
   * conversation existed.
   */
  function AfterDeleteAsWritten(conversations: seq<Conversation>, active: Option<string>, id: string): (r: (seq<Conversation>, Option<string>))
    ensures r.0 == WithoutId(conversations, id)
    ensures active != Some(id) ==> r.1 == active
    ensures active == Some(id) ==> (r.1 == None <==> |conversations| <= 1)
  {
    (WithoutId(conversations, id),
     if active == Some(id) then (if |conversations| > 1 then Some(conversations[0].id) else None) else active)
  }

  /**
   * Deleting the active conversation when it is the first of two leaves the deleted id active:
   * no remaining conversation has it, so the page shows none.
   */
  lemma DeleteFirstLeavesDeletedActive()
    ensures var a := Conversation("1", DefaultTitle, [], 0);
      var b := Conversation("2", DefaultTitle, [], 0);
      var r := AfterDeleteAsWritten([a, b], Some("1"), "1");
      r.1 == Some("1") && r.0 == [b] && Find(r.0, "1") == None
  {
    var a := Conversation("1", DefaultTitle, [], 0);
    var b := Conversation("2", DefaultTitle, [], 0);
    assert [a, b][1..] == [b];
    assert [b][1..] == [];
  }

  /** An active id that is either absent or names a conversation of the list. */
  predicate ActiveValid(conversations: seq<Conversation>, active: Option<string>) {
    active.Some? ==> Find(conversations, active.value).Some?
  }

  /**
   * `deleteConversation` as intended: when the active conversation is deleted, the first
   * remaining conversation becomes active, or none when nothing remains.
   */
  function AfterDelete(conversations: seq<Conversation>, active: Option<string>, id: string): (r: (seq<Conversation>, Option<string>))
    ensures r.0 == WithoutId(conversations, id)
    ensures active != Some(id) ==> r.1 == active
    ensures active == Some(id) ==> (r.1 == None <==> r.0 == [])
  {
    var remaining := WithoutId(conversations, id);
    (remaining, if active == Some(id) then (if remaining != [] then Some(remaining[0].id) else None) else active)
  }

  /** Deleting keeps the active id valid: it names a remaining conversation or is absent. */
  lemma DeleteKeepsActiveValid(conversations: seq<Conversation>, active: Option<string>, id: string)
    requires ActiveValid(conversations, active)
    ensures var r := AfterDelete(conversations, active, id);
      ActiveValid(r.0, r.1)
  {
    var r := AfterDelete(conversations, active, id);
    if active.Some? && active != Some(id) {
      var c := Find(conversations, active.value).value;
      assert c in r.0;
      var i :| 0 <= i < |r.0| && r.0[i] == c;
    } else if r.1.Some? {
      assert r.0[0].id == r.1.value;
    }
  }

  // ---------------------------------------------------------------------------------------
  // truncateText, formatDate

  /**
   * `truncateText`: the text itself when its `length` is within `maxLength`; otherwise as much
   * of its start as fits in `maxLength` UTF-16 code units (none for a negative bound, as
   * `substring` clamps), followed by `...`.
   */
  function TruncateText(text: string, maxLength: int): (r: string)
    ensures JsLength(text) <= maxLength ==> r == text
    ensures JsLength(text) > maxLength ==> |r| >= 3 && r[|r| - 3..] == "..."
    ensures JsLength(text) > maxLength && |r| >= 3 ==>
      var keep, kept := if maxLength < 0 then 0 else maxLength, r[..|r| - 3];
      && kept <= text && JsLength(kept) <= keep
      && (kept == text || keep < JsLength(kept) + Units(text[|kept|]))
  {
    if JsLength(text) <= maxLength then text
    else
      var keep := if maxLength < 0 then 0 else maxLength;
      var kept := JsPrefix(text, keep);
      assert (kept + "...")[..|kept|] == kept;
      kept + "..."
  }

  /** Without characters outside the Basic Multilingual Plane, a text too long is cut to exactly `maxLength` characters. */
  lemma TruncateBmp(text: string, maxLength: nat)
    requires forall i :: 0 <= i < |text| ==> text[i] as int < 0x10000
    requires |text| > maxLength
    ensures TruncateText(text, maxLength) == text[..maxLength] + "..."
  {
    JsLengthOfBmp(text);
    JsPrefixOfBmp(text, maxLength);
    assert !(JsLength(text) <= maxLength);
    assert TruncateText(text, maxLength) == JsPrefix(text, maxLength) + "...";
  }

  /** The decimal digits of a natural number. */
  function NatToString(n: nat): (r: string)
    ensures r != [] && forall i :: 0 <= i < |r| ==> '0' <= r[i] <= '9'
  {
    var d := ['0' + (n % 10) as char];
    if n < 10 then d else NatToString(n / 10) + d
  }

  /** The value of a string of decimal digits. */
  function DigitsValue(s: string): nat
    requires forall i :: 0 <= i < |s| ==> '0' <= s[i] <= '9'
  {
    if s == [] then 0 else 10 * DigitsValue(s[..|s| - 1]) + (s[|s| - 1] - '0') as nat
  }

  lemma {:induction false} DigitsOfNat(n: nat)
    ensures DigitsValue(NatToString(n)) == n
  {
    var s := NatToString(n);
    if n >= 10 {
      DigitsOfNat(n / 10);
      assert s[..|s| - 1] == NatToString(n / 10);
    }
  }

  /** `${n}` for an integer: its digits, after a minus sign when it is negative. */
  function IntToString(n: int): string {
    if n < 0 then "-" + NatToString(-n) else NatToString(n)
  }

  /** The text of an integer starts with a minus sign exactly when it is negative. */
  lemma {:induction false} SignOfIntToString(n: int)
    ensures IntToString(n) != [] && (IntToString(n)[0] == '-' <==> n < 0)
  {
  }

  /** Distinct natural numbers have distinct digits. */
  lemma NatToStringInjective(a: nat, b: nat)
    requires NatToString(a) == NatToString(b)
    ensures a == b
  {
    DigitsOfNat(a);
    DigitsOfNat(b);
  }

  lemma DropSign(t: string)
    ensures ("-" + t)[1..] == t
  {
  }

  /** Distinct integers are written differently. */
  lemma {:induction false} IntToStringInjective(m: int, n: int)
    requires IntToString(m) == IntToString(n)
    ensures m == n
  {
    SignOfIntToString(m);
    SignOfIntToString(n);
    if m < 0 {
      DropSign(NatToString(-m));
      DropSign(NatToString(-n));
      NatToStringInjective(-m, -n);
    } else {
      NatToStringInjective(m, n);
    }
  }

  /**
   * `formatDate`, given the whole days elapsed since the date and `toLocaleDateString`'s text
   * for a week or more.
   */
  function FormatDate(diffDays: int, localeDate: string): (r: string)
    ensures diffDays >= 7 ==> r == localeDate
    ensures 1 < diffDays < 7 ==> |r| > 9 && r[|r| - 9..] == " days ago"
  {
    if diffDays == 0 then "Today"
    else if diffDays == 1 then "Yesterday"
    else if diffDays < 7 then IntToString(diffDays) + " days ago"
    else localeDate
  }

  /** Under a week, distinct day differences get distinct labels and the locale text is unused. */
  lemma FormatDateDistinct(d1: int, d2: int, locale1: string, locale2: string)
    requires d1 < 7 && d2 < 7 && d1 != d2
    ensures FormatDate(d1, locale1) != FormatDate(d2, locale2)
    ensures FormatDate(d1, locale1) == FormatDate(d1, locale2)
  {
    var f1, f2 := FormatDate(d1, locale1), FormatDate(d2, locale2);
    if d1 != 0 && d1 != 1 && d2 != 0 && d2 != 1 && f1 == f2 {
      var s1, s2 := IntToString(d1), IntToString(d2);
      assert |s1| == |s2| by {
        assert |f1| == |s1| + 9 && |f2| == |s2| + 9;
      }
      assert s1 == f1[..|s1|] && s2 == f2[..|s2|];
      IntToStringInjective(d1, d2);
    } else if (d1 == 0 || d1 == 1) && d2 != 0 && d2 != 1 {
      assert f2[|f2| - 4..] == " ago";
      assert f1[|f1| - 4..] != " ago";
    } else if (d2 == 0 || d2 == 1) && d1 != 0 && d1 != 1 {
      assert f1[|f1| - 4..] == " ago";
      assert f2[|f2| - 4..] != " ago";
    }
  }

  // ---------------------------------------------------------------------------------------
  // sendMessage

  /** The last message's content replaced; a conversation without messages keeps none. */
  function SetLastContent(messages: seq<Message>, content: string): (r: seq<Message>)
    ensures |r| == |messages| && (messages != [] ==> r[..|r| - 1] == messages[..|messages| - 1])
  {
    if messages == [] then messages
    else messages[..|messages| - 1] + [messages[|messages| - 1].(content := content)]
  }

  /** A chunk's title when it is truthy. */
  function ChunkTitle(chunk: Payload): Option<string> {
    if chunk.title.Title? && chunk.title.text != "" then Some(chunk.title.text) else None
  }

  /** `newTitle` after the chunks: the last truthy title among them. */
  function LatestTitle(chunks: seq<Payload>): (r: Option<string>)
    ensures r.Some? ==> r.value != ""
  {
    if chunks == [] then None
    else match ChunkTitle(chunks[|chunks| - 1])
      case Some(t) => Some(t)
      case None => LatestTitle(chunks[..|chunks| - 1])
  }

  /** A title is taken exactly when some chunk carries a truthy one, and then it is the last such. */
  lemma {:induction false} LatestTitleIsLastTruthy(chunks: seq<Payload>)
    ensures LatestTitle(chunks) == None <==> forall k :: 0 <= k < |chunks| ==> ChunkTitle(chunks[k]) == None
    ensures LatestTitle(chunks).Some? ==>
      (exists k :: 0 <= k < |chunks| && ChunkTitle(chunks[k]) == LatestTitle(chunks) && (forall j :: k < j < |chunks| ==> ChunkTitle(chunks[j]) == None))
  {
    if chunks != [] {
      var n := |chunks|;
      var front := chunks[..n - 1];
      LatestTitleIsLastTruthy(front);
      assert forall k :: 0 <= k < n - 1 ==> front[k] == chunks[k];
      if ChunkTitle(chunks[n - 1]).None? && LatestTitle(front).Some? {
        var k :| 0 <= k < |front| && ChunkTitle(front[k]) == LatestTitle(front)
          && forall j :: k < j < |front| ==> ChunkTitle(front[j]) == None;
        assert ChunkTitle(chunks[k]) == LatestTitle(chunks);
      }
    }
  }

  /** A matching conversation while the reply streams in: the text so far and the title so far. */
  function Streamed(c: Conversation, content: string, title: Option<string>): Conversation {
    c.(messages := SetLastContent(c.messages, content), title := title.GetOr(c.title))
  }

  /** Each conversation with the id streamed, the others untouched. */
  function StreamInto(conversations: seq<Conversation>, id: string, content: string, title: Option<string>): (r: seq<Conversation>)
    ensures |r| == |conversations|
    ensures forall i :: 0 <= i < |r| ==> r[i] == if conversations[i].id == id then Streamed(conversations[i], content, title) else conversations[i]
  {
    seq(|conversations|, i requires 0 <= i < |conversations| =>
      if conversations[i].id == id then Streamed(conversations[i], content, title) else conversations[i])
  }

  /** The error cleanup: the empty messages of each conversation with the id removed. */
  function CleanUp(conversations: seq<Conversation>, id: string): (r: seq<Conversation>)
    ensures |r| == |conversations|
    ensures forall i :: 0 <= i < |r| ==> r[i] == if conversations[i].id == id then conversations[i].(messages := AssistantChat.RemoveEmpty(conversations[i].messages)) else conversations[i]
  {
    seq(|conversations|, i requires 0 <= i < |conversations| =>
      if conversations[i].id == id then conversations[i].(messages := AssistantChat.RemoveEmpty(conversations[i].messages)) else conversations[i])
  }

  /** The user's message, then the empty assistant placeholder, added to each conversation with the id. */
  function Placed(conversations: seq<Conversation>, id: string, query: string, now: int): seq<Conversation> {
    UpdateConversation(UpdateConversation(conversations, id, Message(User, query), None, now), id, Message(Assistant, ""), None, now)
  }

  /** The reply streamed into each conversation with the id, then, on failure, the empty messages removed. */
  function Replied(conversations: seq<Conversation>, id: string, chunks: seq<Payload>, failed: bool): seq<Conversation> {
    if failed then CleanUp(StreamInto(conversations, id, AssistantChat.ChunksText(chunks), LatestTitle(chunks)), id)
    else StreamInto(conversations, id, AssistantChat.ChunksText(chunks), LatestTitle(chunks))
  }

  /** The conversations after a send of `query` to the active conversation `id`. */
  function AfterSend(conversations: seq<Conversation>, id: string, query: string, chunks: seq<Payload>, failed: bool, now: int): seq<Conversation> {
    Replied(Placed(conversations, id, query, now), id, chunks, failed)
  }

  /**
   * After a successful send, the active conversation ends with the user's message and one
   * assistant message holding the chunks' texts in order; its title is the last truthy title
   * sent, or what it was; every other conversation is unchanged.
   */
  lemma SendCollectsReply(conversations: seq<Conversation>, id: string, query: string, chunks: seq<Payload>, now: int)
    ensures var r := AfterSend(conversations, id, query, chunks, false, now);
      && |r| == |conversations|
      && (forall i :: 0 <= i < |r| && conversations[i].id != id ==> r[i] == conversations[i])
      && (forall i :: 0 <= i < |r| && conversations[i].id == id ==>
        && r[i].messages == conversations[i].messages + [Message(User, query), Message(Assistant, AssistantChat.ChunksText(chunks))]
        && r[i].title == LatestTitle(chunks).GetOr(conversations[i].title)
        && r[i].lastUpdated == now)
  {
    var placed := Placed(conversations, id, query, now);
    forall i | 0 <= i < |conversations| && conversations[i].id == id
      ensures SetLastContent(placed[i].messages, AssistantChat.ChunksText(chunks))
           == conversations[i].messages + [Message(User, query), Message(Assistant, AssistantChat.ChunksText(chunks))]
    {
      var ms := conversations[i].messages + [Message(User, query)];
      assert placed[i].messages == ms + [Message(Assistant, "")];
      assert (ms + [Message(Assistant, "")])[..|ms|] == ms;
    }
  }

  /** A failed send leaves no empty message in the active conversation and touches no other. */
  lemma FailedSendCleansUp(conversations: seq<Conversation>, id: string, query: string, chunks: seq<Payload>, now: int)
    ensures var r := AfterSend(conversations, id, query, chunks, true, now);
      && |r| == |conversations|
      && (forall i :: 0 <= i < |r| && conversations[i].id != id ==> r[i] == conversations[i])
      && (forall i, j :: 0 <= i < |r| && conversations[i].id == id && 0 <= j < |r[i].messages| ==> r[i].messages[j].content != "")
  {
  }

  /** `isNewConversation`: the active conversation held only its greeting before the send. */
  function IsNew(conversations: seq<Conversation>, id: string): bool {
    var c := Find(conversations, id);
    c.Some? && |c.value.messages| == 1
  }

  /** The messages posted: the active conversation's messages before the send, then the user's. */
  function Posted(conversations: seq<Conversation>, id: string, query: string): seq<Message> {
    (match Find(conversations, id) case Some(c) => c.messages case None => []) + [Message(User, query)]
  }

  /** A conversation just created is new for the first send, which posts its greeting and the question. */
  lemma CreatedConversationIsNew(conversations: seq<Conversation>, newId: string, now: int, query: string)
    ensures var r := AfterCreate(conversations, newId, now);
      IsNew(r.0, newId) && Posted(r.0, newId, query) == [Message(Assistant, NewGreeting), Message(User, query)]
  {
  }

  /** The title of each conversation with the id replaced. */
  function Retitle(conversations: seq<Conversation>, id: string, title: string): (r: seq<Conversation>)
    ensures |r| == |conversations|
    ensures forall i :: 0 <= i < |r| ==> r[i] == if conversations[i].id == id then conversations[i].(title := title) else conversations[i]
  {
    seq(|conversations|, i requires 0 <= i < |conversations| =>
      if conversations[i].id == id then conversations[i].(title := title) else conversations[i])
  }

  /** What one chunk does to the conversations, given the text so far including it and the title before it. */
  function ChunkStep(conversations: seq<Conversation>, id: string, chunk: Payload, content: string, title: Option<string>): seq<Conversation> {
    var afterContent := if Truthy(chunk.content) then StreamInto(conversations, id, content, title) else conversations;
    match ChunkTitle(chunk)
    case Some(t) => Retitle(afterContent, id, t)
    case None => afterContent
  }

  /** A conversation ready for a reply: its last message is the empty assistant placeholder. */
  predicate AwaitsReply(c: Conversation) {
    c.messages != [] && c.messages[|c.messages| - 1] == Message(Assistant, "")
  }

  /** After the placeholder is added, every conversation with the id awaits the reply. */
  lemma PlacedAwaitsReply(conversations: seq<Conversation>, id: string, query: string, now: int)
    ensures var p := Placed(conversations, id, query, now);
      forall i :: 0 <= i < |p| && p[i].id == id ==> AwaitsReply(p[i])
  {
  }

  /** Before any chunk, the streamed state is the state itself. */
  lemma StreamNothing(conversations: seq<Conversation>, id: string)
    requires forall i :: 0 <= i < |conversations| && conversations[i].id == id ==> AwaitsReply(conversations[i])
    ensures StreamInto(conversations, id, "", None) == conversations
  {
    forall i | 0 <= i < |conversations| && conversations[i].id == id
      ensures SetLastContent(conversations[i].messages, "") == conversations[i].messages
    {
      var ms := conversations[i].messages;
      assert ms == ms[..|ms| - 1] + [ms[|ms| - 1]];
    }
  }

  /** One more chunk moves the streamed state from the chunks before it to the chunks including it. */
  lemma StreamStep(start: seq<Conversation>, id: string, chunk: Payload, content: string, title: Option<string>)
    requires title.Some? ==> title.value != ""
    ensures ChunkStep(StreamInto(start, id, content, title), id, chunk, content + AssistantChat.ChunkText(chunk), title)
         == StreamInto(start, id, content + AssistantChat.ChunkText(chunk), if ChunkTitle(chunk).Some? then ChunkTitle(chunk) else title)
  {
    var next := content + AssistantChat.ChunkText(chunk);
    if !Truthy(chunk.content) {
      assert AssistantChat.ChunkText(chunk) == "" && next == content;
    }
    forall i | 0 <= i < |start| && start[i].id == id
      ensures SetLastContent(SetLastContent(start[i].messages, content), next) == SetLastContent(start[i].messages, next)
    {
      var ms := start[i].messages;
      if ms != [] {
        assert SetLastContent(ms, content)[..|ms| - 1] == ms[..|ms| - 1];
      }
    }
  }

  /** The page's state. */
  class Page {
    var conversations: seq<Conversation>
    var activeId: Option<string>
    var message: string
    var loading: bool

    /** The page opens with conversation `1`, greeting the user, active. */
    constructor (now: int)
      ensures conversations == [Conversation("1", DefaultTitle, [Message(Assistant, FirstGreeting)], now)]
      ensures activeId == Some("1") && message == "" && !loading
    {
      conversations := [Conversation("1", DefaultTitle, [Message(Assistant, FirstGreeting)], now)];
      activeId := Some("1");
      message := "";
      loading := false;
    }

    /**
     * The chunk callback, with the closure's `currentContent` and `newTitle` passed in and out:
     * a truthy content extends the text and rewrites the last message; a truthy title replaces
     * the title.
     */
    method OnChunk(id: string, chunk: Payload, currentContent: string, newTitle: Option<string>)
      returns (content: string, title: Option<string>)
      modifies this
      ensures content == currentContent + AssistantChat.ChunkText(chunk)
      ensures title == if ChunkTitle(chunk).Some? then ChunkTitle(chunk) else newTitle
      ensures conversations == ChunkStep(old(conversations), id, chunk, content, newTitle)
      ensures activeId == old(activeId) && message == old(message) && loading == old(loading)
    {
      content, title := currentContent, newTitle;
      if chunk.content.Some? && chunk.content.value != "" {
        content := content + chunk.content.value;
        conversations := StreamInto(conversations, id, content, title);
      } else {
        assert content + "" == content;
      }
      if chunk.title.Title? && chunk.title.text != "" {
        title := Some(chunk.title.text);
        conversations := Retitle(conversations, id, chunk.title.text);
      }
    }

    /** The callback run for each chunk, in the order they arrive. */
    method StreamChunks(id: string, chunks: seq<Payload>)
      requires forall i :: 0 <= i < |conversations| && conversations[i].id == id ==> AwaitsReply(conversations[i])
      modifies this
      ensures conversations == StreamInto(old(conversations), id, AssistantChat.ChunksText(chunks), LatestTitle(chunks))
      ensures activeId == old(activeId) && message == old(message) && loading == old(loading)
    {
      ghost var start := conversations;
      StreamNothing(start, id);
      var currentContent := "";
      var newTitle: Option<string> := None;
      var k := 0;
      while k < |chunks|
        invariant 0 <= k <= |chunks|
        invariant currentContent == AssistantChat.ChunksText(chunks[..k]) && newTitle == LatestTitle(chunks[..k])
        invariant conversations == StreamInto(start, id, currentContent, newTitle)
        invariant activeId == old(activeId) && message == old(message) && loading == old(loading)
      {
        ghost var before := conversations;
        currentContent, newTitle := OnChunk(id, chunks[k], currentContent, newTitle);
        StreamStep(start, id, chunks[k], AssistantChat.ChunksText(chunks[..k]), LatestTitle(chunks[..k]));
        assert chunks[..k + 1][..k] == chunks[..k];
        k := k + 1;
      }
      assert chunks[..k] == chunks;
    }

    /**
     * `sendMessage`, given what `sendMessageToChatbot` passes to `onChunk`, whether it throws,
     * and the time; returns the messages and `isNewConversation` it posts, or `None` when it
     * returns early on a blank message or a falsy active id (absent or empty).
     */
    method SendMessage(chunks: seq<Payload>, failed: bool, now: int) returns (request: Option<(seq<Message>, bool)>)
      modifies this
      ensures IsBlank(old(message)) || !Truthy(old(activeId)) ==>
        request == None && conversations == old(conversations) && message == old(message) && loading == old(loading)
      ensures !IsBlank(old(message)) && Truthy(old(activeId)) ==>
        && request == Some((Posted(old(conversations), old(activeId).value, old(message)), IsNew(old(conversations), old(activeId).value)))
        && conversations == AfterSend(old(conversations), old(activeId).value, old(message), chunks, failed, now)
        && message == "" && !loading
      ensures activeId == old(activeId)
    {
      if IsBlank(message) || !Truthy(activeId) {
        return None;
      }
      var id := activeId.value;
      ghost var before, query := conversations, message;
      PlacedAwaitsReply(before, id, query, now);
      var posted, isNewConversation := PlaceQuestion(id, now);
      request := Some((posted, isNewConversation));
      ReceiveReply(id, chunks, failed);
      loading := false;
    }

    /**
     * The part of `sendMessage` before the request: the user's message, then the empty
     * placeholder, added to conversation `id`, the input cleared and `loading` set; returns the
     * messages posted and `isNewConversation`, both read before the first update.
     */
    method PlaceQuestion(id: string, now: int) returns (posted: seq<Message>, isNewConversation: bool)
      modifies this
      ensures posted == Posted(old(conversations), id, old(message)) && isNewConversation == IsNew(old(conversations), id)
      ensures conversations == Placed(old(conversations), id, old(message), now)
      ensures message == "" && loading && activeId == old(activeId)
    {
      var activeConversation := Find(conversations, id);
      var userMessage := Message(User, message);
      AppendMessage(id, userMessage, None, now);
      message := "";
      loading := true;
      isNewConversation := activeConversation.Some? && |activeConversation.value.messages| == 1;
      AppendMessage(id, Message(Assistant, ""), None, now);
      posted := (if activeConversation.Some? then activeConversation.value.messages else []) + [userMessage];
    }

    /** `updateConversation`. */
    method AppendMessage(id: string, newMessage: Message, newTitle: Option<string>, now: int)
      modifies this
      ensures conversations == UpdateConversation(old(conversations), id, newMessage, newTitle, now)
      ensures activeId == old(activeId) && message == old(message) && loading == old(loading)
    {
      var prev := conversations;
      conversations := seq(|prev|, i requires 0 <= i < |prev| => UpdateOne(prev[i], id, newMessage, newTitle, now));
    }

    /** The `sendMessageToChatbot` call and its `catch`: the reply streamed in, the empty messages removed on failure. */
    method ReceiveReply(id: string, chunks: seq<Payload>, failed: bool)
      requires forall i :: 0 <= i < |conversations| && conversations[i].id == id ==> AwaitsReply(conversations[i])
      modifies this
      ensures conversations == Replied(old(conversations), id, chunks, failed)
      ensures activeId == old(activeId) && message == old(message) && loading == old(loading)
    {
      StreamChunks(id, chunks);
      if failed {
        conversations := CleanUp(conversations, id);
      }
    }

    /** The "new conversation" button, with `Date.now()`'s id and the time passed in. */
    method CreateNewConversation(newId: string, now: int)
      modifies this
      ensures (conversations, activeId) == AfterCreate(old(conversations), newId, now)
      ensures message == old(message) && loading == old(loading)
    {
      conversations := [Conversation(newId, DefaultTitle, [Message(Assistant, NewGreeting)], now)] + conversations;
      activeId := Some(newId);
    }

    /** The delete button of conversation `id`, choosing the next active conversation as intended. */
    method DeleteConversation(id: string)
      modifies this
      ensures (conversations, activeId) == AfterDelete(old(conversations), old(activeId), id)
      ensures message == old(message) && loading == old(loading)
    {
      conversations := WithoutId(conversations, id);
      if activeId == Some(id) {
        activeId := if conversations != [] then Some(conversations[0].id) else None;
      }
    }
  }
}
