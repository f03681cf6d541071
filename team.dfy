/**
 * The team page (src/pages/Team.tsx): direct chats with team members kept per member id,
 * the invitation form and the colour of a member's status. Message ids and times are
 * parameters.
 */
module Team {
  import opened Wrappers
  import opened Text

  datatype Status = Online | Offline | Away

  /** A chat message; `isCurrentUser` holds for the messages sent from this page. */
  datatype Message = Message(id: string, sender: string, content: string, timestamp: int, isCurrentUser: bool)

  /** The sender recorded for the messages sent from this page. */
  const CurrentUser := "currentUser"

  /** The state of the page that the handlers change. */
  datatype Page = Page(
    messages: map<string, seq<Message>>, activeChat: Option<string>, messageText: string,
    inviteEmail: string, showInviteForm: bool)

  /** `!activeChat`: no chat is open (an empty id counts as none). */
  predicate NoChat(active: Option<string>) {
    active == None || active.value == ""
  }

  /** `prev[activeChat] || []`. */
  function ChatOf(messages: map<string, seq<Message>>, id: string): seq<Message> {
    if id in messages then messages[id] else []
  }

  /**
   * `sendMessage`: with a chat open and text that is not blank, one message from the current
   * user with the text as typed is appended to that chat (created when missing) and the input
   * is cleared; otherwise nothing changes.
   */
  function SendMessage(p: Page, id: string, now: int): (r: Page)
    ensures NoChat(p.activeChat) || IsBlank(p.messageText) ==> r == p
    ensures !NoChat(p.activeChat) && !IsBlank(p.messageText) ==>
      var chat := p.activeChat.value;
      && r.messages.Keys == p.messages.Keys + {chat}
      && r.messages[chat] == ChatOf(p.messages, chat) + [Message(id, CurrentUser, p.messageText, now, true)]
      && (forall other :: other in p.messages && other != chat ==> r.messages[other] == p.messages[other])
      && r.messageText == ""
      && r.activeChat == p.activeChat && r.inviteEmail == p.inviteEmail && r.showInviteForm == p.showInviteForm
  {
    if NoChat(p.activeChat) || IsBlank(p.messageText) then p
    else
      var chat := p.activeChat.value;
      var newMessage := Message(id, CurrentUser, p.messageText, now, true);
      p.(messages := AppendTo(p.messages, chat, newMessage), messageText := "")
  }

  /** The chats with one message appended to chat `chat`. */
  function AppendTo(messages: map<string, seq<Message>>, chat: string, m: Message): (r: map<string, seq<Message>>)
    ensures r.Keys == messages.Keys + {chat}
    ensures r[chat] == ChatOf(messages, chat) + [m]
    ensures forall other :: other in messages && other != chat ==> r[other] == messages[other]
  {
    messages[chat := ChatOf(messages, chat) + [m]]
  }

  /** A send adds exactly one message, to the open chat, and a second send of the cleared input adds none. */
  lemma SendAddsOneMessage(p: Page, id: string, now: int, id2: string, later: int)
    requires !NoChat(p.activeChat) && !IsBlank(p.messageText)
    ensures var r := SendMessage(p, id, now);
      && |r.messages[p.activeChat.value]| == |ChatOf(p.messages, p.activeChat.value)| + 1
      && SendMessage(r, id2, later) == r
  {
    var r := SendMessage(p, id, now);
    assert IsBlank(r.messageText) by {
      assert r.messageText == "";
    }
  }

  /** `handleInvite`: an address that is not blank clears the field and hides the form; otherwise nothing changes. */
  function HandleInvite(p: Page): (r: Page)
    ensures IsBlank(p.inviteEmail) ==> r == p
    ensures !IsBlank(p.inviteEmail) ==> r == p.(inviteEmail := "", showInviteForm := false)
  {
    if IsBlank(p.inviteEmail) then p else p.(inviteEmail := "", showInviteForm := false)
  }

  /** An invitation touches only the invitation form, and a second one does nothing. */
  lemma InviteOnlyTouchesForm(p: Page)
    ensures var r := HandleInvite(p);
      && r.messages == p.messages && r.activeChat == p.activeChat && r.messageText == p.messageText
      && HandleInvite(r) == r
  {
    var r := HandleInvite(p);
    if !IsBlank(p.inviteEmail) {
      assert IsBlank(r.inviteEmail) by {
        assert r.inviteEmail == "";
      }
    }
  }

  /** `getStatusClass`. */
  function StatusClass(status: Status): (r: string)
    ensures r != ""
  {
    match status
    case Online => "bg-success-500"
    case Away => "bg-warning-500"
    case Offline => "bg-gray-400"
  }

  /** Each status has a class of its own. */
  lemma StatusClassesDistinct(a: Status, b: Status)
    ensures StatusClass(a) == StatusClass(b) <==> a == b
  {
    if a != b {
      assert StatusClass(a)[3] != StatusClass(b)[3] || |StatusClass(a)| != |StatusClass(b)|;
    }
  }
}
