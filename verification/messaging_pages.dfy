/** The patient and provider messaging pages over the messages hook. Both
    show the chat view when the open chat is one of the conversations, list
    the online conversations, and open or close a chat through the hook.
    They label the bubbles differently: the patient page asks whether the
    sender is the user, the provider page whether the sender is the partner. */
module MessagingPages {
  import opened Wrappers
  import opened Keyed
  import opened Database
  import opened MessagesHook
  import ChatView
  import Text

  /** A message as the chat view shows it. */
  datatype Bubble = Bubble(
    id: string,
    senderId: string,
    senderName: string,
    content: string,
    timestamp: string,
    isFromMe: bool,
    kind: MessageKind)

  const You := "You"

  /** The patient page's bubble: from the user when the sender is the
      signed-in user's id. */
  function PatientBubble(m: Message, user: Option<string>, chat: Conversation): (r: Bubble)
    ensures r.isFromMe <==> user == Some(m.senderId)
    ensures r.senderName == (if r.isFromMe then You else chat.name)
    ensures r.id == m.id && r.content == m.content && r.timestamp == m.createdAt && r.kind == m.kind
  {
    var mine := user.Some? && m.senderId == user.value;
    Bubble(m.id, m.senderId, if mine then You else chat.name, m.content, m.createdAt, mine, m.kind)
  }

  /** The provider page's bubble: from the user unless the sender is the
      partner. */
  function ProviderBubble(m: Message, chat: Conversation): (r: Bubble)
    ensures r.isFromMe <==> m.senderId != chat.id
    ensures r.senderName == (if r.isFromMe then You else chat.name)
    ensures r.id == m.id && r.content == m.content && r.timestamp == m.createdAt && r.kind == m.kind
  {
    var mine := m.senderId != chat.id;
    Bubble(m.id, m.senderId, if mine then You else chat.name, m.content, m.createdAt, mine, m.kind)
  }

  function PatientBubbles(ms: seq<Message>, user: Option<string>, chat: Conversation): (r: seq<Bubble>)
    ensures |r| == |ms| && forall i :: 0 <= i < |ms| ==> r[i] == PatientBubble(ms[i], user, chat)
  {
    seq(|ms|, i requires 0 <= i < |ms| => PatientBubble(ms[i], user, chat))
  }

  function ProviderBubbles(ms: seq<Message>, chat: Conversation): (r: seq<Bubble>)
    ensures |r| == |ms| && forall i :: 0 <= i < |ms| ==> r[i] == ProviderBubble(ms[i], chat)
  {
    seq(|ms|, i requires 0 <= i < |ms| => ProviderBubble(ms[i], chat))
  }

  /** On the messages of the open conversation the two labellings agree,
      as long as the user is not talking to themself. */
  lemma LabelsAgreeWithinConversation(ms: seq<Message>, user: string, chat: Conversation)
    requires user != chat.id
    requires forall i :: 0 <= i < |ms| ==> Between(ms[i], user, chat.id)
    ensures PatientBubbles(ms, Some(user), chat) == ProviderBubbles(ms, chat)
  {
  }

  /** A message from a third party is the partner's on the patient page and
      the user's own on the provider page; a chat with oneself is all the
      partner's on the provider page. */
  lemma LabelsDisagreeOutsideIt(m: Message, user: string, chat: Conversation)
    ensures m.senderId != user && m.senderId != chat.id ==>
      !PatientBubble(m, Some(user), chat).isFromMe && ProviderBubble(m, chat).isFromMe
    ensures user == chat.id && m.senderId == user ==>
      PatientBubble(m, Some(user), chat).isFromMe && !ProviderBubble(m, chat).isFromMe
  {
  }

  /** The conversation the chat view opens on, if the page shows it. */
  function Selected(s: HookState): (r: Option<Conversation>)
    ensures r.Some? <==> Truthy(s.currentChat) && exists i :: 0 <= i < |s.conversations| && s.conversations[i].id == s.currentChat.value
    ensures r.Some? ==> r.value in s.conversations && r.value.id == s.currentChat.value
  {
    if !Truthy(s.currentChat) then None
    else Find(s.conversations, (c: Conversation) => c.id == s.currentChat.value)
  }

  /** `handleChatSelect` then `handleBackFromChat`: back on the list, with
      the conversations as they were. */
  lemma SelectThenBack(s: HookState, chatId: string)
    ensures var chosen := SetCurrentChat(s, Some(chatId));
      && (chatId != "" && (exists i :: 0 <= i < |s.conversations| && s.conversations[i].id == chatId) ==> Selected(chosen).Some?)
      && Selected(SetCurrentChat(chosen, None)).None?
      && SetCurrentChat(chosen, None).conversations == s.conversations
  {
  }

  /** The online strip: the conversations marked online, in order. */
  function Online(cs: seq<Conversation>): (r: seq<Conversation>)
    ensures forall c :: c in r <==> c in cs && c.isOnline
  {
    Filter(cs, (c: Conversation) => c.isOnline)
  }

  /** The hook never marks anyone online, so after a fetch the strip is empty. */
  lemma NobodyOnlineAfterFetch(s: HookState, user: string, rows: seq<ConversationRow>)
    ensures Online(FetchConversations(s, Some(user), Ok(rows)).conversations) == []
  {
    var cs := FetchConversations(s, Some(user), Ok(rows)).conversations;
    FilterLength(cs, (c: Conversation) => c.isOnline);
    CountZeroIff(cs, (c: Conversation) => c.isOnline);
  }

  /** Whether the provider page shows its empty-list notice. */
  predicate NoConversations(s: HookState) {
    |s.conversations| == 0
  }

  /** The send a chat view gets, with its hook state, tables and outcome. */
  datatype Sent = Sent(state: HookState, db: Tables, completion: Completion)

  function AsCompletion(e: Effect): (r: Sent)
    ensures r.state == e.state && r.db == e.db
    ensures r.completion.Resolved? <==> e.result.Ok?
  {
    Sent(e.state, e.db, if e.result.Ok? then Resolved else Rejected(e.result.message))
  }

  /** The patient page hands the hook's `sendMessage` to the chat view. */
  function PatientSend(s: HookState, db: Tables, user: Option<string>, content: string, stamp: Stamp, now: string, fault: Option<string>): (r: Sent)
    ensures user.None? || !Truthy(s.currentChat) ==> r == Sent(s, db, Resolved)
    ensures user.Some? && Truthy(s.currentChat) && fault.Some? ==> r == Sent(s, db, Rejected(fault.value))
    ensures user.Some? && Truthy(s.currentChat) && fault.None? ==>
      r.completion == Resolved && |r.db.messages| == |db.messages| + 1 && |r.state.messages| == |s.messages| + 1
  {
    AsCompletion(MessagesHook.Send(s, db, user, content, stamp, now, fault))
  }

  /** The provider page's `handleSendMessage`: no open chat, a bare return;
      otherwise the hook's send, rethrowing its failure. */
  function ProviderSend(s: HookState, db: Tables, user: Option<string>, content: string, stamp: Stamp, now: string, fault: Option<string>): (r: Sent)
    ensures !Truthy(s.currentChat) ==> r == Sent(s, db, Resolved)
    ensures Truthy(s.currentChat) && (user.None? || fault.None?) ==> r.completion == Resolved
    ensures Truthy(s.currentChat) && user.Some? && fault.Some? ==> r == Sent(s, db, Rejected(fault.value))
  {
    if !Truthy(s.currentChat) then Sent(s, db, Resolved)
    else
      var e := MessagesHook.Send(s, db, user, content, stamp, now, fault);
      match e.result
      case Err(msg) => Sent(e.state, e.db, Rejected(msg))
      case Ok(_) => Sent(e.state, e.db, Resolved)
  }

  /** The provider page's extra guard changes nothing: both pages' sends
      leave the same state and settle the same way. */
  lemma PagesSendAlike(s: HookState, db: Tables, user: Option<string>, content: string, stamp: Stamp, now: string, fault: Option<string>)
    ensures ProviderSend(s, db, user, content, stamp, now, fault) == PatientSend(s, db, user, content, stamp, now, fault)
  {
  }

  /** Pressing send in the provider's chat view: the composer's trimmed text
      is stored as a message from the user to the open chat, the composer
      empties, and the bubble shows as the user's own. */
  lemma ComposerToStore(c: ChatView.Composer, s: HookState, db: Tables, user: string, stamp: Stamp, now: string)
    requires ChatView.BeginSend(c).sent.Some?
    requires Truthy(s.currentChat) && user != s.currentChat.value
    ensures var text := ChatView.BeginSend(c).sent.value;
      var e := MessagesHook.Send(s, db, Some(user), text, stamp, now, None);
      var sent := ProviderSend(s, db, Some(user), text, stamp, now, None);
      var m := e.result.value.value;
      && sent.completion == Resolved
      && m.content == Text.Trim(c.text) && m.senderId == user && m.receiverId == s.currentChat.value
      && m in sent.db.messages
      && ChatView.FinishSend(ChatView.BeginSend(c).composer, sent.completion).text == ""
      && (forall chat: Conversation :: chat.id == s.currentChat.value ==> ProviderBubble(m, chat).isFromMe)
  {
  }
}
