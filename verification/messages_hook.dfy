/** `useMessages`: the user's conversations, the chat that is open, and its
    messages. Opening a chat reads its messages, marks the partner's
    messages to the user read in the store and zeroes that conversation's
    unread badge; sending appends the store's row and updates that
    conversation's last message. */
module MessagesHook {
  import opened Wrappers
  import opened Keyed
  import opened Database

  /** A row of the store's conversation summary for the user. */
  datatype ConversationRow = ConversationRow(
    otherUserId: string,
    fullName: string,
    avatarUrl: Option<string>,
    lastMessage: string,
    lastMessageTime: string,
    unreadCount: int,
    specialization: Option<string>)

  datatype Conversation = Conversation(
    id: string,
    name: string,
    avatarUrl: Option<string>,
    lastMessage: string,
    lastMessageTime: string,
    unreadCount: int,
    isOnline: bool,
    specialty: Option<string>)

  datatype HookState = HookState(
    conversations: seq<Conversation>,
    currentChat: Option<string>,
    messages: seq<Message>,
    loading: bool,
    error: Option<string>)

  /** The hook's state, the store's tables, and what the handler returned. */
  datatype Effect = Effect(state: HookState, db: Tables, result: Result<Option<Message>>)

  /** The conversation a summary row becomes; nobody is ever online. */
  function ToConversation(row: ConversationRow): (r: Conversation)
    ensures r.id == row.otherUserId && r.name == row.fullName && r.avatarUrl == row.avatarUrl
    ensures r.lastMessage == row.lastMessage && r.lastMessageTime == row.lastMessageTime
    ensures r.unreadCount == row.unreadCount && r.specialty == row.specialization
    ensures !r.isOnline
  {
    Conversation(row.otherUserId, row.fullName, row.avatarUrl, row.lastMessage, row.lastMessageTime,
                 row.unreadCount, false, row.specialization)
  }

  function ToConversations(rows: seq<ConversationRow>): (r: seq<Conversation>)
    ensures |r| == |rows|
    ensures forall i :: 0 <= i < |rows| ==> r[i] == ToConversation(rows[i])
  {
    seq(|rows|, i requires 0 <= i < |rows| => ToConversation(rows[i]))
  }

  /** The conversation fetch (also what each poll runs). */
  function FetchConversations(s: HookState, user: Option<string>, reply: Result<seq<ConversationRow>>): (r: HookState)
    ensures !r.loading && r.currentChat == s.currentChat && r.messages == s.messages
    ensures user.None? ==> r.conversations == [] && r.error == s.error
    ensures user.Some? && reply.Ok? ==> r.conversations == ToConversations(reply.value) && r.error.None?
    ensures user.Some? && reply.Err? ==> r.conversations == s.conversations && r.error == Some(reply.message)
    ensures user.Some? && reply.Ok? ==> forall i :: 0 <= i < |r.conversations| ==> !r.conversations[i].isOnline
  {
    if user.None? then s.(conversations := [], loading := false)
    else match reply
      case Ok(rows) => s.(conversations := ToConversations(rows), error := None, loading := false)
      case Err(e) => s.(error := Some(e), loading := false)
  }

  /** `setCurrentChat`: opening a chat or, with `None`, going back. */
  function SetCurrentChat(s: HookState, chat: Option<string>): (r: HookState)
    ensures r.currentChat == chat && r.conversations == s.conversations && r.messages == s.messages
  {
    s.(currentChat := chat)
  }

  /** The conversations with the badge of `chat` zeroed. */
  function ZeroUnread(cs: seq<Conversation>, chat: string): (r: seq<Conversation>)
    ensures |r| == |cs|
    ensures forall i :: 0 <= i < |cs| ==> r[i] == if cs[i].id == chat then cs[i].(unreadCount := 0) else cs[i]
  {
    MapWhere(cs, (c: Conversation) => c.id == chat, (c: Conversation) => c.(unreadCount := 0))
  }

  /** The message fetch for the open chat (also what each poll runs):
      without a user or an open chat the messages are emptied and nothing
      else happens; otherwise the messages are read, then marked read in the
      store, and only when both succeed does the hook take the messages (as
      read before marking) and zero the badge. `readFault` and `markFault`
      are the failures of the two store calls. */
  function FetchMessages(s: HookState, db: Tables, user: Option<string>, readFault: Option<string>, markFault: Option<string>): (r: (HookState, Tables))
    ensures user.None? || !Truthy(s.currentChat) ==> r == (s.(messages := []), db)
    ensures user.Some? && Truthy(s.currentChat) ==> !r.0.loading && r.0.currentChat == s.currentChat
    ensures user.Some? && Truthy(s.currentChat) && (readFault.Some? || markFault.Some?) ==>
      && r.0.conversations == s.conversations && r.0.messages == s.messages
      && r.0.error == (if readFault.Some? then readFault else markFault)
    ensures user.Some? && Truthy(s.currentChat) && readFault.None? && markFault.None? ==>
      && r.0.messages == GetMessages(db, user.value, s.currentChat.value, None).value
      && r.0.conversations == ZeroUnread(s.conversations, s.currentChat.value)
      && r.0.error.None?
      && r.1 == MarkMessagesAsRead(db, user.value, s.currentChat.value, None).db
    ensures readFault.Some? || markFault.Some? ==> r.1 == db
  {
    if user.None? || !Truthy(s.currentChat) then (s.(messages := []), db)
    else
      var chat := s.currentChat.value;
      match GetMessages(db, user.value, chat, readFault)
      case Err(e) => (s.(error := Some(e), loading := false), db)
      case Ok(rows) =>
        var marked := MarkMessagesAsRead(db, user.value, chat, markFault);
        match marked.reply
        case Err(e) => (s.(error := Some(e), loading := false), db)
        case Ok(_) =>
          (s.(conversations := ZeroUnread(s.conversations, chat), messages := rows, error := None, loading := false), marked.db)
  }

  /** Opening a chat zeroes that conversation's badge only, and afterwards
      the store holds no unread message from the partner to the user. */
  lemma OpeningChatClearsItsBadgeOnly(s: HookState, db: Tables, user: string, chat: string)
    requires s.currentChat == Some(chat) && chat != ""
    ensures var r := FetchMessages(s, db, Some(user), None, None);
      && (forall i :: 0 <= i < |s.conversations| && s.conversations[i].id == chat ==> r.0.conversations[i].unreadCount == 0)
      && (forall i :: 0 <= i < |s.conversations| && s.conversations[i].id != chat ==> r.0.conversations[i] == s.conversations[i])
      && (forall m :: m in r.1.messages ==> !UnreadFrom(m, user, chat))
  {
  }

  /** `sendMessage`: without a user or an open chat, a bare return. The
      message goes from the user to the open chat as unread text; the
      store's row is appended and the chat's conversation takes the content
      as its last message at time `now`. A failure is rethrown with nothing
      changed. */
  function Send(s: HookState, db: Tables, user: Option<string>, content: string, stamp: Stamp, now: string, fault: Option<string>): (r: Effect)
    ensures user.None? || !Truthy(s.currentChat) ==> r == Effect(s, db, Ok(None))
    ensures user.Some? && Truthy(s.currentChat) && fault.Some? ==> r == Effect(s, db, Err(fault.value))
    ensures user.Some? && Truthy(s.currentChat) && fault.None? ==>
      var chat := s.currentChat.value;
      && r.result.Ok? && r.result.value.Some?
      && var m := r.result.value.value;
      && m.senderId == user.value && m.receiverId == chat && m.content == content
      && m.kind == TextMessage && !m.isRead && m.id == stamp.id
      && r.state.messages == s.messages + [m]
      && r.db == db.(messages := db.messages + [m])
      && |r.state.conversations| == |s.conversations|
      && (forall i :: 0 <= i < |s.conversations| && s.conversations[i].id == chat ==>
            r.state.conversations[i] == s.conversations[i].(lastMessage := content, lastMessageTime := now))
      && (forall i :: 0 <= i < |s.conversations| && s.conversations[i].id != chat ==>
            r.state.conversations[i] == s.conversations[i])
  {
    if user.None? || !Truthy(s.currentChat) then Effect(s, db, Ok(None))
    else
      var chat := s.currentChat.value;
      var out := SendMessage(db, NewMessage(user.value, chat, content, TextMessage, false), stamp, fault);
      match out.reply
      case Err(e) => Effect(s, db, Err(e))
      case Ok(row) =>
        var cs := MapWhere(s.conversations, (c: Conversation) => c.id == chat,
                           (c: Conversation) => c.(lastMessage := content, lastMessageTime := now));
        Effect(s.(messages := s.messages + [row], conversations := cs), out.db, Ok(Some(row)))
  }

  /** What was sent is what the next read of the chat lists: the appended
      message is in the store's view of the conversation. */
  lemma SentMessageIsReadBack(s: HookState, db: Tables, user: string, content: string, stamp: Stamp, now: string)
    requires Truthy(s.currentChat)
    ensures var r := Send(s, db, Some(user), content, stamp, now, None);
      var m := r.result.value.value;
      m in GetMessages(r.db, user, s.currentChat.value, None).value
  {
    var r := Send(s, db, Some(user), content, stamp, now, None);
    var m := r.result.value.value;
    assert m in r.db.messages;
    assert Between(m, user, s.currentChat.value);
  }
}
