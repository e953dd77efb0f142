/** The chat screen: loading a chat, its message list, sending a message,
    the realtime insert subscription, and the rules that decide who the
    other participant is and which messages are the viewer's own. */
module Chat {
  import opened Wrappers
  import opened Text

  /** A joined `profiles` row: `(id, full_name, avatar_url)`. */
  datatype Profile = Profile(id: string, fullName: string, avatarUrl: string)

  /** A `chats` row with both participants' profiles joined in. */
  datatype ChatRow = ChatRow(id: string, user1Id: string, user2Id: string, user1: Profile, user2: Profile)

  /** A `messages` row. */
  datatype Message = Message(
    id: string,
    chatId: string,
    senderId: string,
    content: string,
    read: bool,
    createdAt: int)

  /** The row `sendMessage` inserts. */
  datatype MessageInsert = MessageInsert(chatId: string, senderId: string, content: string)

  /** The filter of the mark-read update: `chat_id = chatId` and
      `sender_id <> viewerId`. */
  datatype MarkReadRequest = MarkReadRequest(chatId: string, viewerId: string)

  /** The participant shown in the header: `user2` when the viewer is
      `user1_id`, and `user1` in every other case. */
  function OtherUser(chat: ChatRow, viewerId: string): (p: Profile)
    ensures chat.user1Id == viewerId ==> p == chat.user2
    ensures chat.user1Id != viewerId ==> p == chat.user1
  {
    if chat.user1Id == viewerId then chat.user2 else chat.user1
  }

  /** The joined profiles belong to the two participant ids. */
  predicate ProfilesMatch(chat: ChatRow)
  {
    chat.user1.id == chat.user1Id && chat.user2.id == chat.user2Id
  }

  /** In a chat between two different users, a participant is shown the
      profile of the other one, never their own. */
  lemma OtherUserIsTheOtherParticipant(chat: ChatRow, viewerId: string)
    requires ProfilesMatch(chat) && chat.user1Id != chat.user2Id
    requires viewerId == chat.user1Id || viewerId == chat.user2Id
    ensures OtherUser(chat, viewerId).id != viewerId
    ensures OtherUser(chat, viewerId).id == chat.user1Id || OtherUser(chat, viewerId).id == chat.user2Id
  {
  }

  /** `message.sender_id === currentUser?.id`: with no current user no
      message is the viewer's own. */
  predicate IsOwnMessage(m: Message, currentUser: Option<string>)
  {
    currentUser.Some? && m.senderId == currentUser.value
  }

  /** Whether the mark-read update's filter selects the message. */
  predicate Targets(req: MarkReadRequest, m: Message)
  {
    m.chatId == req.chatId && m.senderId != req.viewerId
  }

  /** The update selects exactly the chat's messages that are not the
      viewer's own. */
  lemma TargetsOthersMessages(chatId: string, viewerId: string, m: Message)
    ensures Targets(MarkReadRequest(chatId, viewerId), m) <==> m.chatId == chatId && !IsOwnMessage(m, Some(viewerId))
  {
  }

  /** The effect of the mark-read update on the `messages` table. */
  function MarkChatRead(table: seq<Message>, req: MarkReadRequest): (r: seq<Message>)
    ensures |r| == |table|
    ensures forall i :: 0 <= i < |table| && Targets(req, table[i]) ==> r[i] == table[i].(read := true)
    ensures forall i :: 0 <= i < |table| && !Targets(req, table[i]) ==> r[i] == table[i]
  {
    seq(|table|, i requires 0 <= i < |table| => if Targets(req, table[i]) then table[i].(read := true) else table[i])
  }

  /** After the update every message the other participant sent in this
      chat is read, and the viewer's own messages and other chats' messages
      are untouched. */
  lemma MarkChatReadEffect(table: seq<Message>, chatId: string, viewerId: string)
    ensures forall m :: m in MarkChatRead(table, MarkReadRequest(chatId, viewerId)) && m.chatId == chatId && !IsOwnMessage(m, Some(viewerId)) ==> m.read
    ensures forall i :: 0 <= i < |table| && (table[i].chatId != chatId || IsOwnMessage(table[i], Some(viewerId))) ==>
      MarkChatRead(table, MarkReadRequest(chatId, viewerId))[i] == table[i]
  {
    var req := MarkReadRequest(chatId, viewerId);
    var r := MarkChatRead(table, req);
    forall m | m in r && m.chatId == chatId && !IsOwnMessage(m, Some(viewerId)) ensures m.read {
      var i :| 0 <= i < |r| && r[i] == m;
      assert Targets(req, table[i]);
    }
  }

  /** How `fetchChat` ends: no signed-in user (it returns early), the chat
      was not found (a toast and a navigation to `/chats`), or the chat was
      loaded and the mark-read update was sent. */
  datatype ChatLoad = NotSignedIn | ChatNotFound | Loaded(markRead: MarkReadRequest)

  class ChatScreen {
    var messages: seq<Message>
    var newMessage: string
    var loading: bool
    var sending: bool
    var otherUser: Option<Profile>
    var chat: Option<ChatRow>
    var currentUser: Option<string>

    /** The initial state of the screen's `useState` hooks. */
    constructor ()
      ensures messages == [] && newMessage == "" && loading && !sending
      ensures otherUser == None && chat == None && currentUser == None
    {
      messages := [];
      newMessage := "";
      loading := true;
      sending := false;
      otherUser := None;
      chat := None;
      currentUser := None;
    }

    /** The input's `onChange`. */
    method SetNewMessage(value: string)
      modifies this
      ensures newMessage == value
      ensures messages == old(messages) && loading == old(loading) && sending == old(sending)
      ensures otherUser == old(otherUser) && chat == old(chat) && currentUser == old(currentUser)
    {
      newMessage := value;
    }

    /** `fetchChat` for the route's chat `id`: `user` is the id `getUser`
        returns, `chatData` the chat query's row and `messagesData` the
        messages query's `data`. `finally` clears `loading` on every path. */
    method FetchChat(id: string, user: Option<string>, chatData: Option<ChatRow>, messagesData: Option<seq<Message>>)
      returns (outcome: ChatLoad)
      modifies this
      ensures !loading
      ensures newMessage == old(newMessage) && sending == old(sending)
      ensures user.None? ==> outcome == NotSignedIn
      ensures user.None? ==>
        messages == old(messages) && otherUser == old(otherUser) && chat == old(chat) && currentUser == old(currentUser)
      ensures user.Some? ==> currentUser == user
      ensures user.Some? && chatData.None? ==> outcome == ChatNotFound
      ensures user.Some? && chatData.None? ==>
        messages == old(messages) && otherUser == old(otherUser) && chat == old(chat)
      ensures user.Some? && chatData.Some? ==>
        outcome == Loaded(MarkReadRequest(id, user.value))
        && chat == chatData
        && otherUser == Some(OtherUser(chatData.value, user.value))
        && messages == OrEmpty(messagesData)
    {
      if user.None? {
        loading := false;
        return NotSignedIn;
      }
      currentUser := user;
      if chatData.None? {
        loading := false;
        return ChatNotFound;
      }
      chat := chatData;
      otherUser := Some(OtherUser(chatData.value, user.value));
      messages := OrEmpty(messagesData);
      outcome := Loaded(MarkReadRequest(id, user.value));
      loading := false;
    }

    /** The realtime `INSERT` callback: the new row goes after every
        existing message, whether or not it is already displayed. */
    method OnInsert(m: Message)
      modifies this
      ensures messages == old(messages) + [m]
      ensures newMessage == old(newMessage) && loading == old(loading) && sending == old(sending)
      ensures otherUser == old(otherUser) && chat == old(chat) && currentUser == old(currentUser)
    {
      messages := messages + [m];
    }

    /** `sendMessage` for the route's chat `id` (`""` when absent): `user`
        is the id `getUser` returns and `reply` the inserted row, `None`
        when the insert reports an error. `request` is the row sent to the
        backend, if any. */
    method SendMessage(id: string, user: Option<string>, reply: Option<Message>) returns (request: Option<MessageInsert>)
      modifies this
      ensures loading == old(loading) && otherUser == old(otherUser) && chat == old(chat) && currentUser == old(currentUser)
      ensures Trim(old(newMessage)) == "" || id == "" ==>
        request.None? && messages == old(messages) && newMessage == old(newMessage) && sending == old(sending)
      ensures Trim(old(newMessage)) != "" && id != "" ==> !sending
      ensures Trim(old(newMessage)) != "" && id != "" && user.None? ==>
        request.None? && messages == old(messages) && newMessage == old(newMessage)
      ensures Trim(old(newMessage)) != "" && id != "" && user.Some? ==>
        request == Some(MessageInsert(id, user.value, Trim(old(newMessage))))
      ensures Trim(old(newMessage)) != "" && id != "" && user.Some? && reply.Some? ==>
        messages == old(messages) + [reply.value] && newMessage == ""
      ensures Trim(old(newMessage)) != "" && id != "" && user.Some? && reply.None? ==>
        messages == old(messages) && newMessage == old(newMessage)
    {
      var content := Trim(newMessage);
      if content == "" || id == "" {
        return None;
      }
      sending := true;
      if user.None? {
        sending := false;
        return None;
      }
      request := Some(MessageInsert(id, user.value, content));
      if reply.Some? {
        messages := messages + [reply.value];
        newMessage := "";
      }
      sending := false;
    }
  }

  /** Once `fetchChat` has run for a signed-in user `u`, whatever else the
      queries returned, a message is drawn as the viewer's own exactly when
      `u` sent it. */
  method OwnMessagesAfterLoad(screen: ChatScreen, id: string, u: string, chatData: Option<ChatRow>, messagesData: Option<seq<Message>>)
    returns (outcome: ChatLoad)
    modifies screen
    ensures outcome != NotSignedIn
    ensures screen.currentUser == Some(u)
    ensures forall m :: IsOwnMessage(m, screen.currentUser) <==> m.senderId == u
  {
    outcome := screen.FetchChat(id, Some(u), chatData, messagesData);
  }

  /** A message sent successfully while the input holds only spaces around
      the text is sent with the spaces removed, and the viewer sees the
      echoed row as their own. */
  method SendTrimmed(screen: ChatScreen, id: string, viewer: string, core: string, echo: Message)
    returns (request: Option<MessageInsert>)
    requires id != "" && core != "" && IsTrimmed(core)
    requires screen.currentUser == Some(viewer)
    requires echo.senderId == viewer
    modifies screen
    ensures request == Some(MessageInsert(id, viewer, core))
    ensures screen.messages == old(screen.messages) + [echo]
    ensures screen.newMessage == ""
    ensures IsOwnMessage(echo, screen.currentUser)
  {
    screen.SetNewMessage(" " + core + " ");
    TrimPadded(" ", core, " ");
    request := screen.SendMessage(id, Some(viewer), Some(echo));
  }
}
