/** The chat page: sending a message in the selected chat, starting a chat
    with a writer (reusing the writer's chat when there is one), and the
    writer search. */
module Chats {
  import opened Wrappers
  import opened Js
  import opened Types
  import Users

  datatype ChatsView = ChatsView(
    selectedChatId: Option<string>,
    messageInput: string,
    writerSearch: string,
    showWriterSelect: bool)

  const InitialChatsView := ChatsView(None, "", "", false)

  /** `handleSendMessage`: the message to send, if any. It is sent as typed,
      spaces included, when its trimmed text is non-empty and a chat is
      selected. */
  function HandleSendMessage(v: ChatsView): (r: Option<SendMessageData>)
    ensures r.Some? <==> !AllSpace(v.messageInput) && Truthy(v.selectedChatId)
    ensures r.Some? ==> r.value == SendMessageData(v.selectedChatId.value, v.messageInput)
  {
    if Trim(v.messageInput) != "" && Truthy(v.selectedChatId) then
      Some(SendMessageData(v.selectedChatId.value, v.messageInput))
    else None
  }

  /** The send mutation's success: the input is cleared, so the same text
      is not sent twice. */
  function MessageSent(v: ChatsView): (r: ChatsView)
    ensures r.messageInput == "" && r.selectedChatId == v.selectedChatId
    ensures r.writerSearch == v.writerSearch && r.showWriterSelect == v.showWriterSelect
  {
    v.(messageInput := "")
  }

  lemma NothingAfterSend(v: ChatsView)
    ensures HandleSendMessage(MessageSent(v)).None?
  {
  }

  function HasWriter(writerId: string): Chat -> bool {
    (c: Chat) => c.writerId == writerId
  }

  /** What `handleStartChat` does: select an existing chat, or ask for a new one. */
  datatype StartChat = Select(view: ChatsView) | Create(writerId: string)

  /** `handleStartChat`: the writer's first chat in the loaded list is
      selected and the picker closes; without one, `createChat` is requested
      and the view stays as it is. */
  function HandleStartChat(v: ChatsView, chats: Option<seq<Chat>>, writerId: string): (r: StartChat)
    ensures r.Create? <==> chats.None? || forall i :: 0 <= i < |chats.value| ==> chats.value[i].writerId != writerId
    ensures r.Create? ==> r.writerId == writerId
    ensures r.Select? ==>
      exists i :: 0 <= i < |chats.value| && chats.value[i].writerId == writerId
                  && (forall j :: 0 <= j < i ==> chats.value[j].writerId != writerId)
                  && r.view == v.(selectedChatId := Some(chats.value[i].id), showWriterSelect := false)
  {
    if chats.None? then Create(writerId)
    else
      match Find(chats.value, HasWriter(writerId))
      case None => Create(writerId)
      case Some(c) =>
        var i := FindIndex(chats.value, HasWriter(writerId));
        assert chats.value[i] == c;
        Select(v.(selectedChatId := Some(c.id), showWriterSelect := false))
  }

  /** The create mutation's success: the new chat is selected, the picker
      closes and the search is cleared. */
  function ChatCreated(v: ChatsView, newChat: Chat): (r: ChatsView)
    ensures r.selectedChatId == Some(newChat.id) && !r.showWriterSelect && r.writerSearch == ""
    ensures r.messageInput == v.messageInput
  {
    v.(selectedChatId := Some(newChat.id), showWriterSelect := false, writerSearch := "")
  }

  /** Once the new chat is in the list, starting a chat with the same
      writer again selects it and creates nothing, provided the writer has
      no other chat. */
  lemma StartAgainSelects(v: ChatsView, chats: seq<Chat>, c: Chat)
    requires c in chats
    requires forall i :: 0 <= i < |chats| && chats[i].writerId == c.writerId ==> chats[i] == c
    ensures var r := HandleStartChat(ChatCreated(v, c), Some(chats), c.writerId);
            r == Select(ChatCreated(v, c))
  {
  }

  /** `filteredWriters`: the same search as on the user page; nothing while
      the users are loading. */
  function FilteredWriters(writers: Option<seq<User>>, writerSearch: string): (r: Option<seq<User>>)
    ensures r.None? <==> writers.None?
    ensures r.Some? ==> forall w :: w in r.value <==> w in writers.value && Users.Matches(writerSearch, w)
  {
    if writers.None? then None else Some(Users.SearchUsers(writers.value, writerSearch))
  }

  /** After a chat is created the search is empty, so every writer is listed again. */
  lemma CreatedShowsAll(v: ChatsView, newChat: Chat, writers: seq<User>)
    ensures FilteredWriters(Some(writers), ChatCreated(v, newChat).writerSearch) == Some(writers)
  {
    Users.EmptySearchKeepsAll(writers);
  }
}
