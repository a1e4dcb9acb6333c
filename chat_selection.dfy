/** The selection state of the client that shows one conversation at a
    time: the open room and the open private chat, which the two select
    actions overwrite together. The `useChatState` hook and the
    `ChatProvider` context hold the same two fields with the same two
    actions, so this one class stands for both. */
module ChatSelectionState {
  import opened Common
  import opened ClientTypes

  class ChatSelection {
    var currentRoom: Option<ClientRoom>
    var currentPrivateChat: Option<ClientUser>

    /** A room and a private chat are never open at the same time. */
    predicate Valid()
      reads this
    {
      currentRoom.None? || currentPrivateChat.None?
    }

    constructor()
      ensures Valid()
      ensures currentRoom.None? && currentPrivateChat.None?
    {
      currentRoom := None;
      currentPrivateChat := None;
    }

    /** `selectRoom`: opens the room (or none) and closes the private chat. */
    method SelectRoom(room: Option<ClientRoom>)
      modifies this
      ensures Valid()
      ensures currentRoom == room && currentPrivateChat.None?
    {
      currentRoom := room;
      currentPrivateChat := None;
    }

    /** `selectPrivateChat`: opens the chat (or none) and closes the room. */
    method SelectPrivateChat(user: Option<ClientUser>)
      modifies this
      ensures Valid()
      ensures currentPrivateChat == user && currentRoom.None?
    {
      currentPrivateChat := user;
      currentRoom := None;
    }
  }
}
