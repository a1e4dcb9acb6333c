/** The chat state provider of the platform client: the room list, the
    open room or private chat, the message list on screen and the online
    users, overwritten by socket events and by the actions the provider
    exposes. Requests are replaced by their outcome, given as a parameter. */
module ChatContextState {
  import opened Common
  import opened ClientTypes
  import opened PresenceList

  /** What `roomsAPI.getAllRooms` produced. */
  datatype RoomsReply = RoomList(list: seq<ClientRoom>) | NotAList | Failed

  /** A `message:room` emit the client sends to the server. */
  datatype Outgoing = Outgoing(roomId: string, content: string)

  class ChatContext {
    var rooms: seq<ClientRoom>
    var currentRoom: Option<ClientRoom>
    var currentPrivateChat: Option<ClientUser>
    var messages: seq<ClientMessage>
    var onlineUsers: seq<ClientUser>

    /** The online list never holds two entries for one user. */
    predicate Valid()
      reads this
    {
      UniqueIds(onlineUsers)
    }

    constructor()
      ensures Valid()
      ensures rooms == [] && messages == [] && onlineUsers == []
      ensures currentRoom.None? && currentPrivateChat.None?
    {
      rooms := [];
      currentRoom := None;
      currentPrivateChat := None;
      messages := [];
      onlineUsers := [];
    }

    /** `user:online`. */
    method OnUserOnline(u: ClientUser)
      requires Valid()
      modifies this
      ensures Valid()
      ensures onlineUsers == AddOnline(old(onlineUsers), u)
      ensures rooms == old(rooms) && messages == old(messages)
      ensures currentRoom == old(currentRoom) && currentPrivateChat == old(currentPrivateChat)
    {
      onlineUsers := AddOnline(onlineUsers, u);
    }

    /** `user:offline`. */
    method OnUserOffline(id: string)
      requires Valid()
      modifies this
      ensures Valid()
      ensures onlineUsers == RemoveOnline(old(onlineUsers), id)
      ensures rooms == old(rooms) && messages == old(messages)
      ensures currentRoom == old(currentRoom) && currentPrivateChat == old(currentPrivateChat)
    {
      RemoveOnlineKeepsUnique(onlineUsers, id);
      onlineUsers := RemoveOnline(onlineUsers, id);
    }

    /** `message:room`: shown only when it belongs to the open room. */
    method OnRoomMessage(m: ClientMessage)
      modifies this
      ensures currentRoom.Some? && m.roomId == Some(currentRoom.value.id) ==> messages == old(messages) + [m]
      ensures !(currentRoom.Some? && m.roomId == Some(currentRoom.value.id)) ==> messages == old(messages)
      ensures rooms == old(rooms) && onlineUsers == old(onlineUsers)
      ensures currentRoom == old(currentRoom) && currentPrivateChat == old(currentPrivateChat)
    {
      if currentRoom.Some? && m.roomId == Some(currentRoom.value.id) {
        messages := messages + [m];
      }
    }

    /** `message:private`: always appended, whatever is open and even if
        the message is already listed. */
    method OnPrivateMessage(m: ClientMessage)
      modifies this
      ensures messages == old(messages) + [m]
      ensures rooms == old(rooms) && onlineUsers == old(onlineUsers)
      ensures currentRoom == old(currentRoom) && currentPrivateChat == old(currentPrivateChat)
    {
      messages := messages + [m];
    }

    /** `sendMessage`: the emit it makes, if any. Nothing is sent without
        an open room or with blank content; otherwise the trimmed content
        goes to the open room. */
    method SendMessage(content: string) returns (sent: Option<Outgoing>)
      ensures sent.None? <==> currentRoom.None? || IsBlank(content)
      ensures sent.Some? ==> sent.value.roomId == currentRoom.value.id
      ensures sent.Some? ==> sent.value.content == Trim(content) && sent.value.content != ""
      ensures sent.Some? ==> !IsWhitespace(sent.value.content[0])
                             && !IsWhitespace(sent.value.content[|sent.value.content| - 1])
    {
      TrimEmptyIffBlank(content);
      if currentRoom.None? || Trim(content) == "" {
        return None;
      }
      sent := Some(Outgoing(currentRoom.value.id, Trim(content)));
    }

    /** The raw room setter the provider exposes. */
    method SetCurrentRoom(room: Option<ClientRoom>)
      modifies this
      ensures currentRoom == room
      ensures currentPrivateChat == old(currentPrivateChat)
      ensures rooms == old(rooms) && messages == old(messages) && onlineUsers == old(onlineUsers)
    {
      currentRoom := room;
    }

    /** The effect on the open room: with a room, the fetched messages
        replace the list and a failed fetch leaves it; without one the list
        is emptied. */
    method SyncRoomMessages(fetched: Option<seq<ClientMessage>>)
      modifies this
      ensures currentRoom.None? ==> messages == []
      ensures currentRoom.Some? && fetched.Some? ==> messages == fetched.value
      ensures currentRoom.Some? && fetched.None? ==> messages == old(messages)
      ensures rooms == old(rooms) && onlineUsers == old(onlineUsers)
      ensures currentRoom == old(currentRoom) && currentPrivateChat == old(currentPrivateChat)
    {
      if currentRoom.Some? {
        if fetched.Some? {
          messages := fetched.value;
        }
      } else {
        messages := [];
      }
    }

    /** `loadRooms`: a list reply replaces the rooms; anything else, an
        error included, empties them. */
    method LoadRooms(reply: RoomsReply)
      modifies this
      ensures reply.RoomList? ==> rooms == reply.list
      ensures !reply.RoomList? ==> rooms == []
      ensures messages == old(messages) && onlineUsers == old(onlineUsers)
      ensures currentRoom == old(currentRoom) && currentPrivateChat == old(currentPrivateChat)
    {
      match reply
      case RoomList(list) => rooms := list;
      case NotAList => rooms := [];
      case Failed => rooms := [];
    }

    /** `loadPrivateMessages`: the fetched conversation, or `[]` when the
        fetch fails. */
    method LoadPrivateMessages(fetched: Option<seq<ClientMessage>>)
      modifies this
      ensures fetched.Some? ==> messages == fetched.value
      ensures fetched.None? ==> messages == []
      ensures rooms == old(rooms) && onlineUsers == old(onlineUsers)
      ensures currentRoom == old(currentRoom) && currentPrivateChat == old(currentPrivateChat)
    {
      match fetched
      case Some(list) => messages := list;
      case None => messages := [];
    }

    /** `startPrivateChat`: opens the conversation, closes the room, and
        shows the conversation's messages (`[]` if they cannot be fetched). */
    method StartPrivateChat(target: ClientUser, fetched: Option<seq<ClientMessage>>)
      modifies this
      ensures currentPrivateChat == Some(target) && currentRoom.None?
      ensures fetched.Some? ==> messages == fetched.value
      ensures fetched.None? ==> messages == []
      ensures rooms == old(rooms) && onlineUsers == old(onlineUsers)
    {
      currentPrivateChat := Some(target);
      currentRoom := None;
      LoadPrivateMessages(fetched);
    }

    /** `sendPrivateMessage`: the created message is appended and returned;
        a failed request changes nothing. */
    method SendPrivateMessage(created: Option<ClientMessage>) returns (sent: Option<ClientMessage>)
      modifies this
      ensures sent == created
      ensures created.Some? ==> messages == old(messages) + [created.value]
      ensures created.None? ==> messages == old(messages)
      ensures rooms == old(rooms) && onlineUsers == old(onlineUsers)
      ensures currentRoom == old(currentRoom) && currentPrivateChat == old(currentPrivateChat)
    {
      sent := created;
      if created.Some? {
        messages := messages + [created.value];
      }
    }
  }

  /** Opening a private chat clears the room, but the raw setter can open a
      room afterwards without closing the chat: both are then open. */
  method RoomOpenedDuringPrivateChat(ctx: ChatContext, target: ClientUser, room: ClientRoom,
                                     fetched: Option<seq<ClientMessage>>)
    modifies ctx
    ensures ctx.currentRoom == Some(room) && ctx.currentPrivateChat == Some(target)
  {
    ctx.StartPrivateChat(target, fetched);
    ctx.SetCurrentRoom(Some(room));
  }

  /** With a room open, a private message from anyone joins the room's
      message list. */
  method PrivateMessageShownInRoom(ctx: ChatContext, room: ClientRoom, m: ClientMessage)
    requires m.roomId.None?
    modifies ctx
    ensures ctx.currentRoom == Some(room)
    ensures ctx.messages == old(ctx.messages) + [m]
  {
    ctx.SetCurrentRoom(Some(room));
    ctx.OnPrivateMessage(m);
  }
}
