/** The real-time server: the handshake gate, the registry from user to
    socket, socket.io room membership, message fan-out, the typing relay
    and the deferred offline rule. Each handler runs as one atomic step;
    the 5000 ms timer is an explicit `FireOffline` step. All timers share
    the same delay, so they fire in the order they were scheduled and the
    pending checks form a queue. What the server sends is appended to a
    log of emissions, each with the set of sockets it reaches. */
module SocketServer {
  import opened Common
  import opened Models
  import MessageStore

  /** socket.io generates a fresh id per connection; here a counter. */
  type SocketId = nat

  /** `socket.user`: the fields the handshake keeps of the user document. */
  datatype Profile = Profile(id: UserId, username: string, profilePicture: string)

  datatype Phase = Start | Stop

  datatype Event =
    | UserOnline(user: Profile)
    | UserOffline(id: UserId)
    | RoomMessage(message: Message)
    | PrivateMessage(message: Message)
    | Typing(phase: Phase, typist: Profile, roomId: Option<RoomId>)

  datatype Emission = Emission(targets: set<SocketId>, event: Event)

  // ---------------------------------------------------------------- handshake

  /** The outcome of `jwt.verify` on the token: the id in its payload, or a
      thrown error (bad signature, expired). */
  datatype Verification = Verified(userId: UserId) | VerifyFailed

  /** The outcome of `User.findById`: the document, `null`, or a throw. */
  datatype Lookup = Found(username: string, profilePicture: string) | Missing | LookupFailed

  datatype Handshake = Accepted(user: Profile) | Rejected(message: string)

  /** The `io.use` middleware. */
  function Authenticate(token: Option<string>, verify: Verification, lookup: Lookup): (h: Handshake)
    ensures h.Accepted? <==> Truthy(token) && verify.Verified? && lookup.Found?
    ensures h.Accepted? ==>
              h.user == Profile(verify.userId, lookup.username, lookup.profilePicture)
    ensures !Truthy(token) ==> h == Rejected("Authentication required")
    ensures Truthy(token) && verify.Verified? && lookup.Missing? ==> h == Rejected("User not found")
    ensures Truthy(token) && (verify.VerifyFailed? || (verify.Verified? && lookup.LookupFailed?)) ==>
              h == Rejected("Authentication failed")
  {
    if !Truthy(token) then Rejected("Authentication required")
    else if verify.VerifyFailed? then Rejected("Authentication failed")
    else match lookup
      case LookupFailed => Rejected("Authentication failed")
      case Missing => Rejected("User not found")
      case Found(name, picture) => Accepted(Profile(verify.userId, name, picture))
  }

  // ------------------------------------------------------------------- server

  class ChatServer {
    /** `userSockets`: one socket id per user. */
    var registry: map<UserId, SocketId>
    /** Live sockets and the user each one authenticated as. */
    var sockets: map<SocketId, Profile>
    /** The chat rooms (`room:<id>`) each live socket has joined. */
    var rooms: map<SocketId, set<RoomId>>
    /** Users whose offline check is scheduled, in firing order. */
    var pending: seq<UserId>
    /** The persisted `is_online` flag of each user that ever connected. */
    var online: map<UserId, bool>
    var log: seq<Emission>
    var nextSocket: nat
    /** The message collection, shared with the REST handlers. */
    const store: MessageStore.MessageStore

    /** The registry points only at live sockets of the same user; a
        registered user is marked online; a user marked online who is not
        registered has an offline check pending. */
    ghost predicate Valid()
      reads this, store
    {
      && store.Valid()
      && sockets.Keys == rooms.Keys
      && (forall s :: s in sockets ==> s < nextSocket)
      && (forall u :: u in registry ==> registry[u] in sockets && sockets[registry[u]].id == u)
      && (forall u :: u in registry ==> u in online && online[u])
      && (forall u :: u in online && online[u] && u !in registry ==> u in pending)
    }

    constructor (store: MessageStore.MessageStore)
      requires store.Valid()
      ensures Valid()
      ensures this.store == store
      ensures registry == map[] && sockets == map[] && rooms == map[]
      ensures pending == [] && online == map[] && log == []
    {
      this.store := store;
      registry := map[];
      sockets := map[];
      rooms := map[];
      pending := [];
      online := map[];
      log := [];
      nextSocket := 0;
    }

    /** The sockets in chat room `roomId`. */
    function RoomMembers(roomId: RoomId): (members: set<SocketId>)
      reads this
      ensures forall s :: s in members <==> s in rooms && roomId in rooms[s]
    {
      set s | s in rooms && roomId in rooms[s]
    }

    /** A connection attempt: the handshake, then the `connection` handler.
        A rejected handshake changes nothing. An accepted one registers
        the new socket for its user, replacing any earlier one, marks the
        user online and announces it to every socket, the new one included. */
    method Connect(token: Option<string>, verify: Verification, lookup: Lookup)
      returns (h: Handshake, sid: Option<SocketId>)
      requires Valid()
      modifies this
      ensures Valid()
      ensures h == Authenticate(token, verify, lookup)
      ensures h.Rejected? ==>
                && sid.None?
                && registry == old(registry) && sockets == old(sockets) && rooms == old(rooms)
                && pending == old(pending) && online == old(online) && log == old(log)
      ensures h.Accepted? ==>
                && sid.Some? && sid.value !in old(sockets)
                && sockets == old(sockets)[sid.value := h.user]
                && rooms == old(rooms)[sid.value := {}]
                && registry == old(registry)[h.user.id := sid.value]
                && online == old(online)[h.user.id := true]
                && pending == old(pending)
                && log == old(log) + [Emission(sockets.Keys, UserOnline(h.user))]
      ensures forall r :: RoomMembers(r) == old(RoomMembers(r))
    {
      h := Authenticate(token, verify, lookup);
      if h.Rejected? {
        return h, None;
      }
      var s := nextSocket;
      nextSocket := nextSocket + 1;
      sockets := sockets[s := h.user];
      rooms := rooms[s := {}];
      registry := registry[h.user.id := s];
      online := online[h.user.id := true];
      log := log + [Emission(sockets.Keys, UserOnline(h.user))];
      sid := Some(s);
    }

    /** `room:join`: only this socket enters the room, and no other room's
        members change. */
    method JoinRoom(s: SocketId, roomId: RoomId)
      requires Valid() && s in sockets
      modifies this
      ensures Valid()
      ensures rooms == old(rooms)[s := old(rooms)[s] + {roomId}]
      ensures registry == old(registry) && sockets == old(sockets)
      ensures pending == old(pending) && online == old(online) && log == old(log)
      ensures RoomMembers(roomId) == old(RoomMembers(roomId)) + {s}
      ensures forall r :: r != roomId ==> RoomMembers(r) == old(RoomMembers(r))
    {
      rooms := rooms[s := rooms[s] + {roomId}];
    }

    /** `room:leave`: only this socket leaves the room, and no other room's
        members change. */
    method LeaveRoom(s: SocketId, roomId: RoomId)
      requires Valid() && s in sockets
      modifies this
      ensures Valid()
      ensures rooms == old(rooms)[s := old(rooms)[s] - {roomId}]
      ensures registry == old(registry) && sockets == old(sockets)
      ensures pending == old(pending) && online == old(online) && log == old(log)
      ensures RoomMembers(roomId) == old(RoomMembers(roomId)) - {s}
      ensures forall r :: r != roomId ==> RoomMembers(r) == old(RoomMembers(r))
    {
      rooms := rooms[s := rooms[s] - {roomId}];
    }

    /** `message:room`: save, re-read, then one emission to every socket in
        the room, the sender included when it joined. A failed save stores
        and emits nothing; a failed re-read after the save emits nothing. */
    method SendRoomMessage(s: SocketId, roomId: RoomId, content: string, now: int,
                           saveOk: bool, fetchOk: bool) returns (stored: Option<Message>, emitted: bool)
      requires Valid() && s in sockets
      modifies this, store
      ensures Valid()
      ensures var m := NewMessage(|old(store.messages)|, content, old(sockets)[s].id, None, Some(roomId), now);
              stored == (if MessageValid(m) && saveOk then Some(m) else None)
      ensures stored.Some? ==> store.messages == old(store.messages) + [stored.value]
      ensures stored.None? ==> store.messages == old(store.messages)
      ensures emitted <==> stored.Some? && fetchOk
      ensures emitted ==> log == old(log) + [Emission(RoomMembers(roomId), RoomMessage(stored.value))]
      ensures !emitted ==> log == old(log)
      ensures registry == old(registry) && sockets == old(sockets) && rooms == old(rooms)
      ensures pending == old(pending) && online == old(online)
    {
      stored := store.Insert(content, sockets[s].id, None, Some(roomId), now, saveOk);
      emitted := stored.Some? && fetchOk;
      if emitted {
        log := log + [Emission(RoomMembers(roomId), RoomMessage(stored.value))];
      }
    }

    /** `message:private`: save, re-read, then one emission to the
        receiver's registered socket when there is one, and always one back
        to the sending socket. A failed save stores and emits nothing; a
        failed re-read after the save emits nothing. */
    method SendPrivateMessage(s: SocketId, receiverId: UserId, content: string, now: int,
                              saveOk: bool, fetchOk: bool) returns (stored: Option<Message>, emitted: bool)
      requires Valid() && s in sockets
      modifies this, store
      ensures Valid()
      ensures var m := NewMessage(|old(store.messages)|, content, old(sockets)[s].id, Some(receiverId), None, now);
              stored == (if MessageValid(m) && saveOk then Some(m) else None)
      ensures stored.Some? ==> store.messages == old(store.messages) + [stored.value]
      ensures stored.None? ==> store.messages == old(store.messages)
      ensures emitted <==> stored.Some? && fetchOk
      ensures emitted && receiverId in registry ==>
                log == old(log) + [Emission({registry[receiverId]}, PrivateMessage(stored.value)),
                                   Emission({s}, PrivateMessage(stored.value))]
      ensures emitted && receiverId !in registry ==>
                log == old(log) + [Emission({s}, PrivateMessage(stored.value))]
      ensures !emitted ==> log == old(log)
      ensures registry == old(registry) && sockets == old(sockets) && rooms == old(rooms)
      ensures pending == old(pending) && online == old(online)
    {
      stored := store.Insert(content, sockets[s].id, Some(receiverId), None, now, saveOk);
      emitted := stored.Some? && fetchOk;
      if emitted {
        if receiverId in registry {
          log := log + [Emission({registry[receiverId]}, PrivateMessage(stored.value))];
        }
        log := log + [Emission({s}, PrivateMessage(stored.value))];
      }
    }

    /** `typing:start` / `typing:stop`: a truthy `roomId` wins and goes to
        the room's other sockets; otherwise a truthy, registered
        `receiverId` gets it on its one socket; otherwise it is dropped.
        Nothing is stored. */
    method RelayTyping(s: SocketId, phase: Phase, roomId: Option<RoomId>, receiverId: Option<UserId>)
      requires Valid() && s in sockets
      modifies this
      ensures Valid()
      ensures Truthy(roomId) ==>
                log == old(log) + [Emission(RoomMembers(roomId.value) - {s},
                                            Typing(phase, old(sockets)[s], Some(roomId.value)))]
      ensures !Truthy(roomId) && Truthy(receiverId) && receiverId.value in registry ==>
                log == old(log) + [Emission({registry[receiverId.value]}, Typing(phase, old(sockets)[s], None))]
      ensures !Truthy(roomId) && !(Truthy(receiverId) && receiverId.value in registry) ==>
                log == old(log)
      ensures registry == old(registry) && sockets == old(sockets) && rooms == old(rooms)
      ensures pending == old(pending) && online == old(online)
    {
      if Truthy(roomId) {
        log := log + [Emission(RoomMembers(roomId.value) - {s}, Typing(phase, sockets[s], Some(roomId.value)))];
      } else if Truthy(receiverId) && receiverId.value in registry {
        log := log + [Emission({registry[receiverId.value]}, Typing(phase, sockets[s], None))];
      }
    }

    /** `disconnect`: the socket and its rooms go away, the user's registry
        entry is deleted whichever socket it names, and an offline check is
        scheduled. */
    method Disconnect(s: SocketId)
      requires Valid() && s in sockets
      modifies this
      ensures Valid()
      ensures registry == old(registry) - {old(sockets)[s].id}
      ensures sockets == old(sockets) - {s} && rooms == old(rooms) - {s}
      ensures pending == old(pending) + [old(sockets)[s].id]
      ensures online == old(online) && log == old(log)
      ensures forall r :: RoomMembers(r) == old(RoomMembers(r)) - {s}
    {
      var u := sockets[s].id;
      registry := registry - {u};
      sockets := sockets - {s};
      rooms := rooms - {s};
      pending := pending + [u];
    }

    /** The oldest scheduled check fires: the user goes offline, and every
        socket hears of it, iff the user is not registered at that moment. */
    method FireOffline() returns (user: UserId, wentOffline: bool)
      requires Valid() && pending != []
      modifies this
      ensures Valid()
      ensures user == old(pending)[0] && pending == old(pending)[1..]
      ensures wentOffline <==> user !in registry
      ensures wentOffline ==> online == old(online)[user := false]
                              && log == old(log) + [Emission(sockets.Keys, UserOffline(user))]
      ensures !wentOffline ==> online == old(online) && log == old(log)
      ensures registry == old(registry) && sockets == old(sockets) && rooms == old(rooms)
    {
      user := pending[0];
      pending := pending[1..];
      wentOffline := user !in registry;
      if wentOffline {
        online := online[user := false];
        log := log + [Emission(sockets.Keys, UserOffline(user))];
      }
    }
  }

  // ---------------------------------------------------------------- scenarios

  /** A page refresh: the old socket disconnects and the same user connects
      again before the check fires, so the check announces nothing and the
      user stays online. */
  method RefreshKeepsUserOnline(server: ChatServer, s: SocketId, token: Option<string>,
                                verify: Verification, lookup: Lookup)
    requires server.Valid() && s in server.sockets && server.pending == []
    requires Authenticate(token, verify, lookup).Accepted?
    requires Authenticate(token, verify, lookup).user.id == server.sockets[s].id
    modifies server
    ensures server.Valid()
    ensures var u := old(server.sockets)[s].id;
            u in server.registry && u in server.online && server.online[u]
            && forall i :: |old(server.log)| <= i < |server.log| ==> !server.log[i].event.UserOffline?
  {
    var u := server.sockets[s].id;
    server.Disconnect(s);
    var h, sid := server.Connect(token, verify, lookup);
    ghost var before := server.log;
    var fired, offline := server.FireOffline();
    assert fired == u && !offline;
    assert server.log == before;
  }

  /** Two tabs: the older tab closing deletes the entry of the newer one,
      so the check announces the user offline although a socket of theirs
      is still connected, and private messages no longer reach it. */
  method OlderTabClosing(server: ChatServer, older: SocketId, newer: SocketId)
    requires server.Valid() && server.pending == []
    requires older in server.sockets && newer in server.sockets && older != newer
    requires server.sockets[older].id == server.sockets[newer].id
    modifies server
    ensures server.Valid()
    ensures var u := old(server.sockets)[older].id;
            && newer in server.sockets && server.sockets[newer].id == u
            && u !in server.registry
            && u in server.online && !server.online[u]
            && |server.log| > 0 && server.log[|server.log| - 1].event == UserOffline(u)
  {
    server.Disconnect(older);
    var fired, offline := server.FireOffline();
  }
}
