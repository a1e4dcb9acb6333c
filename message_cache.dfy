/** The clients' message cache: message lists stored under string keys and
    changed only through updaters that receive the cached list, or `[]`
    when the key holds nothing. One client keys rooms and conversations as
    `room-messages-<id>` and `private-messages-<id>`, the other by the REST
    paths `/v1/rooms/<id>/messages` and `/v1/users/<id>/messages`. */
module MessageCache {
  import opened Common
  import opened ClientTypes

  type Cache = map<string, seq<ClientMessage>>

  /** The list an updater receives: the default parameter `[]` stands in
      for a key with no data. */
  function Current(cache: Cache, key: string): seq<ClientMessage> {
    if key in cache then cache[key] else []
  }

  /** `data || []`: a query without data shows no messages. */
  function MessagesOrEmpty(data: Option<seq<ClientMessage>>): (r: seq<ClientMessage>)
    ensures data.None? ==> r == []
    ensures data.Some? ==> r == data.value
  {
    match data
    case None => []
    case Some(list) => list
  }

  /** The list a query for `key` shows: `data || []` over the cached data. */
  function Shown(cache: Cache, key: string): seq<ClientMessage> {
    MessagesOrEmpty(if key in cache then Some(cache[key]) else None)
  }

  predicate HasMessage(list: seq<ClientMessage>, id: string) {
    exists i :: 0 <= i < |list| && list[i].id == id
  }

  /** No two cached messages share an id. */
  predicate UniqueMessageIds(list: seq<ClientMessage>) {
    forall i, j :: 0 <= i < j < |list| ==> list[i].id != list[j].id
  }

  predicate CacheUnique(cache: Cache) {
    forall k :: k in cache ==> UniqueMessageIds(cache[k])
  }

  /** The de-duplicating updater: the message is appended unless a cached
      message has its id. */
  function AppendUnique(list: seq<ClientMessage>, m: ClientMessage): (r: seq<ClientMessage>)
    ensures HasMessage(r, m.id)
    ensures list <= r && |r| <= |list| + 1
    ensures HasMessage(list, m.id) <==> r == list
    ensures UniqueMessageIds(list) ==> UniqueMessageIds(r)
  {
    if HasMessage(list, m.id) then list
    else
      assert (list + [m])[|list|] == m;
      list + [m]
  }

  /** A de-duplicating update of one key. */
  function Update(cache: Cache, key: string, m: ClientMessage): (r: Cache)
    ensures r.Keys == cache.Keys + {key}
    ensures forall k :: k in cache && k != key ==> r[k] == cache[k]
    ensures key in r && HasMessage(r[key], m.id)
    ensures Current(cache, key) <= r[key] && |r[key]| <= |Current(cache, key)| + 1
    ensures CacheUnique(cache) ==> CacheUnique(r)
  {
    cache[key := AppendUnique(Current(cache, key), m)]
  }

  /** An update for a message already listed under the key changes nothing. */
  lemma UpdateNoop(cache: Cache, key: string, m: ClientMessage)
    requires key in cache && HasMessage(cache[key], m.id)
    ensures Update(cache, key, m) == cache
  {
    assert Update(cache, key, m)[key] == cache[key];
  }

  /** The plain updater of the send hooks: the returned message is always
      appended. */
  function Append(cache: Cache, key: string, m: ClientMessage): (r: Cache)
    ensures r.Keys == cache.Keys + {key}
    ensures forall k :: k in cache && k != key ==> r[k] == cache[k]
    ensures Current(cache, key) <= r[key] && |r[key]| == |Current(cache, key)| + 1
    ensures r[key][|r[key]| - 1] == m
  {
    cache[key := Current(cache, key) + [m]]
  }

  function RoomKey(roomId: string): string { "room-messages-" + roomId }

  function PrivateKey(userId: string): string { "private-messages-" + userId }

  function RoomPath(roomId: string): string { "/v1/rooms/" + roomId + "/messages" }

  function UserPath(userId: string): string { "/v1/users/" + userId + "/messages" }

  /** Different rooms and different users never share a key, and a room
      key is never a conversation key. */
  lemma KeysDistinct(a: string, b: string)
    ensures RoomKey(a) == RoomKey(b) <==> a == b
    ensures PrivateKey(a) == PrivateKey(b) <==> a == b
    ensures RoomKey(a) != PrivateKey(b)
    ensures RoomPath(a) == RoomPath(b) <==> a == b
    ensures UserPath(a) == UserPath(b) <==> a == b
    ensures RoomPath(a) != UserPath(b)
  {
    if RoomKey(a) == RoomKey(b) {
      assert a == RoomKey(a)[14..];
    }
    if PrivateKey(a) == PrivateKey(b) {
      assert a == PrivateKey(a)[17..];
    }
    assert RoomKey(a)[0] != PrivateKey(b)[0];
    if RoomPath(a) == RoomPath(b) {
      assert |a| == |b|;
      assert a == RoomPath(a)[10..10 + |a|];
    }
    if UserPath(a) == UserPath(b) {
      assert |a| == |b|;
      assert a == UserPath(a)[10..10 + |a|];
    }
    assert RoomPath(a)[4] != UserPath(b)[4];
  }

  /** `addMessageToCache`: a de-duplicating update of the room's key when a
      room id is given, and of the conversation's key when a user id is
      given; nothing else changes. */
  function AddMessageToCache(cache: Cache, m: ClientMessage, roomId: Option<string>, userId: Option<string>)
    : (r: Cache)
    ensures r.Keys == cache.Keys
                      + (if Truthy(roomId) then {RoomKey(roomId.value)} else {})
                      + (if Truthy(userId) then {PrivateKey(userId.value)} else {})
    ensures forall k :: (k in cache && (Truthy(roomId) ==> k != RoomKey(roomId.value))
                         && (Truthy(userId) ==> k != PrivateKey(userId.value))) ==> r[k] == cache[k]
    ensures Truthy(roomId) ==> RoomKey(roomId.value) in r && HasMessage(r[RoomKey(roomId.value)], m.id)
    ensures Truthy(userId) ==> PrivateKey(userId.value) in r && HasMessage(r[PrivateKey(userId.value)], m.id)
    ensures CacheUnique(cache) ==> CacheUnique(r)
  {
    var withRoom := if Truthy(roomId) then Update(cache, RoomKey(roomId.value), m) else cache;
    if Truthy(userId) then
      KeysDistinct(if Truthy(roomId) then roomId.value else "", userId.value);
      Update(withRoom, PrivateKey(userId.value), m)
    else withRoom
  }

  /** After a delivery for a room, the room's query shows everything it
      showed before and then the message, added at most once; a room never
      loaded shows just that message, because the query's `[]` default and
      the updater's `[]` default agree. */
  lemma DeliveredMessageIsShown(cache: Cache, m: ClientMessage, roomId: string)
    requires roomId != ""
    ensures var r := AddMessageToCache(cache, m, Some(roomId), None);
            && Shown(cache, RoomKey(roomId)) <= Shown(r, RoomKey(roomId))
            && |Shown(r, RoomKey(roomId))| <= |Shown(cache, RoomKey(roomId))| + 1
            && HasMessage(Shown(r, RoomKey(roomId)), m.id)
            && (RoomKey(roomId) !in cache ==> Shown(r, RoomKey(roomId)) == [m])
  {
  }

  /** A message delivered twice is cached once. */
  lemma {:induction false} AddMessageToCacheIdempotent(cache: Cache, m: ClientMessage,
                                                       roomId: Option<string>, userId: Option<string>)
    ensures var once := AddMessageToCache(cache, m, roomId, userId);
            AddMessageToCache(once, m, roomId, userId) == once
  {
    var once := AddMessageToCache(cache, m, roomId, userId);
    if Truthy(roomId) {
      UpdateNoop(once, RoomKey(roomId.value), m);
    }
    if Truthy(userId) {
      UpdateNoop(once, PrivateKey(userId.value), m);
    }
  }

  /** The two updaters compose: a message the send hooks' plain append has
      listed is absorbed by a later socket delivery of the same message. */
  lemma DeliveryAfterAppendIsAbsorbed(cache: Cache, roomId: string, m: ClientMessage)
    requires roomId != ""
    ensures var sent := Append(cache, RoomKey(roomId), m);
            AddMessageToCache(sent, m, Some(roomId), None) == sent
  {
    var sent := Append(cache, RoomKey(roomId), m);
    assert sent[RoomKey(roomId)][|sent[RoomKey(roomId)]| - 1] == m;
  }

  /** The plain append does not de-duplicate: sending the same message
      twice lists it twice. */
  lemma AppendTwiceDuplicates(cache: Cache, key: string, m: ClientMessage)
    ensures var twice := Append(Append(cache, key, m), key, m);
            |twice[key]| == |Current(cache, key)| + 2
            && twice[key][|twice[key]| - 1] == twice[key][|twice[key]| - 2] == m
  {
  }

  /** `message.sender_id === user.id`: strict equality, so a populated
      sender document never equals an id. */
  predicate SentBy(m: ClientMessage, me: string) {
    m.senderId == Some(SenderId(me))
  }

  /** `message.sender_id` where it is used as an id in a key. An object is
      truthy and prints as `[object Object]`; a plain id is truthy iff it is
      not empty, exactly like its text. */
  function SenderKeyText(m: ClientMessage): (r: Option<string>)
    ensures m.senderId.None? <==> r.None?
    ensures m.senderId.Some? && m.senderId.value.SenderProfile? ==> r == Some(ObjectText)
    ensures m.senderId.Some? && m.senderId.value.SenderId? ==> r == Some(m.senderId.value.id)
  {
    match m.senderId
    case None => None
    case Some(s) => Some(SenderText(s))
  }

  /** The conversation a `message:private` event belongs to in the client
      that uses `addMessageToCache`: the receiver when I sent it, else the
      sender when I received it. A missing id there updates nothing. */
  function PrivateTarget(me: string, m: ClientMessage): Option<string> {
    if SentBy(m, me) then m.receiverId
    else if m.receiverId == Some(me) then SenderKeyText(m)
    else None
  }

  /** The same choice in the client that tests the other party's id before
      choosing its branch. */
  function GuardedPrivateTarget(me: string, m: ClientMessage): (r: Option<string>)
    ensures r.Some? ==> Truthy(r)
    ensures r.Some? ==> (SentBy(m, me) && m.receiverId == r)
                        || (m.receiverId == Some(me) && SenderKeyText(m) == r)
    ensures r.None? <==> !(SentBy(m, me) && Truthy(m.receiverId))
                         && !(m.receiverId == Some(me) && Truthy(SenderKeyText(m)))
  {
    if SentBy(m, me) && Truthy(m.receiverId) then m.receiverId
    else if m.receiverId == Some(me) && Truthy(SenderKeyText(m)) then SenderKeyText(m)
    else None
  }

  /** The two clients pick the same conversation for every message: the
      extra guards only drop ids that `addMessageToCache` ignores anyway. */
  lemma PrivateTargetsAgree(me: string, m: ClientMessage)
    ensures var t := PrivateTarget(me, m);
            (if Truthy(t) then t else None) == GuardedPrivateTarget(me, m)
  {
  }

  /** `message:room` in the client that uses `addMessageToCache`. */
  function OnRoomMessage(cache: Cache, m: ClientMessage): (r: Cache)
    ensures Truthy(m.roomId) ==> RoomKey(m.roomId.value) in r && HasMessage(r[RoomKey(m.roomId.value)], m.id)
    ensures !Truthy(m.roomId) ==> r == cache
    ensures CacheUnique(cache) ==> CacheUnique(r)
  {
    AddMessageToCache(cache, m, m.roomId, None)
  }

  /** `message:private` in the client that uses `addMessageToCache`. */
  function OnPrivateMessage(cache: Cache, me: string, m: ClientMessage): (r: Cache)
    ensures var t := GuardedPrivateTarget(me, m);
            t.Some? ==> PrivateKey(t.value) in r && HasMessage(r[PrivateKey(t.value)], m.id)
    ensures GuardedPrivateTarget(me, m).None? ==> r == cache
    ensures CacheUnique(cache) ==> CacheUnique(r)
  {
    PrivateTargetsAgree(me, m);
    AddMessageToCache(cache, m, None, PrivateTarget(me, m))
  }

  /** `message:room` in the client keyed by REST paths: the room's list is
      touched only when the message names a room. */
  function OnRoomMessageByPath(cache: Cache, m: ClientMessage): (r: Cache)
    ensures Truthy(m.roomId) ==> RoomPath(m.roomId.value) in r && HasMessage(r[RoomPath(m.roomId.value)], m.id)
    ensures Truthy(m.roomId) ==> forall k :: k in cache && k != RoomPath(m.roomId.value) ==> k in r && r[k] == cache[k]
    ensures !Truthy(m.roomId) ==> r == cache
    ensures CacheUnique(cache) ==> CacheUnique(r)
  {
    if Truthy(m.roomId) then Update(cache, RoomPath(m.roomId.value), m) else cache
  }

  /** `message:private` in the client keyed by REST paths. */
  function OnPrivateMessageByPath(cache: Cache, me: string, m: ClientMessage): (r: Cache)
    ensures var t := GuardedPrivateTarget(me, m);
            t.Some? ==> UserPath(t.value) in r && HasMessage(r[UserPath(t.value)], m.id)
                        && forall k :: k in cache && k != UserPath(t.value) ==> k in r && r[k] == cache[k]
    ensures GuardedPrivateTarget(me, m).None? ==> r == cache
    ensures CacheUnique(cache) ==> CacheUnique(r)
  {
    match GuardedPrivateTarget(me, m)
    case Some(other) => Update(cache, UserPath(other), m)
    case None => cache
  }

  /** Both clients file a private message under the same conversation,
      each with its own key: the lists there end up holding the message. */
  lemma BothClientsFileTheSameConversation(cache: Cache, byPath: Cache, me: string, m: ClientMessage)
    requires GuardedPrivateTarget(me, m).Some?
    ensures var other := GuardedPrivateTarget(me, m).value;
            var viaHook := OnPrivateMessage(cache, me, m);
            var viaPath := OnPrivateMessageByPath(byPath, me, m);
            PrivateKey(other) in viaHook && HasMessage(viaHook[PrivateKey(other)], m.id)
            && UserPath(other) in viaPath && HasMessage(viaPath[UserPath(other)], m.id)
  {
  }

  // ------------------------------------------- the server's populated sender

  /** The sender's id, whether `sender_id` holds it or holds the sender's
      document. */
  function SenderIdOf(m: ClientMessage): Option<string> {
    match m.senderId
    case None => None
    case Some(s) => Some(s.id)
  }

  /** The message as the handlers evidently expect it: `sender_id` reduced
      to the sender's id, everything else kept. */
  function WithSenderId(m: ClientMessage): (r: ClientMessage)
    ensures r.id == m.id && r.receiverId == m.receiverId && r.roomId == m.roomId
    ensures SenderIdOf(r) == SenderIdOf(m)
    ensures r.senderId.Some? ==> r.senderId.value.SenderId?
  {
    m.(senderId := match m.senderId case None => None case Some(s) => Some(SenderId(s.id)))
  }

  /** What the server sends: a private message between two different users
      whose `sender_id` is the populated sender document. Its sender's own
      echo is cached nowhere, in either client, and its receiver files it
      under `[object Object]`; the conversation with the real sender id is
      left as it was. */
  lemma PopulatedSenderIsMisfiled(cache: Cache, byPath: Cache, m: ClientMessage,
                                  sender: string, receiver: string)
    requires m.senderId.Some? && m.senderId.value.SenderProfile?
    requires SenderIdOf(m) == Some(sender) && m.receiverId == Some(receiver)
    requires sender != receiver && sender != ObjectText
    ensures OnPrivateMessage(cache, sender, m) == cache
    ensures OnPrivateMessageByPath(byPath, sender, m) == byPath
    ensures var atReceiver := OnPrivateMessage(cache, receiver, m);
            && PrivateKey(ObjectText) in atReceiver && HasMessage(atReceiver[PrivateKey(ObjectText)], m.id)
            && Current(atReceiver, PrivateKey(sender)) == Current(cache, PrivateKey(sender))
    ensures var atReceiver := OnPrivateMessageByPath(byPath, receiver, m);
            && UserPath(ObjectText) in atReceiver && HasMessage(atReceiver[UserPath(ObjectText)], m.id)
            && Current(atReceiver, UserPath(sender)) == Current(byPath, UserPath(sender))
  {
    assert GuardedPrivateTarget(sender, m).None?;
    assert GuardedPrivateTarget(receiver, m) == Some(ObjectText);
    KeysDistinct(sender, ObjectText);
  }

  /** Comparing the sender's id instead files every private message the
      server sends under the other party's conversation in both clients:
      the receiver's at the sender, the sender's at the receiver. */
  lemma SenderIdFilesTheConversation(cache: Cache, byPath: Cache, m: ClientMessage,
                                     sender: string, receiver: string)
    requires SenderIdOf(m) == Some(sender) && m.receiverId == Some(receiver)
    requires sender != "" && receiver != ""
    ensures var atSender := OnPrivateMessage(cache, sender, WithSenderId(m));
            PrivateKey(receiver) in atSender && HasMessage(atSender[PrivateKey(receiver)], m.id)
    ensures var atReceiver := OnPrivateMessage(cache, receiver, WithSenderId(m));
            PrivateKey(sender) in atReceiver && HasMessage(atReceiver[PrivateKey(sender)], m.id)
    ensures var atSender := OnPrivateMessageByPath(byPath, sender, WithSenderId(m));
            UserPath(receiver) in atSender && HasMessage(atSender[UserPath(receiver)], m.id)
    ensures var atReceiver := OnPrivateMessageByPath(byPath, receiver, WithSenderId(m));
            UserPath(sender) in atReceiver && HasMessage(atReceiver[UserPath(sender)], m.id)
  {
    var n := WithSenderId(m);
    assert SentBy(n, sender);
    assert GuardedPrivateTarget(sender, n) == Some(receiver);
    if sender != receiver {
      assert GuardedPrivateTarget(receiver, n) == Some(sender);
    }
  }
}
