/** The message collection and the REST message handlers that query and
    change it. The database is an in-memory sequence of documents; a failed
    database call (an ill-formed ObjectId, a lost connection) is an input
    flag, the `createdAt` timestamp of an insert is the caller's clock
    reading, and the order of a query's answer is an input too. */
module MessageStore {
  import opened Common
  import opened Models
  import opened Sequences
  import Validator

  /** Oldest first on `createdAt`, the timestamp the schema's
      `timestamps: true` writes. This is the order the handlers evidently
      intend; their `.sort({ created_at: 1 })` names a field no document
      carries, so under it every pair of documents ties. */
  predicate CreatedNoLater(a: Message, b: Message) {
    a.createdAt <= b.createdAt
  }

  lemma CreatedOrderTotal()
    ensures Total(CreatedNoLater)
  {
  }

  /** `{ room_id: roomId }`. */
  predicate InRoom(roomId: RoomId, m: Message) {
    m.roomId == Some(roomId)
  }

  /** `{ room_id: null, $or: [{me -> other}, {other -> me}] }`. */
  predicate InConversation(me: UserId, other: UserId, m: Message) {
    && m.roomId.None?
    && ((m.senderId == me && m.receiverId == Some(other))
        || (m.senderId == other && m.receiverId == Some(me)))
  }

  /** `{ room_id: null, sender_id: other, receiver_id: me, is_read: false }`. */
  predicate UnreadFromTo(other: UserId, me: UserId, m: Message) {
    m.roomId.None? && m.senderId == other && m.receiverId == Some(me) && !m.isRead
  }

  /** What `getRoomMessages`' query may return as written: the room's
      messages in whatever order the database produces, since the sort key
      ties for every document. */
  predicate RoomAnswer(s: seq<Message>, roomId: RoomId, answer: seq<Message>) {
    multiset(answer) == multiset(Filter(s, m => InRoom(roomId, m)))
  }

  /** What `getPrivateMessages`' query may return as written. */
  predicate ConversationAnswer(s: seq<Message>, me: UserId, other: UserId, answer: seq<Message>) {
    multiset(answer) == multiset(Filter(s, m => InConversation(me, other, m)))
  }

  /** The room query as intended: the room's messages, oldest first. */
  function RoomMessagesOf(s: seq<Message>, roomId: RoomId): seq<Message> {
    SortBy(Filter(s, m => InRoom(roomId, m)), CreatedNoLater)
  }

  /** The conversation query as intended. */
  function ConversationOf(s: seq<Message>, me: UserId, other: UserId): seq<Message> {
    SortBy(Filter(s, m => InConversation(me, other, m)), CreatedNoLater)
  }

  /** `updateMany(..., { is_read: true })`. */
  function MarkRead(s: seq<Message>, me: UserId, other: UserId): (r: seq<Message>)
    ensures |r| == |s|
  {
    seq(|s|, i requires 0 <= i < |s| =>
      if UnreadFromTo(other, me, s[i]) then s[i].(isRead := true) else s[i])
  }

  /** Any answer of the room query holds exactly the room's messages, each
      as often as it is stored. */
  lemma RoomAnswerSpec(s: seq<Message>, roomId: RoomId, answer: seq<Message>)
    requires RoomAnswer(s, roomId, answer)
    ensures forall m :: m in answer <==> m in s && m.roomId == Some(roomId)
    ensures multiset(answer) == multiset(RoomMessagesOf(s, roomId))
  {
    var f := Filter(s, m => InRoom(roomId, m));
    SortBySorted(f, CreatedNoLater);
    forall m ensures m in answer <==> m in f {
      assert m in answer <==> m in multiset(f);
    }
  }

  /** Any answer of the conversation query holds exactly the room-less
      messages between the two users in either direction. */
  lemma ConversationAnswerSpec(s: seq<Message>, me: UserId, other: UserId, answer: seq<Message>)
    requires ConversationAnswer(s, me, other, answer)
    ensures forall m :: m in answer <==>
              m in s && m.roomId.None?
              && ((m.senderId == me && m.receiverId == Some(other))
                  || (m.senderId == other && m.receiverId == Some(me)))
    ensures multiset(answer) == multiset(ConversationOf(s, me, other))
  {
    var f := Filter(s, m => InConversation(me, other, m));
    SortBySorted(f, CreatedNoLater);
    forall m ensures m in answer <==> m in f {
      assert m in answer <==> m in multiset(f);
    }
  }

  /** The intended room query returns exactly the room's messages, oldest
      first, and is one of the answers the query as written may give. */
  lemma RoomMessagesSpec(s: seq<Message>, roomId: RoomId)
    ensures Sorted(RoomMessagesOf(s, roomId), CreatedNoLater)
    ensures RoomAnswer(s, roomId, RoomMessagesOf(s, roomId))
    ensures forall m :: m in RoomMessagesOf(s, roomId) <==> m in s && m.roomId == Some(roomId)
  {
    SortBySorted(Filter(s, m => InRoom(roomId, m)), CreatedNoLater);
    RoomAnswerSpec(s, roomId, RoomMessagesOf(s, roomId));
  }

  /** The intended conversation query returns exactly the conversation,
      each message as often as it is stored, oldest first. */
  lemma ConversationSpec(s: seq<Message>, me: UserId, other: UserId)
    ensures Sorted(ConversationOf(s, me, other), CreatedNoLater)
    ensures ConversationAnswer(s, me, other, ConversationOf(s, me, other))
    ensures multiset(ConversationOf(s, me, other))
              == multiset(Filter(s, m => InConversation(me, other, m)))
    ensures forall m :: m in ConversationOf(s, me, other) <==>
              m in s && m.roomId.None?
              && ((m.senderId == me && m.receiverId == Some(other))
                  || (m.senderId == other && m.receiverId == Some(me)))
  {
    SortBySorted(Filter(s, m => InConversation(me, other, m)), CreatedNoLater);
    ConversationAnswerSpec(s, me, other, ConversationOf(s, me, other));
  }

  /** As written, a room query may answer out of creation order: of two
      messages of a room saved one after the other, the later may come
      first, which the intended query never returns. */
  lemma UnorderedRoomAnswer(m1: Message, m2: Message, roomId: RoomId)
    requires m1.roomId == Some(roomId) && m2.roomId == Some(roomId)
    requires m1.createdAt < m2.createdAt
    ensures RoomAnswer([m1, m2], roomId, [m2, m1])
    ensures !Sorted([m2, m1], CreatedNoLater)
    ensures [m2, m1] != RoomMessagesOf([m1, m2], roomId)
  {
    FilterAll([m1, m2], m => InRoom(roomId, m));
    assert multiset([m2, m1]) == multiset([m1, m2]);
    assert !CreatedNoLater([m2, m1][0], [m2, m1][1]);
    RoomMessagesSpec([m1, m2], roomId);
  }

  /** As written, a conversation may likewise come back newest first. */
  lemma UnorderedConversationAnswer(m1: Message, m2: Message, me: UserId, other: UserId)
    requires InConversation(me, other, m1) && InConversation(me, other, m2)
    requires m1.createdAt < m2.createdAt
    ensures ConversationAnswer([m1, m2], me, other, [m2, m1])
    ensures !Sorted([m2, m1], CreatedNoLater)
    ensures [m2, m1] != ConversationOf([m1, m2], me, other)
  {
    FilterAll([m1, m2], m => InConversation(me, other, m));
    assert multiset([m2, m1]) == multiset([m1, m2]);
    assert !CreatedNoLater([m2, m1][0], [m2, m1][1]);
    ConversationSpec([m1, m2], me, other);
  }

  /** Either participant asking gets the same list. */
  lemma ConversationSymmetric(s: seq<Message>, me: UserId, other: UserId, answer: seq<Message>)
    ensures ConversationAnswer(s, me, other, answer) <==> ConversationAnswer(s, other, me, answer)
    ensures ConversationOf(s, me, other) == ConversationOf(s, other, me)
  {
    FilterCongruent(s, m => InConversation(me, other, m), m => InConversation(other, me, m));
  }

  /** After marking, every room-less message from `other` to `me` is read;
      every other message, including those from `me` to `other`, is as it
      was; and only the read flag ever changes. */
  lemma MarkReadEffect(s: seq<Message>, me: UserId, other: UserId, i: int)
    requires 0 <= i < |s|
    ensures var r := MarkRead(s, me, other);
            && r[i].(isRead := s[i].isRead) == s[i]
            && (s[i].roomId.None? && s[i].senderId == other && s[i].receiverId == Some(me) ==> r[i].isRead)
            && (!(s[i].roomId.None? && s[i].senderId == other && s[i].receiverId == Some(me)) ==> r[i] == s[i])
  {
  }

  /** Marking twice is marking once. */
  lemma MarkReadIdempotent(s: seq<Message>, me: UserId, other: UserId)
    ensures MarkRead(MarkRead(s, me, other), me, other) == MarkRead(s, me, other)
  {
  }

  /** Marking changes only `is_read`, so every message keeps its id and
      still passes the schema. */
  lemma MarkReadKeepsStore(s: seq<Message>, me: UserId, other: UserId)
    requires forall i :: 0 <= i < |s| ==> s[i].id == i && MessageValid(s[i])
    ensures var r := MarkRead(s, me, other);
            forall i :: 0 <= i < |r| ==> r[i].id == i && MessageValid(r[i])
  {
  }

  /** Content that passed `validateCreateMessage` always satisfies the
      schema's content rule, since trimming never lengthens a string. The
      converse fails: the schema measures the trimmed text. */
  lemma ValidatedContentIsStorable(content: string)
    requires Validator.ValidateCreateMessage(Validator.Text(content)).Next?
    ensures ContentValid(Trim(content))
  {
  }

  class MessageStore {
    var messages: seq<Message>

    /** Document ids are positions, and only documents that passed the
        schema are stored. */
    ghost predicate Valid()
      reads this
    {
      && (forall i :: 0 <= i < |messages| ==> messages[i].id == i)
      && (forall i :: 0 <= i < |messages| ==> MessageValid(messages[i]))
    }

    constructor ()
      ensures Valid() && messages == []
    {
      messages := [];
    }

    /** `new Message({...}).save()`: the document is built by the schema's
        setters and stored iff it passes the schema and the database
        accepts it. */
    method Insert(content: string, sender: UserId, receiver: Option<UserId>,
                  room: Option<RoomId>, now: int, dbOk: bool) returns (saved: Option<Message>)
      requires Valid()
      modifies this
      ensures Valid()
      ensures var m := NewMessage(|old(messages)|, content, sender, receiver, room, now);
              saved == (if MessageValid(m) && dbOk then Some(m) else None)
      ensures saved.Some? ==> messages == old(messages) + [saved.value]
      ensures saved.None? ==> messages == old(messages)
      ensures saved.Some? ==> !saved.value.isRead && saved.value.content == Trim(content)
    {
      var m := NewMessage(|messages|, content, sender, receiver, room, now);
      if MessageValid(m) && dbOk {
        messages := messages + [m];
        saved := Some(m);
      } else {
        saved := None;
      }
    }

    /** `getRoomMessages`: 200 with the room's messages, or 500. `returned`
        is the order in which the database hands back the matches; since
        the sort key ties for every document, any order of them may come. */
    method GetRoomMessages(roomId: RoomId, dbOk: bool, returned: seq<Message>)
      returns (r: Response<seq<Message>>)
      requires dbOk ==> RoomAnswer(messages, roomId, returned)
      ensures !dbOk ==> r == Response(500, "Server error", None)
      ensures dbOk ==> r.status == 200 && r.data.Some?
      ensures dbOk ==> forall m :: m in r.data.value <==> m in messages && m.roomId == Some(roomId)
      ensures dbOk ==> multiset(r.data.value) == multiset(RoomMessagesOf(messages, roomId))
    {
      if !dbOk {
        return Response(500, "Server error", None);
      }
      RoomAnswerSpec(messages, roomId, returned);
      r := Response(200, "", Some(returned));
    }

    /** `getPrivateMessages`: the conversation as it was before the call, in
        the order the database returns it, then every unread room-less
        message from `other` to `me` marked read. */
    method GetPrivateMessages(me: UserId, other: UserId, dbOk: bool, returned: seq<Message>)
      returns (r: Response<seq<Message>>)
      requires Valid()
      requires dbOk ==> ConversationAnswer(messages, me, other, returned)
      modifies this
      ensures Valid()
      ensures !dbOk ==> r == Response(500, "Server error", None) && messages == old(messages)
      ensures dbOk ==> r.status == 200 && r.data.Some?
      ensures dbOk ==> forall m :: m in r.data.value <==> m in old(messages) && InConversation(me, other, m)
      ensures dbOk ==> multiset(r.data.value) == multiset(ConversationOf(old(messages), me, other))
      ensures dbOk ==> messages == MarkRead(old(messages), me, other)
    {
      if !dbOk {
        return Response(500, "Server error", None);
      }
      ConversationAnswerSpec(messages, me, other, returned);
      MarkReadKeepsStore(messages, me, other);
      messages := MarkRead(messages, me, other);
      r := Response(200, "", Some(returned));
    }

    /** `createRoomMessage`: stores sender and room, no receiver. The
        populated re-read may fail after the insert, in which case the
        message stays stored and the answer is 500; a schema violation or a
        failed save stores nothing. */
    method CreateRoomMessage(sender: UserId, roomId: RoomId, content: string, now: int,
                             saveOk: bool, fetchOk: bool) returns (r: Response<Message>)
      requires Valid()
      modifies this
      ensures Valid()
      ensures |old(messages)| <= |messages| <= |old(messages)| + 1
      ensures messages[..|old(messages)|] == old(messages)
      ensures r.status == 201 ==> r.data.Some? && messages == old(messages) + [r.data.value]
      ensures r.status == 201 ==> var m := r.data.value;
              m.senderId == sender && m.roomId == Some(roomId) && m.receiverId.None? && !m.isRead
              && m.content == Trim(content)
      ensures r.status != 201 ==> r == Response(500, "Server error", None)
      ensures (MessageValid(NewMessage(|old(messages)|, content, sender, None, Some(roomId), now))
               && saveOk && fetchOk) <==> r.status == 201
      ensures var m := NewMessage(|old(messages)|, content, sender, None, Some(roomId), now);
              messages == old(messages) + (if MessageValid(m) && saveOk then [m] else [])
    {
      ghost var m := NewMessage(|messages|, content, sender, None, Some(roomId), now);
      var saved := Insert(content, sender, None, Some(roomId), now, saveOk);
      assert messages == old(messages) + (if MessageValid(m) && saveOk then [m] else []);
      if saved.Some? && fetchOk {
        r := Response(201, "Message sent successfully", saved);
      } else {
        r := Response(500, "Server error", None);
      }
    }

    /** `createPrivateMessage`: stores sender and receiver, no room; the
        store after a failed re-read or save is as for `createRoomMessage`. */
    method CreatePrivateMessage(sender: UserId, receiver: UserId, content: string, now: int,
                                saveOk: bool, fetchOk: bool) returns (r: Response<Message>)
      requires Valid()
      modifies this
      ensures Valid()
      ensures |old(messages)| <= |messages| <= |old(messages)| + 1
      ensures messages[..|old(messages)|] == old(messages)
      ensures r.status == 201 ==> r.data.Some? && messages == old(messages) + [r.data.value]
      ensures r.status == 201 ==> var m := r.data.value;
              m.senderId == sender && m.receiverId == Some(receiver) && m.roomId.None? && !m.isRead
              && m.content == Trim(content)
      ensures r.status != 201 ==> r == Response(500, "Server error", None)
      ensures (MessageValid(NewMessage(|old(messages)|, content, sender, Some(receiver), None, now))
               && saveOk && fetchOk) <==> r.status == 201
      ensures var m := NewMessage(|old(messages)|, content, sender, Some(receiver), None, now);
              messages == old(messages) + (if MessageValid(m) && saveOk then [m] else [])
    {
      ghost var m := NewMessage(|messages|, content, sender, Some(receiver), None, now);
      var saved := Insert(content, sender, Some(receiver), None, now, saveOk);
      assert messages == old(messages) + (if MessageValid(m) && saveOk then [m] else []);
      if saved.Some? && fetchOk {
        r := Response(201, "Private message sent successfully", saved);
      } else {
        r := Response(500, "Server error", None);
      }
    }

    /** `POST /room/:roomId`: `validateCreateMessage` runs before
        `createRoomMessage`. A rejected body is answered 400 with the
        validator's message and stores nothing. Content that passes is
        never refused by the schema, so the save alone decides whether the
        message is stored, and the save and the re-read whether the answer
        is 201 or 500. */
    method PostRoomMessage(sender: UserId, roomId: RoomId, content: Validator.Field, now: int,
                           saveOk: bool, fetchOk: bool) returns (r: Response<Message>)
      requires Valid()
      modifies this
      ensures Valid()
      ensures Validator.ValidateCreateMessage(content).Reject? ==>
                r == Response(400, Validator.ValidateCreateMessage(content).message, None)
                && messages == old(messages)
      ensures Validator.ValidateCreateMessage(content).Next? ==> (r.status == 201 <==> saveOk && fetchOk)
      ensures r.status == 201 ==>
                content.Text? && r.data.Some? && messages == old(messages) + [r.data.value]
                && r.data.value.content == Trim(content.text) && r.data.value.roomId == Some(roomId)
      ensures Validator.ValidateCreateMessage(content).Next? ==>
                content.Text?
                && var m := NewMessage(|old(messages)|, content.text, sender, None, Some(roomId), now);
                   messages == old(messages) + (if saveOk then [m] else [])
    {
      var verdict := Validator.ValidateCreateMessage(content);
      if verdict.Reject? {
        return Response(400, verdict.message, None);
      }
      ValidatedContentIsStorable(content.text);
      r := CreateRoomMessage(sender, roomId, content.text, now, saveOk, fetchOk);
    }

    /** `POST /private/:userId`: the same validator before
        `createPrivateMessage`. */
    method PostPrivateMessage(sender: UserId, receiver: UserId, content: Validator.Field, now: int,
                              saveOk: bool, fetchOk: bool) returns (r: Response<Message>)
      requires Valid()
      modifies this
      ensures Valid()
      ensures Validator.ValidateCreateMessage(content).Reject? ==>
                r == Response(400, Validator.ValidateCreateMessage(content).message, None)
                && messages == old(messages)
      ensures Validator.ValidateCreateMessage(content).Next? ==> (r.status == 201 <==> saveOk && fetchOk)
      ensures r.status == 201 ==>
                content.Text? && r.data.Some? && messages == old(messages) + [r.data.value]
                && r.data.value.content == Trim(content.text) && r.data.value.receiverId == Some(receiver)
      ensures Validator.ValidateCreateMessage(content).Next? ==>
                content.Text?
                && var m := NewMessage(|old(messages)|, content.text, sender, Some(receiver), None, now);
                   messages == old(messages) + (if saveOk then [m] else [])
    {
      var verdict := Validator.ValidateCreateMessage(content);
      if verdict.Reject? {
        return Response(400, verdict.message, None);
      }
      ValidatedContentIsStorable(content.text);
      r := CreatePrivateMessage(sender, receiver, content.text, now, saveOk, fetchOk);
    }
  }
}
