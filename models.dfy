/** The three persisted entities and the constraints their Mongoose schemas
    declare. A schema runs its setters (`trim`, `lowercase`) when a document
    is built and its validators (`required`, `minlength`, `maxlength`,
    `match`) on save; `New*` builds a document, `*Valid` is what save
    accepts. */
module Models {
  import opened Common
  import Validator

  type UserId = string
  type RoomId = string

  /** A response of a REST handler: status code, message, optional payload. */
  datatype Response<T> = Response(status: int, message: string, data: Option<T>)

  // ---------------------------------------------------------------- Message

  const MaxContentLength := 1000

  /** A stored message; `id` is the document id and `createdAt` the
      timestamp Mongoose sets on insert. */
  datatype Message = Message(
    id: nat,
    content: string,
    senderId: UserId,
    receiverId: Option<UserId>,
    roomId: Option<RoomId>,
    isRead: bool,
    createdAt: int)

  /** The document `new Message({...})` builds: content trimmed, `is_read`
      at its default. */
  function NewMessage(id: nat, content: string, sender: UserId,
                      receiver: Option<UserId>, room: Option<RoomId>, now: int): Message
  {
    Message(id, Trim(content), sender, receiver, room, false, now)
  }

  /** `required: true` and `maxlength: 1000`, checked on the trimmed value. */
  predicate ContentValid(content: string) {
    content != "" && |content| <= MaxContentLength
  }

  /** `receiver_id` is required when `room_id` is not set ... */
  predicate ReceiverRequired(m: Message) { m.roomId.None? }

  /** ... and `room_id` is required when `receiver_id` is not set. */
  predicate RoomRequired(m: Message) { m.receiverId.None? }

  predicate AddressValid(m: Message) {
    (ReceiverRequired(m) ==> m.receiverId.Some?) && (RoomRequired(m) ==> m.roomId.Some?)
  }

  /** What `save()` accepts for a message (`sender_id` is always supplied). */
  predicate MessageValid(m: Message) {
    ContentValid(m.content) && AddressValid(m)
  }

  /** The two mutual `required` rules together demand at least one address
      and allow both. */
  lemma AddressRule(m: Message)
    ensures AddressValid(m) <==> m.roomId.Some? || m.receiverId.Some?
    ensures m.roomId.Some? && m.receiverId.Some? ==> AddressValid(m)
  {
  }

  /** Content passes the schema iff it is not blank and at most 1000
      characters remain after trimming. */
  lemma {:induction false} ContentRule(content: string)
    ensures ContentValid(Trim(content)) <==> !IsBlank(content) && |Trim(content)| <= MaxContentLength
  {
    TrimEmptyIffBlank(content);
  }

  /** A newly built message saves iff its content is not blank, at most
      1000 characters remain after trimming, and it names a room or a
      receiver; it starts unread. */
  lemma NewMessageRule(id: nat, content: string, sender: UserId,
                       receiver: Option<UserId>, room: Option<RoomId>, now: int)
    ensures MessageValid(NewMessage(id, content, sender, receiver, room, now)) <==>
              !IsBlank(content) && |Trim(content)| <= MaxContentLength
              && (room.Some? || receiver.Some?)
    ensures !NewMessage(id, content, sender, receiver, room, now).isRead
  {
    ContentRule(content);
    AddressRule(NewMessage(id, content, sender, receiver, room, now));
  }

  // ------------------------------------------------------------------- User

  const DefaultProfilePicture :=
    "https://res.cloudinary.com/demo/image/upload/v1580125066/samples/people/default-profile.jpg"

  datatype User = User(
    username: string,
    email: string,
    password: string,
    profilePicture: string,
    isOnline: bool)

  /** The document `new User({...})` builds: username trimmed, email trimmed
      and lower-cased, `profile_picture` and `is_online` at their defaults
      when not given. */
  function NewUser(username: string, email: string, password: string,
                   profilePicture: Option<string>): (u: User)
    ensures !u.isOnline
    ensures profilePicture.None? ==> u.profilePicture == DefaultProfilePicture
    ensures u.username == Trim(username) && u.password == password
    ensures u.email == ToLower(Trim(email))
  {
    User(Trim(username), ToLower(Trim(email)), password,
         match profilePicture case Some(p) => p case None => DefaultProfilePicture,
         false)
  }

  predicate IsSep(c: char) { c == '.' || c == '-' }

  /** Strings matching `\w+([.-]?\w+)*`: word characters, where a single
      `.` or `-` may stand between two word characters. */
  predicate DottedWords(s: string) {
    && s != []
    && IsWordChar(s[0])
    && IsWordChar(s[|s| - 1])
    && (forall i :: 0 <= i < |s| ==> IsWordChar(s[i]) || IsSep(s[i]))
    && (forall i :: 0 < i < |s| ==> !(IsSep(s[i - 1]) && IsSep(s[i])))
  }

  /** Strings matching `\w+([.-]?\w+)*(\.\w{2,3})+`. The last group is a
      `.` followed by two or three word characters and the part before it
      matches `\w+([.-]?\w+)*`, so a match is exactly a dotted-words string
      whose final `.` is followed by two or three word characters. */
  predicate EmailDomain(d: string) {
    && DottedWords(d)
    && exists k :: 0 < k < |d| && d[k] == '.' && 2 <= |d| - k - 1 <= 3
                   && forall j :: k < j < |d| ==> IsWordChar(d[j])
  }

  /** `/^\w+([.-]?\w+)*@\w+([.-]?\w+)*(\.\w{2,3})+$/`. */
  predicate EmailPattern(s: string) {
    exists at :: 0 < at < |s| && s[at] == '@' && DottedWords(s[..at]) && EmailDomain(s[at + 1..])
  }

  /** What `save()` accepts for a user: username of 3 to 30 characters,
      email matching the pattern, password of at least 6 characters. */
  predicate UserValid(u: User) {
    3 <= |u.username| <= 30 && EmailPattern(u.email) && |u.password| >= 6
  }

  /** A registration the route validator lets through builds a user that
      saves exactly when its normalised email matches the schema's pattern:
      the username is kept as typed (word characters carry no blanks for the
      `trim` setter to cut) and lies within the schema's 3..30, and the
      password meets the schema's minimum. The user starts offline. */
  lemma RegisteredUserSaves(username: string, email: string, password: string,
                            profilePicture: Option<string>)
    requires Validator.ValidateRegister(Some(username), Some(email), Some(password)).Next?
    ensures var u := NewUser(username, email, password, profilePicture);
            && u.username == username
            && (UserValid(u) <==> EmailPattern(ToLower(Trim(email))))
            && !u.isOnline
  {
    assert Validator.AllWordChars(username);
    TrimUnpadded(username);
  }

  /** A non-empty piece of a dotted-words string is an `[^\s@]+` run. */
  lemma DottedPieceIsRun(t: string, from: nat, to: nat)
    requires DottedWords(t) && from < to <= |t|
    ensures Validator.EmailRun(t[from..to])
  {
    var p := t[from..to];
    forall i | 0 <= i < |p| ensures Validator.EmailChar(p[i]) {
      assert p[i] == t[from + i];
      assert IsWordChar(t[from + i]) || IsSep(t[from + i]);
    }
  }

  /** Every address the schema's pattern accepts also passes the route
      validator's `A@B.C` check. */
  lemma SchemaEmailPassesValidator(s: string)
    requires EmailPattern(s)
    ensures Validator.IsValidEmail(s)
  {
    var at := PatternAt(s);
    var k := DomainDot(s[at + 1..]);
    MarkedAddressIsValid(s, at, k);
  }

  /** The `@` a matching address is cut at. */
  lemma PatternAt(s: string) returns (at: nat)
    requires EmailPattern(s)
    ensures at < |s| && s[at] == '@' && DottedWords(s[..at]) && EmailDomain(s[at + 1..])
  {
    at :| 0 < at < |s| && s[at] == '@' && DottedWords(s[..at]) && EmailDomain(s[at + 1..]);
  }

  /** The final `.` of a matching domain, with a character on each side. */
  lemma DomainDot(d: string) returns (k: nat)
    requires EmailDomain(d)
    ensures DottedWords(d) && 0 < k < |d| - 2 && d[k] == '.'
  {
    k :| 0 < k < |d| && d[k] == '.' && 2 <= |d| - k - 1 <= 3
         && forall j :: k < j < |d| ==> IsWordChar(d[j]);
  }

  /** An address cut at its `@` into two dotted-words strings, with a `.`
      strictly inside the second, passes the route validator. */
  lemma MarkedAddressIsValid(s: string, at: nat, k: nat)
    requires at < |s| && s[at] == '@'
    requires DottedWords(s[..at]) && DottedWords(s[at + 1..])
    requires 0 < k < |s| - at - 2 && s[at + 1..][k] == '.'
    ensures Validator.IsValidEmail(s)
  {
    var a, d := s[..at], s[at + 1..];
    DottedPieceIsRun(a, 0, at);
    DottedPieceIsRun(d, 0, k);
    DottedPieceIsRun(d, k + 1, |d|);
    assert a[0..at] == a && d[0..k] == d[..k] && d[k + 1..|d|] == d[k + 1..];
    Validator.ShapeIsValidEmail(a, d[..k], d[k + 1..]);
    SplitAtMarks(s, at, k);
  }

  /** Cutting at the `@` and at a `.` after it gives back the address. */
  lemma SplitAtMarks(s: string, at: nat, k: nat)
    requires at < |s| && s[at] == '@'
    requires k < |s| - at - 1 && s[at + 1..][k] == '.'
    ensures s == s[..at] + "@" + s[at + 1..][..k] + "." + s[at + 1..][k + 1..]
  {
    var d := s[at + 1..];
    assert d == d[..k] + [d[k]] + d[k + 1..];
    assert s == s[..at] + [s[at]] + d;
  }

  /** The converse fails: a one-letter top-level domain passes the route
      validator and is refused by the schema. */
  lemma ValidatorEmailFailsSchema()
    ensures Validator.IsValidEmail("a@b.c")
    ensures !EmailPattern("a@b.c")
  {
    Validator.ShapeIsValidEmail("a", "b", "c");
    assert "a" + "@" + "b" + "." + "c" == "a@b.c";
    var s := "a@b.c";
    forall at | 0 < at < |s| && s[at] == '@'
      ensures !EmailDomain(s[at + 1..])
    {
      assert at == 1;
      var d := s[at + 1..];
      assert d == "b.c";
      forall k | 0 < k < |d| && d[k] == '.'
        ensures |d| - k - 1 == 1
      {
      }
    }
  }

  // ------------------------------------------------------------------- Room

  datatype Room = Room(name: string, description: Option<string>, isPrivate: bool)

  /** The document `new Room({...})` builds: name and description trimmed,
      `is_private` false unless given. */
  function NewRoom(name: string, description: Option<string>, isPrivate: Option<bool>): (r: Room)
    ensures r.name == Trim(name)
    ensures description.None? <==> r.description.None?
    ensures description.Some? ==> r.description.value == Trim(description.value)
    ensures isPrivate.None? ==> !r.isPrivate
  {
    Room(Trim(name),
         match description case Some(d) => Some(Trim(d)) case None => None,
         match isPrivate case Some(b) => b case None => false)
  }

  /** What `save()` accepts for a room: name of 3 to 50 characters,
      description (when present) of at most 200. */
  predicate RoomValid(r: Room) {
    3 <= |r.name| <= 50 && (r.description.Some? ==> |r.description.value| <= 200)
  }
}
