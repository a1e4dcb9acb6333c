# ChatApp-v1 in Dafny

A model of the chat application's core, with proofs about it.

On the server side it covers:

- the Socket.IO real-time service:
  - the handshake gate;
  - the user-to-socket registry;
  - room membership;
  - room and private message fan-out;
  - the typing relay;
  - the deferred offline rule;
- the REST layer's request validators and error middleware;
- the Mongoose schema constraints of messages, users and rooms;
- the message and room controllers, over an in-memory store.

On the client side it covers:

- the zod form schemas;
- the password-strength meter;
- the avatar-initials and truncation helpers;
- the online-user list updaters;
- the SWR message-cache updaters and their keys;
- the platform chat provider's state;
- the room/private-chat selection state.

Stateful code is modelled as classes whose methods update fields:

- the socket server, `SocketServer.ChatServer`;
- the message collection, `MessageStore.MessageStore`;
- the room collection, `RoomStore.RoomStore`;
- the platform chat provider, `ChatContextState.ChatContext`;
- the selection state, `ChatSelectionState.ChatSelection`.

Pure decision logic is modelled as functions, each with lemmas that tie it to an independent reading of what it should do. Examples:

- the regular-expression reading of the email check;
- the priority reading of the error middleware;
- the filter reading of the message queries, with the answer's order left to the database;
- idempotence and id-uniqueness for the cache updaters.

Some things the server does not decide itself. Each is an input:

- the outcome of `jwt.verify`;
- the user lookup;
- whether a database call succeeds;
- the clock reading.

The 5000 ms offline timer is an explicit step, `FireOffline`. All timers have the same delay, so they fire in the order they were scheduled, and the scheduled checks form a queue.

Every message the server emits is appended to a log, together with the set of sockets it reaches. The contracts state, for each handler, exactly which entry it appends.

Behaviours of the code that the proofs make explicit:

- **Registry.** The server keeps one socket id per user, so a new connection overwrites the earlier one. Disconnect deletes the user's entry unconditionally, even when it names a newer socket. Offline timers are never cancelled: only the re-check when a timer fires suppresses a stale offline event.
  - `SocketServer.OlderTabClosing`: when the older of two tabs closes, the user is announced offline while the newer tab is still connected.
  - `SocketServer.RefreshKeepsUserOnline`: a page refresh (disconnect, then reconnect before the timer fires) announces nothing.
- **Message addresses.** The message schema demands at least one of room and receiver, and a message with both saves (`Models.AddressRule`).
- **REST-created messages.** The REST create handlers store the message and answer 201; they emit nothing on the socket.
- **Message order.** The message queries sort on `created_at`, a field the schema's timestamps never write, so the database may return the messages in any order (see Findings).
- **Room names, server side.**
  - The route validator accepts names of one or two characters; the schema then refuses them.
  - Room creation compares the trimmed name with the stored names. Mongoose applies the `trim` setter to the query filter too.
- **Client side.**
  - The client that keys rooms by REST path writes new messages under `/v1/rooms/<id>/messages`. Its `useFindAll` hook reads a key ending in `?<query>`, so those writes never reach the list that hook shows (`RoomMessagesRouter.FindAllKeyIsNotTheUpdatedKey`).
  - The server's `message:private` payload carries the populated sender document in `sender_id`, while both clients compare `sender_id` with the user's id. The sender's own copy is therefore cached nowhere, and the receiver files the message under `[object Object]` rather than under the sender (`MessageCache.PopulatedSenderIsMisfiled`; see Findings).
  - In the platform chat provider, a private message is appended to whatever message list is on screen, a room's list included (`ChatContextState.PrivateMessageShownInRoom`).
  - The raw `setCurrentRoom` can leave a room and a private chat open at the same time (`ChatContextState.RoomOpenedDuringPrivateChat`).
  - The other client's selection state keeps the two mutually exclusive (`ChatSelectionState.ChatSelection`).

## Model

| member | source | states |
|---|---|---|
| SocketServer.Authenticate | chatapp-api-v1/src/services/socket.ts:34-66 | accepted iff a token is present, it verifies and the user exists; otherwise "Authentication required", "User not found" or "Authentication failed", by the cause |
| SocketServer.ChatServer.constructor | chatapp-api-v1/src/services/socket.ts:31 | starts with an empty registry, no sockets, no pending checks and an empty log |
| SocketServer.ChatServer.Connect | chatapp-api-v1/src/services/socket.ts:34-83 | a rejected handshake changes nothing; an accepted one registers the new socket for the user, replacing any earlier one, persists `is_online` true and emits `user:online` to every socket, the new one included; no room's members (`RoomMembers`) change; the registry invariant is kept |
| SocketServer.ChatServer.JoinRoom | chatapp-api-v1/src/services/socket.ts:86-89 | only this socket's room set gains the room: the members of `room:<id>` (`RoomMembers`) gain exactly this socket and every other room's members are unchanged |
| SocketServer.ChatServer.LeaveRoom | chatapp-api-v1/src/services/socket.ts:92-95 | only this socket's room set loses the room: the room's members lose exactly this socket, every other room's are unchanged, and leaving a room never joined changes nothing |
| SocketServer.ChatServer.SendRoomMessage | chatapp-api-v1/src/services/socket.ts:98-121 | the message is stored iff it passes the schema and the save succeeds; when stored and re-read, exactly one `message:room` goes to the room's members (`RoomMembers`: every live socket that joined it, the sender included when it joined); otherwise nothing is emitted |
| SocketServer.ChatServer.SendPrivateMessage | chatapp-api-v1/src/services/socket.ts:124-155 | after a successful save and re-read, one emission to the receiver's registered socket when there is one, then one echo to the sender; nothing on failure |
| SocketServer.ChatServer.RelayTyping | chatapp-api-v1/src/services/socket.ts:158-192 | a truthy room id wins and reaches the room's members (`RoomMembers`) except the typing socket; otherwise a truthy, registered receiver gets it; otherwise it is dropped; nothing is stored |
| SocketServer.ChatServer.Disconnect | chatapp-api-v1/src/services/socket.ts:195-202 | the user's registry entry is deleted whichever socket it names, the socket leaves the members of every room, and an offline check is queued |
| SocketServer.ChatServer.FireOffline | chatapp-api-v1/src/services/socket.ts:202-212 | the oldest check fires; `is_online` becomes false and `user:offline` reaches every socket iff the user is unregistered at that moment |
| SocketServer.RefreshKeepsUserOnline | chatapp-api-v1/src/services/socket.ts:195-212 | disconnect followed by a reconnect before the check fires: the user stays registered and online and no `user:offline` is emitted |
| SocketServer.OlderTabClosing | chatapp-api-v1/src/services/socket.ts:199 | with two tabs, closing the older one unregisters the user and the check announces them offline while the newer socket is still live |
| Validator.IsValidEmailMeansShape | chatapp-api-v1/src/middlewares/validator.ts:4-7 | the email check accepts exactly the strings `A@B.C` with three non-empty runs free of blanks and `@` |
| Validator.ValidEmailSingleAt | chatapp-api-v1/src/middlewares/validator.ts:4-7 | an accepted address has exactly one `@` and a `.` after it |
| Validator.IsStrongPassword | chatapp-api-v1/src/middlewares/validator.ts:10-23 | valid iff at least 6 characters, else the "at least 6 characters long" message |
| Validator.MatchesWordChars | chatapp-api-v1/src/middlewares/validator.ts:44 | the `^[a-zA-Z0-9_]+$` test holds iff the string is non-empty and all word characters |
| Validator.IsValidUsername | chatapp-api-v1/src/middlewares/validator.ts:26-51 | valid iff 3..20 word characters; the message of the first failing check in the order short, long, charset |
| Validator.ValidateRegister | chatapp-api-v1/src/middlewares/validator.ts:54-84 | passes iff all three fields are present and username, email and password checks pass; a missing field answers "All fields are required" before any other check, and a short password after a valid username and email answers "Password must be at least 6 characters long" |
| Validator.RegisterCheckOrder | chatapp-api-v1/src/middlewares/validator.ts:66-75 | a bad username is reported before a bad email, and a bad email before a short password |
| Validator.ValidateLogin | chatapp-api-v1/src/middlewares/validator.ts:87-105 | passes iff email and password are present and the email is valid, with the two messages |
| Validator.ValidateCreateRoom | chatapp-api-v1/src/middlewares/validator.ts:108-128 | passes iff the name is truthy and at most 50 characters; a falsy name answers "Room name is required", and the range message is the answer exactly for truthy names over 50 |
| Validator.ValidateCreateMessage | chatapp-api-v1/src/middlewares/validator.ts:131-156 | passes iff the content is a non-empty string, not blank, and at most 1000 characters untrimmed; each rejection carries its message in check order |
| Validator.MessageLengthBoundary | chatapp-api-v1/src/middlewares/validator.ts:148 | exactly 1000 characters pass; 1001 fail even when the extra one is a blank |
| ErrorHandling.HandleError | chatapp-api-v1/src/middlewares/errorHandler.ts:9-62 | the sequential overwrite yields the priority reading: token errors, then cast and validation errors, then the duplicate key, then the error's own status (or 500) and message (or "Internal server error"); `success` is false |
| ErrorHandling.NotFoundResponse | chatapp-api-v1/src/middlewares/errorHandler.ts:65-73 | the error `NotFound` forwards for an unmatched URL reaches the client through the error middleware as 404 with "Not found - " followed by the URL |
| ErrorHandling.DuplicateKeyResponse | chatapp-api-v1/src/middlewares/errorHandler.ts:22-32 | code 11000 with keys answers 400 and "<Key> already exists", the first key's first letter upper-cased by `Capitalize`, or "Duplicate entry detected" without a key |
| ErrorHandling.DefaultResponse | chatapp-api-v1/src/middlewares/errorHandler.ts:18-19 | no status and no message give 500 and "Internal server error" |
| Models.AddressRule | chatapp-api-v1/src/models/Message.ts:26-39 | the two conditional `required` rules accept iff at least one of room and receiver is set, both allowed |
| Models.ContentRule | chatapp-api-v1/src/models/Message.ts:15-20 | content passes iff it is not blank and at most 1000 characters remain after trimming |
| Models.NewMessageRule | chatapp-api-v1/src/models/Message.ts:13-48 | a newly built message saves iff its content is not blank, at most 1000 characters remain after trimming and it names a room or a receiver; `is_read` starts false |
| Models.RegisteredUserSaves | chatapp-api-v1/src/models/User.ts:15-38 | a registration the route validator accepts builds (by `NewUser`: trim, lower-case, defaults) a user that keeps the username as typed, starts offline, and saves iff the trimmed, lower-cased email matches the schema's pattern |
| Models.SchemaEmailPassesValidator | chatapp-api-v1/src/models/User.ts:29-32 | every address the schema's pattern accepts passes the route validator's email check |
| Models.ValidatorEmailFailsSchema | chatapp-api-v1/src/models/User.ts:30 | `a@b.c` passes the route validator and fails the schema's two-to-three-letter ending |
| MessageStore.RoomMessagesSpec | chatapp-api-v1/src/controllers/messageController.ts:20-22 | the room query as evidently intended, oldest first: exactly the stored messages of the room, ordered by `createdAt`, and an admissible answer of the query as written |
| MessageStore.ConversationSpec | chatapp-api-v1/src/controllers/messageController.ts:42-56 | the conversation query as evidently intended: ordered by `createdAt`, the same multiset as the room-less messages between the two users in either direction, and an admissible answer of the query as written |
| MessageStore.ConversationSymmetric | chatapp-api-v1/src/controllers/messageController.ts:44-53 | either participant asking gets the same intended list, and a list is an admissible answer for one iff it is for the other |
| MessageStore.RoomAnswerSpec | chatapp-api-v1/src/controllers/messageController.ts:20-22 | an answer of the room query as written holds exactly the stored messages of the room, as the same multiset as the intended list |
| MessageStore.ConversationAnswerSpec | chatapp-api-v1/src/controllers/messageController.ts:42-56 | an answer of the conversation query as written holds exactly the room-less messages between the two users, as the same multiset as the intended list |
| MessageStore.UnorderedRoomAnswer | chatapp-api-v1/src/controllers/messageController.ts:22 | two room messages saved in order may come back newest first: that answer is admissible, unsorted and differs from the intended list |
| MessageStore.UnorderedConversationAnswer | chatapp-api-v1/src/controllers/messageController.ts:56 | the same for two messages of a conversation |
| MessageStore.MarkRead | chatapp-api-v1/src/controllers/messageController.ts:59-67 | marking keeps the number of messages |
| MessageStore.MarkReadEffect | chatapp-api-v1/src/controllers/messageController.ts:59-67 | every room-less message from the other user to me becomes read; all others, mine to them included, are unchanged; only the read flag ever changes |
| MessageStore.MarkReadIdempotent | chatapp-api-v1/src/controllers/messageController.ts:59-67 | marking twice is marking once |
| MessageStore.ValidatedContentIsStorable | chatapp-api-v1/src/models/Message.ts:15-20 | content the route validator accepts always satisfies the schema's content rule |
| MessageStore.MessageStore.constructor | chatapp-api-v1/src/models/Message.ts:13-48 | an empty collection |
| MessageStore.MessageStore.Insert | chatapp-api-v1/src/models/Message.ts:13-48 | the built document (trimmed, unread) is appended iff it passes the schema and the database accepts it; otherwise nothing changes |
| MessageStore.MessageStore.GetRoomMessages | chatapp-api-v1/src/controllers/messageController.ts:13-31 | 500 "Server error" on a failed query; otherwise 200 with the database's answer, which holds exactly the room's messages, each as often as stored, in whatever order the database returns |
| MessageStore.MessageStore.GetPrivateMessages | chatapp-api-v1/src/controllers/messageController.ts:34-76 | 500 on a failed query and nothing changes; otherwise 200 with the conversation as it was before the call, as a multiset and in the database's order, and the store becomes the store with the other user's messages to me marked read |
| MessageStore.MessageStore.CreateRoomMessage | chatapp-api-v1/src/controllers/messageController.ts:79-109 | the built message, with sender and room and no receiver, is stored iff it passes the schema and the save succeeds, whatever the re-read does; 201 iff it is stored and re-read, otherwise 500 |
| MessageStore.MessageStore.CreatePrivateMessage | chatapp-api-v1/src/controllers/messageController.ts:113-143 | the built message, with sender and receiver and no room, is stored iff it passes the schema and the save succeeds, whatever the re-read does; 201 iff it is stored and re-read, otherwise 500 |
| MessageStore.MessageStore.PostRoomMessage | chatapp-api-v1/src/routes/messageRoutes.ts:20-25 | the route runs `validateCreateMessage` before the handler: rejected content answers its 400 verdict and stores nothing; accepted content is stored, trimmed and addressed to the room, iff the save succeeds (the schema never refuses it), and answers 201 iff the re-read succeeds too |
| MessageStore.MessageStore.PostPrivateMessage | chatapp-api-v1/src/routes/messageRoutes.ts:28-33 | the same for the private-message route, the message addressed to the receiver |
| Sequences.SortBySorted | chatapp-api-v1/src/controllers/roomController.ts:18 | the sort yields an ordered permutation of its input |
| RoomStore.AllRoomsOrdered | chatapp-api-v1/src/controllers/roomController.ts:18 | the listing is in name order between any two positions |
| RoomStore.RequestedRoom | chatapp-api-v1/src/controllers/roomController.ts:45-49 | name trimmed; private iff the body's `isPrivate` is true, so a body with only `is_private` gives false |
| RoomStore.ValidatorLooserThanSchema | chatapp-api-v1/src/models/Room.ts:13-25 | a room whose name passed the route validator, built by `NewRoom`, saves iff its trimmed name has at least 3 characters and its trimmed description at most 200; one- or two-character names pass the validator and fail the schema; a schema-valid name of at most 50 characters passes the validator |
| RoomStore.AppendKeepsRoomsValid | chatapp-api-v1/src/models/Room.ts:16 | adding a valid room under an unused name keeps room names unique |
| RoomStore.RoomStore.constructor | chatapp-api-v1/src/models/Room.ts:11-30 | an empty collection |
| RoomStore.RoomStore.GetAllRooms | chatapp-api-v1/src/controllers/roomController.ts:13-27 | 500 on a failed query; otherwise every room, as a permutation ordered by name |
| RoomStore.RoomStore.CreateRoom | chatapp-api-v1/src/controllers/roomController.ts:30-63 | a taken (trimmed) name answers 400 "Room already exists" and changes nothing; otherwise the room is added with 201 when it passes the schema, and every failure answers 500 without change |
| FormSchemas.LoginIssues | src/lib/validations.ts:3-6 | no issue iff the email check passes and the password has at least 6 characters, with the field of each issue |
| FormSchemas.RegisterIssues | src/lib/validations.ts:8-22 | no issue iff username 3..20, email ok, password at least 6 and the confirmation matches; a mismatch always yields the `confirmPassword` issue, last |
| FormSchemas.ParseCreateRoom | src/lib/validations.ts:24-34 | parses iff the name has 1..50 characters and the description at most 200; `is_private` is true only when given true |
| FormSchemas.RoomNameRulesAgree | src/lib/validations.ts:25-28 | the form accepts exactly the room names the server's route validator accepts |
| FormSchemas.ServerRegisterPassesClient | src/lib/validations.ts:8-22 | a registration the server validator accepts passes the form's username, password and confirmation checks, so the form accepts it iff its email check passes, and otherwise reports only "Invalid email address"; the email verdict is an input |
| FormSchemas.ClientAcceptsUsernameServerRejects | src/lib/validations.ts:10-13 | `a-b` passes the form and is refused by the server's charset rule |
| TextUtils.JoinSplit | chatapp-platform-v1/src/lib/utils.ts:59 | splitting on spaces loses nothing: joining the pieces gives the input back |
| TextUtils.HeadsAreWordStarts | chatapp-platform-v1/src/lib/utils.ts:58-61 | the first letters of the pieces are exactly the characters that start a word; empty pieces add nothing |
| TextUtils.GetInitials | chatapp-platform-v1/src/lib/utils.ts:57-64 | at most two characters, no lower-case ASCII letter |
| TextUtils.InitialsSpec | chatapp-platform-v1/src/lib/utils.ts:57-64 | the initials are the first two word starts, upper-cased; empty for ""; the first is the upper-cased first character when the name does not start with a space |
| TextUtils.TruncateText | chatapp-platform-v1/src/lib/utils.ts:66-69 | unchanged when it fits; else the first `maxLength` characters (`slice(0, maxLength)` as modelled by `SliceEnd`, a negative end counting from the back) and "..."; always starts with the kept prefix |
| PasswordStrength.ComputeStrength | src/modules/auth/components/register-form/index.tsx:55-69 | the effect's step-by-step sum equals the score: 0 for an empty password, else the capped weight sum |
| PasswordStrength.ScoreBounds | src/modules/auth/components/register-form/index.tsx:61-67 | the score lies in 0..100 and the cap never lowers it |
| PasswordStrength.ScoreMonotone | src/modules/auth/components/register-form/index.tsx:61-66 | appending characters never lowers the score |
| PasswordStrength.FullScore | src/modules/auth/components/register-form/index.tsx:61-68 | 12 or more characters with lower, upper, digit and symbol score 100 and read "Strong" |
| PasswordStrength.StrengthText | src/modules/auth/components/register-form/index.tsx:109-114 | "Weak" below 25, "Fair" below 50, "Good" below 75, else "Strong", each iff |
| PasswordStrength.StrengthColor | src/modules/auth/components/register-form/index.tsx:102-107 | red, orange, yellow, green on the same thresholds, each iff |
| PasswordStrength.ColourFollowsLabel | src/modules/auth/components/register-form/index.tsx:102-114 | two strengths share a label iff they share a colour |
| PresenceList.AddOnline | src/hooks/useSocket.ts:23-31 | the user is listed afterwards; at most one entry is appended; unchanged iff the id was listed; ids stay unique |
| PresenceList.AddOnlineIdempotent | src/modules/_shared/hooks/useSocket.ts:23-31 | announcing a user twice lists them once |
| PresenceList.RemoveOnline | src/hooks/useSocket.ts:33-35 | no entry with the id remains, and exactly the other entries stay |
| PresenceList.RemoveOnlineKeepsOrder | src/modules/_shared/hooks/useSocket.ts:33-35 | removal works entry by entry, so the others keep their order, and a list without the id is unchanged |
| PresenceList.RemoveOnlineKeepsUnique | chatapp-platform-v1/src/contexts/ChatContext.tsx:65-67 | removal keeps ids unique |
| PresenceList.OnlineThenOffline | src/hooks/useSocket.ts:23-35 | online then offline for a user is the same as offline alone, and leaves no entry with the id |
| MessageCache.AppendUnique | src/hooks/useMessages.ts:116-119 | the message is listed afterwards; the old list is a prefix and at most one entry is added; unchanged iff the id was listed; ids stay unique |
| MessageCache.Update | src/modules/_shared/hooks/useSocket.ts:44-47 | only the key's list changes; it keeps its prefix, gains at most one entry and then holds the message |
| MessageCache.UpdateNoop | src/modules/_shared/hooks/useSocket.ts:44-45 | updating with a message already listed changes nothing |
| MessageCache.Append | src/hooks/useMessages.ts:71-77 | the send hooks' updater adds exactly one entry, the message, and nothing else changes |
| MessageCache.KeysDistinct | src/hooks/useMessages.ts:23 | different rooms and users never share a key, and room keys never equal conversation keys, in both key schemes |
| MessageCache.AddMessageToCache | src/hooks/useMessages.ts:106-136 | only the keys of a given room and a given user change, each then holding the message; ids stay unique |
| MessageCache.DeliveredMessageIsShown | src/hooks/useMessages.ts:33 | after a socket delivery to a room, the list the room's hook shows (`data || []`, via `MessagesOrEmpty`) extends what it showed by at most one entry and lists the message; a room never loaded shows just that message |
| MessageCache.AddMessageToCacheIdempotent | src/hooks/useMessages.ts:106-136 | delivering a message twice caches it once |
| MessageCache.DeliveryAfterAppendIsAbsorbed | src/hooks/useMessages.ts:66-83 | the two updaters compose: a message the send hooks' plain append listed is absorbed by a later de-duplicating delivery of it |
| MessageCache.AppendTwiceDuplicates | src/hooks/useMessages.ts:91-97 | the plain append does not de-duplicate: sending a message twice lists it twice |
| MessageCache.GuardedPrivateTarget | src/modules/_shared/hooks/useSocket.ts:53-78 | the receiver iff `sender_id === user.id` (a populated sender document never matches) and the receiver is set, else the text of `sender_id` iff I received it and it is truthy, else nothing |
| MessageCache.PrivateTargetsAgree | src/hooks/useSocket.ts:43-53 | the unguarded dispatch plus `addMessageToCache`'s own check picks the same conversation as the guarded one |
| MessageCache.OnRoomMessage | src/hooks/useSocket.ts:38-41 | a message naming a room is cached under that room's key; without a room nothing changes |
| MessageCache.OnPrivateMessage | src/hooks/useSocket.ts:43-53 | the message is cached under the conversation `GuardedPrivateTarget` picks, or nothing changes when it picks none |
| MessageCache.OnRoomMessageByPath | src/modules/_shared/hooks/useSocket.ts:38-51 | only when the message names a room, a de-duplicating append to that room's path; nothing else changes |
| MessageCache.OnPrivateMessageByPath | src/modules/_shared/hooks/useSocket.ts:53-78 | a de-duplicating append under the path of the conversation `GuardedPrivateTarget` picks, or no change |
| MessageCache.BothClientsFileTheSameConversation | src/modules/_shared/hooks/useSocket.ts:53-78 | whenever one client files a private message, the other files it under the same conversation, each under its own key |
| MessageCache.PopulatedSenderIsMisfiled | src/hooks/useSocket.ts:46 | for the server's payload, whose `sender_id` is the sender's document: in both clients the sender's own copy changes no cache entry, and the receiver files it under `[object Object]` while the conversation under the sender's id stays as it was |
| MessageCache.SenderIdFilesTheConversation | src/modules/_shared/hooks/useSocket.ts:55 | comparing the sender's id instead (`WithSenderId`), both clients file every private message under the other party's conversation, at the sender and at the receiver |
| RoomMessagesRouter.FindAllKey | src/router/v1/rooms/messages/index.ts:17-20 | no key iff the room id is blank; otherwise the key starts with the messages path and `?` |
| RoomMessagesRouter.CreateOneKey | src/router/v1/rooms/messages/index.ts:74-75 | no key iff the room id is blank; otherwise the messages path |
| RoomMessagesRouter.FindAllKeyIsNotTheUpdatedKey | src/router/v1/rooms/messages/index.ts:17-20 | the key `useFindAll` reads never equals the path the cache updaters write |
| RoomMessagesRouter.AddRoomMessageToCache | src/router/v1/rooms/messages/index.ts:121-134 | no change without a room id; otherwise a de-duplicating append to that room's path, nothing else changing |
| RoomMessagesRouter.AddRoomMessageToCacheIdempotent | src/router/v1/rooms/messages/index.ts:121-134 | adding a message twice caches it once |
| RoomMessagesRouter.OptimisticAppend | src/router/v1/rooms/messages/index.ts:81-90 | exactly one value is appended, the picked one, after the unchanged list |
| RoomMessagesRouter.CreatedMessageIsAppended | src/router/v1/rooms/messages/index.ts:81-90 | for a 201 body shaped like `createRoomMessage`'s (`{message, data}`) the value `Picked` takes (the first present of `response.data.data`, `response.data`, `response`) is the created message itself, and it is what gets appended |
| ChatContextState.ChatContext.constructor | chatapp-platform-v1/src/contexts/ChatContext.tsx:32-38 | empty rooms, messages and online list, nothing open |
| ChatContextState.ChatContext.OnUserOnline | chatapp-platform-v1/src/contexts/ChatContext.tsx:55-63 | the online list becomes the add-if-absent update and ids stay unique |
| ChatContextState.ChatContext.OnUserOffline | chatapp-platform-v1/src/contexts/ChatContext.tsx:65-67 | the online list becomes the remove-by-id update and ids stay unique |
| ChatContextState.ChatContext.OnRoomMessage | chatapp-platform-v1/src/contexts/ChatContext.tsx:70-74 | appended iff a room is open and the message's room is that room |
| ChatContextState.ChatContext.OnPrivateMessage | chatapp-platform-v1/src/contexts/ChatContext.tsx:76-79 | always appended, without de-duplication |
| ChatContextState.ChatContext.SendMessage | chatapp-platform-v1/src/contexts/ChatContext.tsx:146-150 | nothing is sent iff no room is open or the content is blank; otherwise the trimmed, non-empty content goes to the open room |
| ChatContextState.ChatContext.SetCurrentRoom | chatapp-platform-v1/src/contexts/ChatContext.tsx:211 | only the open room changes |
| ChatContextState.ChatContext.SyncRoomMessages | chatapp-platform-v1/src/contexts/ChatContext.tsx:123-144 | with a room open the fetched messages replace the list and a failed fetch keeps it; without a room the list is emptied |
| ChatContextState.ChatContext.LoadRooms | chatapp-platform-v1/src/contexts/ChatContext.tsx:112-121 | a list reply replaces the rooms; a non-list reply or an error leaves `[]` |
| ChatContextState.ChatContext.LoadPrivateMessages | chatapp-platform-v1/src/contexts/ChatContext.tsx:179-187 | the fetched messages, or `[]` when the fetch fails |
| ChatContextState.ChatContext.StartPrivateChat | chatapp-platform-v1/src/contexts/ChatContext.tsx:169-177 | the chat is opened, the room closed, and the conversation (or `[]`) shown |
| ChatContextState.ChatContext.SendPrivateMessage | chatapp-platform-v1/src/contexts/ChatContext.tsx:189-201 | the created message is appended and returned; a failed request changes nothing |
| ChatContextState.RoomOpenedDuringPrivateChat | chatapp-platform-v1/src/contexts/ChatContext.tsx:169-172 | after opening a private chat, the raw room setter leaves both a room and the chat open |
| ChatContextState.PrivateMessageShownInRoom | chatapp-platform-v1/src/contexts/ChatContext.tsx:76-79 | with a room open, a private message joins the room's list |
| ChatSelectionState.ChatSelection.constructor | src/hooks/useChatState.ts:6-9 | nothing open; the `ChatProvider` state (src/modules/_shared/contexts/ChatContext.tsx:18-21) starts the same |
| ChatSelectionState.ChatSelection.SelectRoom | src/hooks/useChatState.ts:11-14 | the room is set and the private chat cleared, so the two are never both open; `selectRoom` of src/modules/_shared/contexts/ChatContext.tsx:23-26 does the same |
| ChatSelectionState.ChatSelection.SelectPrivateChat | src/hooks/useChatState.ts:16-19 | the private chat is set and the room cleared, so the two are never both open; `selectPrivateChat` of src/modules/_shared/contexts/ChatContext.tsx:28-31 does the same |

## Findings

| source | as written | input that shows it | evidently intended | confidence | as-written member | corrected member |
|---|---|---|---|---|---|---|
| chatapp-api-v1/src/controllers/messageController.ts:22 | `getRoomMessages` sorts on `created_at`, but `timestamps: true` (chatapp-api-v1/src/models/Message.ts:46) writes `createdAt`, so every document ties on the sort key and the database may return the room's messages in any order | two messages of one room saved at times 1 and 2 may be answered as [second, first] | the room's messages oldest first | high; not executed | `MessageStore.UnorderedRoomAnswer` | `MessageStore.RoomMessagesSpec` |
| chatapp-api-v1/src/controllers/messageController.ts:56 | `getPrivateMessages` sorts on the same absent `created_at` field, so a conversation may come back in any order | a message from me to the other user at time 1 and their reply at time 2 may be answered as [reply, message] | the conversation oldest first | high; not executed | `MessageStore.UnorderedConversationAnswer` | `MessageStore.ConversationSpec` |
| src/hooks/useSocket.ts:46 | `message.sender_id === user.id` compares the populated sender document that `formatMessage` sends (chatapp-api-v1/src/utils/mongodb.ts:42) with a string, so it never holds; the other branch keys the cache with `${message.sender_id}`, which is `[object Object]`; src/modules/_shared/hooks/useSocket.ts:55 and :69 do the same | user u1 sends u2 a message: u1's echo is cached nowhere, and u2 caches it under `private-messages-[object Object]` instead of `private-messages-u1` | each copy filed under the other party's conversation, by comparing and keying with the sender's id | high; not executed | `MessageCache.PopulatedSenderIsMisfiled` | `MessageCache.SenderIdFilesTheConversation` |

The handlers return the database's answer, so `MessageStore.MessageStore.GetRoomMessages` and `GetPrivateMessages` take that answer as an input and promise only that it holds the right messages. The same field name also leaves the `created_at` of every formatted message (chatapp-api-v1/src/utils/mongodb.ts:46) undefined; the model carries the timestamp Mongoose writes.

## Left out

- Socket.IO transport, cookie parsing, `jwt.verify`, `bcrypt` and Mongoose I/O are foreign libraries. The token verdict, the user lookup and the success of each database call are inputs.
- Real time and interleaving at `await` points are not modelled. Each handler is one atomic step, and the 5000 ms wait is the explicit `FireOffline` step. A reconnect racing with the `findByIdAndUpdate` of a connection is not modelled.
- The `is_online` write in `connection` and in the timer is assumed to succeed. A failed write would throw out of the handler before the emit; it is not modelled.
- `formatUser`/`formatRoom`/`formatMessage` are projections of Mongoose documents, so on the server the stored message stands for the formatted one. The formatted message puts the populated sender document in `sender_id`; on the client side `ClientTypes.Sender` holds either that document or a plain id, and the consequence for the private-message handlers is under Findings. The formatted message's other fields (`sender_name`, `sender_profile_picture`, `updated_at`) are not modelled.
- Document ids are positions in the collection, and `createdAt` is the caller's clock reading. The order of a query's answer is an input constrained only to hold the right messages. ObjectId casting failures are folded into the database-failure input.
- SendRoomMessage and SendPrivateMessage do not run the route validator: the socket path goes straight to the schema, as in the source. The REST routes run `validateCreateMessage` before the create handlers; `PostRoomMessage` and `PostPrivateMessage` state that composition.
- Validator.ValidateRegister, Validator.ValidateLogin and Validator.ValidateCreateRoom take each field as an absent or string value. A JSON body field of another type (a number, an object) is not modelled for them.
- RoomStore.RequestedRoom takes `is_private` as absent or a boolean. A body value of another type (`"true"`, `1`) passes `isPrivate || false` unchanged and Mongoose casts it to a boolean; that cast is not modelled.
- String lengths count characters, not UTF-16 code units. Upper- and lower-casing cover ASCII only (in the email lowercase setter, `getInitials` and the duplicate-key message).
- The zod `.email()` check is an input flag, because its pattern differs between zod releases.
- FormSchemas.ServerRegisterPassesClient: the email verdict of the form is an input, so the lemma does not say whether the form accepts an address the server accepts (`a@b.c`, say); it states the form's verdict for every value of that input.
- `qs.stringify` in `useFindAll` is not modelled; the key takes an already-serialised query string.
- The remaining effects are UI plumbing:
  - the platform provider's socket connect/disconnect effect and `isConnected`;
  - the `joinRoom`/`leaveRoom`/typing emit wrappers;
  - client typing handlers, which only log;
  - SWR revalidation and deduplication.
- ChatContextState.ChatContext.StartPrivateChat runs as one step. The effect that empties the list when the room closes may run before or after the fetch completes. The model takes the fetch result as the final list.
- The compiled `dist/` build is not modelled. Its socket service sends `user:online` and `user:offline` with `socket.broadcast.emit`, which leaves out the sending socket. The model follows the TypeScript sources, which use `io.emit`.
- The auth and user controllers, the server bootstrap, routes, `formatTime`/`formatDate`, `generateRoomId`, `cn`, the client transport wrappers and all JSX rendering are outside the core.
