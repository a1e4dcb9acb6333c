/** The records the web clients keep: the user, room and message objects
    as they arrive in socket events and REST responses. Optional fields
    are the ones the client types mark optional or test for truthiness. */
module ClientTypes {
  import opened Common

  datatype ClientUser = ClientUser(id: string, username: string, profilePicture: string)

  datatype ClientRoom = ClientRoom(id: string, name: string)

  /** The `sender_id` of a message: a plain id, as the clients' `Message`
      type declares it, or the populated sender document (`_id`,
      `username`, `profile_picture`) that the server's `formatMessage`
      sends. Either way `id` is the sender's id. */
  datatype Sender =
    | SenderId(id: string)
    | SenderProfile(id: string, username: string, profilePicture: string)

  /** What a template string makes of a non-string object. */
  const ObjectText := "[object Object]"

  /** `${sender_id}`: the id itself, or `[object Object]` for a document. */
  function SenderText(s: Sender): (t: string)
    ensures s.SenderId? ==> t == s.id
    ensures s.SenderProfile? ==> t == ObjectText
  {
    match s
    case SenderId(id) => id
    case SenderProfile(_, _, _) => ObjectText
  }

  datatype ClientMessage = ClientMessage(
    id: string,
    content: string,
    senderId: Option<Sender>,
    receiverId: Option<string>,
    roomId: Option<string>)
}
