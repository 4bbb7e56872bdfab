/**
 * The frames a chat room writes to and reads from its clients (the Go `Message`
 * struct of server/main.go). The `content` of a user-list frame, which the
 * source carries as a JSON-encoded string array, is kept as the list itself.
 */
module Messages {

  datatype Content = Text(text: string) | Names(names: seq<string>)

  /** `timestamp` is the server clock reading, in whatever unit the caller uses. */
  datatype Message = Message(kind: string, content: Content, sender: string, timestamp: int)

  const SystemSender := "system"
  const UserJoinedKind := "userJoined"
  const UserLeftKind := "userLeft"
  const UserListKind := "userList"
  const RefreshUserListKind := "refreshUserList"
  const SystemKind := "system"

  function JoinedMessage(name: string, now: int): Message {
    Message(UserJoinedKind, Text(name + " has joined the chat"), SystemSender, now)
  }

  function LeftMessage(name: string, now: int): Message {
    Message(UserLeftKind, Text(name + " has left the chat"), SystemSender, now)
  }

  function UserListMessage(names: seq<string>, now: int): Message {
    Message(UserListKind, Names(names), SystemSender, now)
  }

  /** The notices of the older hub (`sendSystemMessage` in server/server.go). */
  const JoinedNotice := "A new user has joined the chat"
  const LeftNotice := "A user has left the chat"

  function SystemMessage(text: string, now: int): Message {
    Message(SystemKind, Text(text), SystemSender, now)
  }

  /** A client frame as the room rebroadcasts it: sender and time are the server's. */
  function Stamped(frame: Message, name: string, now: int): Message {
    frame.(sender := name, timestamp := now)
  }

  predicate IsRefresh(frame: Message) {
    frame.kind == RefreshUserListKind
  }
}
