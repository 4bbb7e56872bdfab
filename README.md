# Chat rooms over WebSockets: a Dafny model of the Go server

This project models the server of a small multi-room chat service written in Go.

`server/main.go` holds the current server. A `ChatServer` is a registry of `ChatRoom`s plus in-memory user and session tables. Each `ChatRoom` runs an event loop that handles three kinds of event:

- register: a client joins;
- unregister: a client leaves;
- broadcast: a message is stored in a 100-entry history and written to every client.

`server/server.go` holds an older variant. There, a `Hub` per room maps connections to generated user ids and keeps a user count in Redis. Its HTTP handlers issue session tokens of the form `<username>_<unix seconds>` and read the username back from them.

Each `select` case of an event loop runs to completion in one goroutine, so each case is one atomic method here (`ChatRoom.Register`, `.Unregister`, `.Broadcast`, `Hub.Register`, …).

The transport is abstract:

- `inbox[k]` is the sequence of frames written successfully to connection `k`;
- `closed` is the set of connections the server closed;
- every operation receives `failing`, the set of connections whose write fails during it;
- the frames a connection reads are an input sequence that ends where the read fails.

Clocks, UUIDs and `UnixNano` identifiers are parameters. Where the source trusts an identifier to be unused (room ids, user ids), a `requires` says so.

Files and modules:

- `wrappers.dfy`: `Option`, `Result`.
- `decimal.dfy`: `%d` printing.
- `messages.dfy`: the `Message` frame and the fixed system texts.
- `history.dfy`: the bounded history, plus `Window`, the reference definition of "the newest 100".
- `fanout.dfy`: per-connection delivery.
- `chatroom.dfy`: `ChatRoom`, `sendUserList` and `handleConnection`.
- `chatserver.dfy`: `ChatServer` and `wsHandler`.
- `tokens.dfy`: the session-token functions.
- `hub.dfy`: `Hub`, the Redis store as maps and sets, and the hub map of `serveWs`.
- `handlers.dfy`: the decisions made by the register, login and create-chatroom handlers.

The model follows the code:

- Register overwrites an entry with the same id. It does not skip it.
- Message types are free strings, not a closed variant.
- Client frames are stamped with the time by the connection handler, not by the room.
- A system message is stamped when it is created.

A `ChatRoom` writes its system messages to its own `broadcast` channel from inside `Run` (server/main.go:243, 267), and so does a `Hub` (server/server.go:152 via 74 and 87). `Run` is the only receiver of that unbuffered channel, so as written the loop would block on its first register. The model gives the intended effect instead: the system message is stored and fanned out right away, inside the same atomic step.

## Model

| member | source | states |
|---|---|---|
| History.Appended | server/main.go:273-278 | After an append the newest entry is the message. The older entries are the previous history, with at most its oldest entry dropped. From a history within the bound, the result is within the bound and equals the newest 100 of everything broadcast. |
| History.WindowAppend | server/main.go:275-278 | Trimming after each append gives the same result as trimming the whole broadcast sequence once. |
| History.AppendedWindow | server/main.go:272-278 | A history that is the newest 100 of all broadcasts stays so after one more broadcast. |
| History.WindowKeepsNewest | server/main.go:94 | The retained history has min(n, 100) entries, and they are the last ones broadcast, oldest first. |
| Fanout.DeliverAt | server/main.go:280-287 | After a fan-out, a connection's frames are what it had plus the message exactly when its write succeeded. |
| Fanout.DeliverStep | server/main.go:280-287 | Each successful write in the fan-out loop adds the message to exactly one connection. |
| Decimal.NatToStringInjective | server/main.go:344 | Different counter values print as different decimal strings. |
| ChatRooms.ChatRoom.constructor | server/main.go:82-97 | A new room has the given id, name, description and creator, no clients and an empty history. |
| ChatRooms.ChatRoom.Info | server/main.go:100-112 | The snapshot carries the room's own id, name, description, creation time and creator, and its live client count. |
| ChatRooms.ChatRoom.Broadcast | server/main.go:272-288 | The message is appended to the bounded history. Exactly the clients whose write failed are closed and removed. Every other client stays and has the message appended to what it received. The loop always runs to the end. |
| ChatRooms.ChatRoom.UserNames | server/main.go:298-301 | The list holds one display name per registered client: same length, and the same multiset as the client map's names. |
| ChatRooms.ChatRoom.SendUserList | server/main.go:294-317 | Builds a "userList" frame from "system" with exactly the registered names. Only the requesting client can receive it, and a failed write is ignored. History, membership and every other connection are unchanged. |
| ChatRooms.ChatRoom.Register | server/main.go:237-254 | Stores the client under its id and appends "<name> has joined the chat" (type "userJoined", sender "system") to history. The connections are written twice in order: first the join notice to all clients, the new one included, then the user list to the new client alone. The list write has its own outcome. It also fails when the join notice failed, because that closed the connection. |
| ChatRooms.RegisterDelivery | server/main.go:237-254 | After a registration the new client has received the join notice and then the user list, each only if its write succeeded, and nothing from the history. Every other client has received the join notice alone, if its write succeeded. |
| ChatRooms.ChatRoom.Unregister | server/main.go:256-270 | For an id not registered, nothing changes. Otherwise exactly that entry is removed and one "userLeft" message "<name> has left the chat" is stored and fanned out to the rest. |
| ChatRooms.HandleFrame | server/main.go:385-397 | A "refreshUserList" frame is answered with a user-list frame listing exactly the current members. The frame is written to the requester alone, if its write succeeds. History, membership and closed connections are unchanged. Any other frame is broadcast with the sender replaced by the client's name and the server's time. Failing clients are pruned and closed, and there is no reply. |
| ChatRooms.ReadFrame | server/main.go:385-397 | One frame as the rest of the room sees it. A refresh changes nothing for the others. Any other frame is appended to the bounded history and reaches every other member whose write succeeds. The clients whose write failed are removed and closed. |
| ChatRooms.ReadLoop | server/main.go:375-398 | After the frames read, the history is the newest 100 of the old history plus every stamped non-refresh frame, in order. The members are the old members minus the clients whose writes failed during those broadcasts, and exactly those are closed. Every other member still present has received all of those frames, in order. A member pruned during the loop has received only a prefix of them, and nothing after its removal. A connection that was never a member has received nothing. |
| ChatRooms.HandleConnection | server/main.go:368-398 | When the read loop ends, the deferred cleanup always unregisters the client and closes its connection. A "left" message is stored only if the client was still registered; it reaches every other remaining member whose write succeeds, after the relayed frames. A member pruned during the read loop has received only a prefix of the relayed frames and never the leave notice. The closed connections are exactly those whose writes failed, plus the client's own. |
| ChatServers.ClientId | server/main.go:344 | A client id is "user_" followed by the counter's decimal digits. |
| ChatServers.ClientIdInjective | server/main.go:319-344 | The `user_<n>` ids drawn from the increasing counter are all different. |
| ChatServers.ChatServer.constructor | server/main.go:73-79 | A new server has no rooms, users or sessions. |
| ChatServers.ChatServer.GetRoom | server/main.go:115-125 | An unknown id gives `None`. A known id gives the stored room, whose own id is that id. The lookup reads and never inserts. |
| ChatServers.ChatServer.CreateRoom | server/main.go:128-140 | Exactly one new, empty room is added under the new id, with no clients, no history, nothing written to any connection and nothing closed. Every other id looks up as before. |
| ChatServers.ChatServer.ListRooms | server/main.go:143-153 | One snapshot per room: the same count, distinct ids, every room present, each with `userCount` equal to its live client count. |
| ChatServers.ChatServer.ListUserRooms | server/main.go:156-168 | Exactly the rooms whose creator is the argument, each once, as live snapshots. |
| ChatServers.ChatServer.RegisterUser | server/main.go:171-191 | Fails exactly when the username exists, and then leaves users unchanged. Otherwise adds exactly one user. Usernames stay unique. |
| ChatServers.ChatServer.AuthenticateUser | server/main.go:194-211 | Fails exactly when no user has that username and password, and then stores no session. On success, stores the token for that user, and validating the token returns that user's id. |
| ChatServers.ChatServer.ValidateSession | server/main.go:214-224 | Succeeds exactly for stored tokens. It returns the stored user id, which belongs to a registered user. |
| ChatServers.ChatServer.Connect | server/main.go:322-365 | An empty room id, an unknown room and a failed upgrade are refused without using the counter. A failed first read uses a counter value but registers nobody. Otherwise the client `user_<n>`, named by the first frame's sender, is registered in that room only. Such a connection is always admitted. The join notice and the user list each have their own write outcome, and the room's closed set and deliveries are those of `ChatRoom.Register`. |
| Tokens.BeforeFirst | server/server.go:512-517 | The first element of the split is a prefix of the input with no separator. It is followed by a separator, or it is the whole input. |
| Tokens.ExtractUsername | server/server.go:503-518 | "" for "". Otherwise the prefix before the first "_", or the whole token if it has no "_". The result never contains "_". |
| Tokens.GenerateSessionToken | server/server.go:524-527 | A token is the username, then "_", then the Unix time in decimal (digits and sign only). |
| Tokens.SessionTokenRoundTrip | server/server.go:503-527 | For a username without "_", extracting from a generated token gives the username back. |
| Tokens.UnderscoreUsernameTruncated | server/server.go:511-527 | The username "a_b" comes back from its own token as "a". |
| Tokens.BeforeLast | server/server.go:511-517 | The text before the last separator: a prefix followed by a separator with none after it, or the whole input if it has none. |
| Tokens.ExtractUsernameAtLast | server/server.go:503-518 | "" for "". Otherwise a prefix of the token. |
| Tokens.SessionTokenRoundTripAtLast | server/server.go:503-527 | When the split is at the last "_", every username round-trips, underscores included. |
| Hubs.Hub.constructor | server/server.go:50-58 | A new hub serves the given room and has no connections. |
| Hubs.Hub.UpdateUserCount | server/server.go:110-139 | The stored count of the room's record becomes the number of live connections. `delta` is ignored, and a missing record stays missing. |
| Hubs.Hub.Broadcast | server/server.go:96-104 | Exactly the connections whose write failed are closed and removed. All others stay and receive the message. |
| Hubs.Hub.Register | server/server.go:63-74 | Adds the connection under the generated user id and stores the membership count. Announces the join to all connections. The stored count is never below the live count. |
| Hubs.Hub.Unregister | server/server.go:76-94 | An absent connection changes nothing. A present one is removed and closed, the count is stored, and the others are told a user left. |
| Hubs.Hub.BroadcastRecounted | server/server.go:96-104 | The corrected fan-out. Failing connections are pruned and closed as in `Broadcast`, then the count is stored again. The stored count equals the live connections, and no other record or field changes. |
| Hubs.StaleCountWitness | server/server.go:63-104 | With `Broadcast` as written, the record goes stale after two connections join and a client frame is broadcast during which the first connection's write fails. The stored count is then 2 with 1 live connection. The scenario assumes the join notices are delivered immediately, as everywhere in this model; in the code as written `Run` blocks at the first join. Still, every version that delivers them reaches this state, because `Broadcast` (server/server.go:96-104) never stores the count again. |
| Hubs.RecountedWitness | server/server.go:96-139 | In the same scenario with the recounting fan-out, the stored count is 1 with 1 live connection. |
| Hubs.HubRegistry.GetOrCreate | server/server.go:156-179 | An empty room id, or a room without a stored record, is refused with the hub map untouched. An existing hub is reused. Otherwise exactly one new empty hub is stored under the id. |
| Handlers.RegisterUserHandler | server/server.go:244-262 | An existing username is a conflict and the stored hash is never overwritten. Otherwise the hash is stored under the username. |
| Handlers.LoginUserHandler | server/server.go:290-307 | An unknown username is "not found" and a wrong hash is "unauthorized". Success comes exactly on a matching hash, with a token whose extracted username is the login name when that name has no "_". |
| Handlers.CreateChatroomHandler | server/server.go:341-410 | A missing token, a token with an empty username or an empty name is refused before anything is stored. Otherwise the record with a zero count is stored and indexed under the id and the creator. |

## Left out

- Goroutines, channels, `sync.Mutex`/`RWMutex`: each `select` case and each registry call is one atomic method. The interleaving of different rooms is not modelled.
- `ChatRooms.ReadLoop`, `ChatRooms.HandleConnection`: these describe one connection alone in its room over its whole life. In the source, other clients' `handleConnection` goroutines and registrations interleave with this connection's broadcasts (server/main.go:361, 397). Interleaving within a room is represented only by the atomic steps `HandleFrame`, `Register` and `Unregister`, which each state their effect from any room state. They leave out what the client's own connection receives, namely its own broadcasts interleaved with its refresh replies. `HandleFrame` states that frame by frame.
- Blocking of `Run` on its own unbuffered `broadcast` channel (see above). The model implements the intended immediate store and fan-out of system messages.
- WebSocket upgrade, `ReadJSON`/`WriteJSON`/`WriteMessage`/`Close`: writes are the `failing` oracle and reads are an input sequence. A write that blocks forever is not modelled.
- JSON encoding: the user list is carried as a list of names, not as a JSON string. The hub's decode-and-re-marshal read loop with raw passthrough (server/server.go:191-224) is not modelled.
- `time.Now`, RFC 3339 formatting, `uuid.New`, `UnixNano`-based ids: these are parameters.
- `hashPassword` (server/server.go:529-532): the handlers take the hash as an argument. The source keeps only the first byte of the SHA-256 digest (two hex digits, server/server.go:531). "Wrong hash" in the handler rows therefore does not mean "wrong password": about 1 in 256 wrong passwords hash to the stored value and log in.
- Redis errors and unmarshal errors in the handlers and in `updateUserCount`: each store call is taken to succeed. Redis is a set of maps and sets, one per key family. The single shared keyspace, where a username could equal a "chatroom:" key, is not modelled.
- `chatroomsHandler`, `userChatroomsHandler`, `pingHandler`, the HTTP routing, CORS, both `main` functions and `client/src/App.js`: plumbing around the core.
- Go map iteration order: user lists and room listings are specified up to order (multisets, or distinct ids covering the map).
- The unsynchronised increment of the global `clientCounter`: the counter is a field of `ChatServer`, updated atomically.
- `ChatServers.ChatServer.CreateRoom`, `ChatServers.ChatServer.RegisterUser`: `requires` the generated id to be unused. The source trusts UUID uniqueness here and would overwrite on a collision.

## Findings

| source | as written | input that shows it | evidently intended | confidence | as-written member | corrected member |
|---|---|---|---|---|---|---|
| server/server.go:511-517 | the username is the text before the FIRST "_" of the token | register "a_b" and log in: the token "a_b_<t>" gives the username "a" | the username the token was generated for (token format "username_timestamp") | medium; not executed | Tokens.UnderscoreUsernameTruncated | Tokens.SessionTokenRoundTripAtLast |
| server/server.go:96-104 | broadcast prunes failed connections without storing the count again | two connections join; a client frame is then broadcast (server/server.go:215) and the first connection's write fails: stored count 2, live connections 1. This assumes the join notices are delivered immediately; as written, `Run` blocks at the first join (server/server.go:74, 152). Any version that delivers them still reaches this state, because `Broadcast` never stores the count again | stored count equals live connections ("use actual count", server/server.go:127) | medium; not executed | Hubs.StaleCountWitness | Hubs.Hub.BroadcastRecounted |

`Hub.Broadcast`, `Hub.UpdateUserCount` and the handlers keep the as-written behaviour. `Hub.Register` and `Hub.Unregister` keep it too, except that their system messages are delivered immediately instead of blocking `Run`. The corrected definitions, and what is proved about them, sit beside them. `Hubs.RecountedWitness` runs the input of the second row through the corrected fan-out.
