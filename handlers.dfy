/**
 * What the HTTP handlers of server/server.go decide before and after they
 * touch the store: duplicate usernames, login, and chat room creation.
 * Request decoding and store errors are not part of this model.
 */
module Handlers {
  import opened Wrappers
  import opened Tokens
  import opened Hubs

  /** The HTTP statuses these handlers answer with. */
  datatype Status = Ok | Created | BadRequest | Unauthorized | NotFound | Conflict

  /** The members of a Redis set key, empty when the key is absent. */
  function Members(sets: map<string, set<string>>, key: string): set<string> {
    if key in sets then sets[key] else {}
  }

  /**
   * `registerUserHandler`: an existing username is a conflict and is never
   * overwritten; otherwise the password hash is stored under the username.
   * The hash is computed by the caller.
   */
  method RegisterUserHandler(store: Store, username: string, passwordHash: string) returns (status: Status)
    modifies store`passwords
    ensures status == Conflict <==> username in old(store.passwords)
    ensures status == Conflict ==> store.passwords == old(store.passwords)
    ensures status != Conflict ==> status == Created && store.passwords == old(store.passwords)[username := passwordHash]
  {
    if username in store.passwords {
      return Conflict;
    }
    store.passwords := store.passwords[username := passwordHash];
    status := Created;
  }

  /**
   * `loginUserHandler`: an unknown username is not found, a wrong password
   * hash is unauthorized, and a match yields a session token for the username.
   */
  function LoginUserHandler(store: Store, username: string, passwordHash: string, unixSeconds: int)
    : (r: Result<string, Status>)
    reads store
    ensures r.Success? <==> username in store.passwords && store.passwords[username] == passwordHash
    ensures username !in store.passwords ==> r == Failure(NotFound)
    ensures username in store.passwords && store.passwords[username] != passwordHash ==> r == Failure(Unauthorized)
    ensures r.Success? && '_' !in username ==> ExtractUsername(r.value) == username
  {
    if username !in store.passwords then Failure(NotFound)
    else if store.passwords[username] != passwordHash then Failure(Unauthorized)
    else
      var token := GenerateSessionToken(username, unixSeconds);
      assert '_' !in username ==> ExtractUsername(token) == username by {
        if '_' !in username {
          SessionTokenRoundTrip(username, unixSeconds);
        }
      }
      Success(token)
  }

  /**
   * `createChatroomHandler`: a missing token, a token without a username, or
   * an empty name is refused before anything is stored. Otherwise the record
   * (with a zero user count) is stored under the generated id and the id is
   * added to the room index and to the creator's set.
   */
  method CreateChatroomHandler(store: Store, token: string, name: string, description: string,
                               chatroomId: string, now: int)
    returns (r: Result<Chatroom, Status>)
    modifies store`chatrooms, store`index, store`userRooms
    ensures token == "" || ExtractUsername(token) == "" ==> r == Failure(Unauthorized)
    ensures token != "" && ExtractUsername(token) != "" && name == "" ==> r == Failure(BadRequest)
    ensures token != "" && ExtractUsername(token) != "" && name != "" ==> r.Success?
    ensures r.Failure? ==>
              && store.chatrooms == old(store.chatrooms)
              && store.index == old(store.index)
              && store.userRooms == old(store.userRooms)
    ensures r.Success? ==>
              var creator := ExtractUsername(token);
              && name != "" && creator != ""
              && r.value == Chatroom(chatroomId, name, description, creator, now, 0)
              && store.chatrooms == old(store.chatrooms)[chatroomId := r.value]
              && store.index == old(store.index) + {chatroomId}
              && store.userRooms == old(store.userRooms)[creator := Members(old(store.userRooms), creator) + {chatroomId}]
  {
    if token == "" {
      return Failure(Unauthorized);
    }
    var username := ExtractUsername(token);
    if username == "" {
      return Failure(Unauthorized);
    }
    if name == "" {
      return Failure(BadRequest);
    }
    var chatroom := Chatroom(chatroomId, name, description, username, now, 0);
    store.chatrooms := store.chatrooms[chatroomId := chatroom];
    store.index := store.index + {chatroomId};
    store.userRooms := store.userRooms[username := Members(store.userRooms, username) + {chatroomId}];
    r := Success(chatroom);
  }
}
