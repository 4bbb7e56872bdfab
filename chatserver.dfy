/**
 * The `ChatServer` of server/main.go: the registry of rooms, the in-memory
 * user and session tables, and the admission of a WebSocket connection into
 * a room (`wsHandler`). The client counter, a package-level variable in the
 * source, is a field of the server here.
 */
module ChatServers {
  import opened Wrappers
  import opened Decimal
  import opened Messages
  import opened History
  import opened ChatRooms
  import opened Fanout

  datatype User = User(id: string, username: string, password: string)

  /** A session issued by `AuthenticateUser`. */
  datatype Session = Session(token: string, userId: string)

  datatype ServerError =
    | UsernameExists
    | InvalidCredentials
    | InvalidSession
    | RoomIdRequired
    | RoomNotFound
    | UpgradeFailed
    | NoInitialFrame

  /** `fmt.Sprintf("user_%d", clientCounter)`. */
  function ClientId(counter: nat): (id: string)
    ensures |id| > 5 && id[..5] == "user_"
    ensures forall k :: 5 <= k < |id| ==> '0' <= id[k] <= '9'
  {
    "user_" + NatToString(counter)
  }

  /** Every value of the counter gives a different client id. */
  lemma {:induction false} ClientIdInjective(a: nat, b: nat)
    ensures a != b ==> ClientId(a) != ClientId(b)
  {
    if ClientId(a) == ClientId(b) {
      assert ClientId(a)[5..] == NatToString(a);
      assert ClientId(b)[5..] == NatToString(b);
      NatToStringInjective(a, b);
    }
  }

  ghost predicate UsernameTaken(users: map<string, User>, username: string) {
    exists uid :: uid in users && users[uid].username == username
  }

  ghost predicate CredentialsMatch(users: map<string, User>, username: string, password: string) {
    exists uid :: uid in users && users[uid].username == username && users[uid].password == password
  }

  /** The ids of a room listing. */
  ghost function Ids(infos: seq<RoomInfo>): set<string> {
    set i | 0 <= i < |infos| :: infos[i].id
  }

  /** Appending a snapshot adds exactly its id. */
  lemma IdsSnoc(infos: seq<RoomInfo>, info: RoomInfo)
    ensures Ids(infos + [info]) == Ids(infos) + {info.id}
  {
    var s := infos + [info];
    assert s[|infos|].id == info.id;
    forall k | k in Ids(infos) ensures k in Ids(s) {
      var i :| 0 <= i < |infos| && infos[i].id == k;
      assert s[i].id == k;
    }
  }

  /** A listing without repeated ids has as many ids as entries. */
  lemma {:induction false} DistinctIdsCard(infos: seq<RoomInfo>)
    requires forall i, j :: 0 <= i < j < |infos| ==> infos[i].id != infos[j].id
    ensures |Ids(infos)| == |infos|
  {
    if infos != [] {
      var init := infos[..|infos| - 1];
      var last := infos[|infos| - 1];
      assert infos == init + [last];
      DistinctIdsCard(init);
      IdsSnoc(init, last);
      forall i | 0 <= i < |init| ensures init[i].id != last.id {
        assert init[i] == infos[i];
      }
      assert last.id !in Ids(init);
    }
  }

  /** Appending a snapshot with a new id keeps the ids of a listing distinct. */
  lemma ListingStep(infos: seq<RoomInfo>, info: RoomInfo, done: set<string>)
    requires Ids(infos) == done && info.id !in done
    requires forall i, j :: 0 <= i < j < |infos| ==> infos[i].id != infos[j].id
    ensures Ids(infos + [info]) == done + {info.id}
    ensures forall i, j :: 0 <= i < j < |infos + [info]| ==> (infos + [info])[i].id != (infos + [info])[j].id
  {
    IdsSnoc(infos, info);
    forall i | 0 <= i < |infos| ensures infos[i].id != info.id {
      assert infos[i].id in Ids(infos);
    }
  }

  /** A listing whose distinct ids are exactly `keys` has one entry per key. */
  lemma ListingCard(infos: seq<RoomInfo>, keys: set<string>)
    requires Ids(infos) == keys
    requires forall i, j :: 0 <= i < j < |infos| ==> infos[i].id != infos[j].id
    ensures |infos| == |keys|
  {
    DistinctIdsCard(infos);
  }

  class ChatServer {
    var rooms: map<string, ChatRoom>
    var users: map<string, User>
    var sessions: map<string, string>
    var clientCounter: nat

    /** Each room is stored under its own id and is itself valid. */
    ghost predicate RoomsValid()
      reads this, rooms.Values
    {
      forall id :: id in rooms ==> rooms[id].id == id && rooms[id].Valid()
    }

    /** Users are stored under their id, usernames are unique, sessions name existing users. */
    ghost predicate AccountsValid()
      reads this
    {
      && (forall uid :: uid in users ==> users[uid].id == uid)
      && (forall a, b :: a in users && b in users && users[a].username == users[b].username ==> a == b)
      && (forall t :: t in sessions ==> sessions[t] in users)
    }

    ghost predicate Valid()
      reads this, rooms.Values
    {
      RoomsValid() && AccountsValid()
    }

    /** `NewChatServer`: empty tables. */
    constructor ()
      ensures Valid()
      ensures rooms == map[] && users == map[] && sessions == map[] && clientCounter == 0
    {
      rooms := map[];
      users := map[];
      sessions := map[];
      clientCounter := 0;
    }

    /** `GetRoom`: a lookup that never creates a room; an unknown id gives `None`. */
    function GetRoom(id: string): (r: Option<ChatRoom>)
      requires RoomsValid()
      reads this, rooms.Values
      ensures r.Some? <==> id in rooms
      ensures r.Some? ==> r.value == rooms[id] && r.value.id == id
    {
      if id in rooms then Some(rooms[id]) else None
    }

    /**
     * `CreateRoom`: store a new, empty room under `freshId`. The id comes from
     * a UUID generator, which the source trusts to be unused.
     */
    method CreateRoom(name: string, description: string, creatorId: string, freshId: string, createdAt: string)
      returns (room: ChatRoom)
      requires Valid()
      requires freshId !in rooms
      modifies this`rooms
      ensures Valid()
      ensures fresh(room)
      ensures rooms == old(rooms)[freshId := room]
      ensures room.Info() == RoomInfo(freshId, name, description, 0, createdAt, creatorId)
      ensures room.messages == [] && room.clients == map[] && room.inbox == map[] && room.closed == {}
      ensures GetRoom(freshId) == Some(room)
      ensures forall id :: id != freshId ==> GetRoom(id) == old(GetRoom(id))
    {
      room := new ChatRoom(freshId, name, description, creatorId, createdAt);
      rooms := rooms[freshId := room];
    }

    /** `ListRooms`: one snapshot per room (in map order, which Go leaves unspecified). */
    method ListRooms() returns (infos: seq<RoomInfo>)
      requires RoomsValid()
      ensures |infos| == |rooms|
      ensures forall i :: 0 <= i < |infos| ==> infos[i].id in rooms && infos[i] == rooms[infos[i].id].Info()
      ensures forall i, j :: 0 <= i < j < |infos| ==> infos[i].id != infos[j].id
      ensures Ids(infos) == rooms.Keys
    {
      infos := [];
      var rest := rooms.Keys;
      while rest != {}
        invariant rest <= rooms.Keys
        invariant Ids(infos) == rooms.Keys - rest
        invariant forall i :: 0 <= i < |infos| ==> infos[i].id in rooms && infos[i] == rooms[infos[i].id].Info()
        invariant forall i, j :: 0 <= i < j < |infos| ==> infos[i].id != infos[j].id
        decreases rest
      {
        var id :| id in rest;
        var info := rooms[id].Info();
        ListingStep(infos, info, rooms.Keys - rest);
        assert (rooms.Keys - rest) + {id} == rooms.Keys - (rest - {id});
        infos := infos + [info];
        rest := rest - {id};
      }
      ListingCard(infos, rooms.Keys);
    }

    /** `ListUserRooms`: the snapshots of exactly the rooms that `userId` created. */
    method ListUserRooms(userId: string) returns (infos: seq<RoomInfo>)
      requires RoomsValid()
      ensures forall i :: 0 <= i < |infos| ==>
                infos[i].id in rooms && infos[i] == rooms[infos[i].id].Info() && infos[i].creatorId == userId
      ensures forall i, j :: 0 <= i < j < |infos| ==> infos[i].id != infos[j].id
      ensures forall id :: id in rooms && rooms[id].creatorId == userId ==> id in Ids(infos)
    {
      infos := [];
      var rest := rooms.Keys;
      while rest != {}
        invariant rest <= rooms.Keys
        invariant Ids(infos) !! rest
        invariant forall k :: k in rooms && k !in rest && rooms[k].creatorId == userId ==> k in Ids(infos)
        invariant forall i :: 0 <= i < |infos| ==>
                    infos[i].id in rooms && infos[i] == rooms[infos[i].id].Info() && infos[i].creatorId == userId
        invariant forall i, j :: 0 <= i < j < |infos| ==> infos[i].id != infos[j].id
        decreases rest
      {
        var id :| id in rest;
        if rooms[id].creatorId == userId {
          var info := rooms[id].Info();
          ListingStep(infos, info, Ids(infos));
          infos := infos + [info];
        }
        rest := rest - {id};
      }
    }

    /**
     * `RegisterUser`: refuse a username that is already taken; otherwise add
     * the user under `freshId` (a UUID the source trusts to be unused).
     */
    method RegisterUser(username: string, password: string, freshId: string) returns (r: Result<User, ServerError>)
      requires Valid()
      requires freshId !in users
      modifies this`users
      ensures Valid()
      ensures r.Failure? <==> UsernameTaken(old(users), username)
      ensures r.Failure? ==> r.error == UsernameExists && users == old(users)
      ensures r.Success? ==> r.value == User(freshId, username, password) && users == old(users)[freshId := r.value]
    {
      var rest := users.Keys;
      while rest != {}
        invariant rest <= users.Keys
        invariant forall uid :: uid in users && uid !in rest ==> users[uid].username != username
        decreases rest
      {
        var uid :| uid in rest;
        if users[uid].username == username {
          return Failure(UsernameExists);
        }
        rest := rest - {uid};
      }
      var user := User(freshId, username, password);
      users := users[freshId := user];
      r := Success(user);
    }

    /** `ValidateSession`: the user id a token was issued for, or an error. */
    function ValidateSession(token: string): (r: Result<string, ServerError>)
      requires AccountsValid()
      reads this
      ensures r.Success? <==> token in sessions
      ensures r.Success? ==> r.value == sessions[token] && r.value in users
      ensures r.Failure? ==> r.error == InvalidSession
    {
      if token in sessions then Success(sessions[token]) else Failure(InvalidSession)
    }

    /**
     * `AuthenticateUser`: on a matching username and password, store a session
     * `freshToken` (a UUID) for that user; otherwise fail and store nothing.
     */
    method AuthenticateUser(username: string, password: string, freshToken: string)
      returns (r: Result<Session, ServerError>)
      requires Valid()
      modifies this`sessions
      ensures Valid()
      ensures r.Failure? <==> !CredentialsMatch(users, username, password)
      ensures r.Failure? ==> r.error == InvalidCredentials && sessions == old(sessions)
      ensures r.Success? ==>
                && r.value.token == freshToken
                && r.value.userId in users
                && users[r.value.userId].username == username
                && users[r.value.userId].password == password
                && sessions == old(sessions)[freshToken := r.value.userId]
                && ValidateSession(freshToken) == Success(r.value.userId)
    {
      var rest := users.Keys;
      while rest != {}
        invariant rest <= users.Keys
        invariant forall uid :: uid in users && uid !in rest ==>
                    !(users[uid].username == username && users[uid].password == password)
        decreases rest
      {
        var uid :| uid in rest;
        var user := users[uid];
        if user.username == username && user.password == password {
          sessions := sessions[freshToken := user.id];
          return Success(Session(freshToken, user.id));
        }
        rest := rest - {uid};
      }
      r := Failure(InvalidCredentials);
    }

    /**
     * `wsHandler`: check the room id, look the room up, upgrade, take the next
     * client id, read the first frame (its sender is the display name) and
     * register the client. `upgraded` and `first` are what the transport
     * returned; a failed read closes the connection without registering.
     * `failing` and `listFailing` are the write outcomes of the join notice
     * and of the user list.
     */
    method Connect(roomId: string, upgraded: bool, first: Option<Message>, now: int,
                   failing: set<string>, listFailing: set<string>)
      returns (r: Result<Client, ServerError>)
      requires Valid()
      modifies this`clientCounter, rooms.Values
      ensures Valid()
      ensures roomId == "" ==> r == Failure(RoomIdRequired)
      ensures roomId != "" && roomId !in rooms ==> r == Failure(RoomNotFound)
      ensures roomId != "" && roomId in rooms && !upgraded ==> r == Failure(UpgradeFailed)
      ensures roomId != "" && roomId in rooms && upgraded && first.None? ==> r == Failure(NoInitialFrame)
      ensures clientCounter == if roomId != "" && roomId in rooms && upgraded then old(clientCounter) + 1
                               else old(clientCounter)
      ensures roomId != "" && roomId in rooms && upgraded && first.Some? ==> r.Success?
      ensures r.Failure? ==> forall id :: id in rooms ==> unchanged(rooms[id])
      ensures r.Success? ==>
                && roomId != "" && roomId in rooms && first.Some?
                && r.value == Client(ClientId(clientCounter), first.value.sender)
                && rooms[roomId].clients == old(rooms[roomId].clients)[r.value.id := r.value] - failing
                && rooms[roomId].messages == Appended(old(rooms[roomId].messages), JoinedMessage(r.value.name, now))
                && rooms[roomId].closed
                   == old(rooms[roomId].closed) + (old(rooms[roomId].clients).Keys + {r.value.id}) * failing
                && (exists list :: ListsMembers(list, rooms[roomId].clients, now)
                      && rooms[roomId].inbox
                         == Deliver(Deliver(old(rooms[roomId].inbox),
                                            (old(rooms[roomId].clients).Keys + {r.value.id}) - failing,
                                            JoinedMessage(r.value.name, now)),
                                    {r.value.id} - (failing + listFailing), list))
                && forall id :: id in rooms && id != roomId ==> unchanged(rooms[id])
    {
      if roomId == "" {
        return Failure(RoomIdRequired);
      }
      var found := GetRoom(roomId);
      if found.None? {
        return Failure(RoomNotFound);
      }
      if !upgraded {
        return Failure(UpgradeFailed);
      }
      clientCounter := clientCounter + 1;
      if first.None? {
        return Failure(NoInitialFrame);
      }
      var room := found.value;
      var client := Client(ClientId(clientCounter), first.value.sender);
      var list := room.Register(client, now, failing, listFailing);
      r := Success(client);
    }
  }
}
