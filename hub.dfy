/**
 * The older room loop of server/server.go: a `Hub` per chat room keeps a map
 * from connection to generated user id, and writes the live user count into
 * the room's record in the key-value store. `Store` stands for the Redis keys
 * the hub and the HTTP handlers use.
 */
module Hubs {
  import opened Wrappers
  import opened Messages
  import opened Fanout

  /** A connection handle (the `*websocket.Conn` pointer). */
  type Conn = nat

  /** The JSON record stored under "chatroom:<id>". */
  datatype Chatroom = Chatroom(
    id: string,
    name: string,
    description: string,
    creatorId: string,
    createdAt: int,
    userCount: int)

  /** The Redis keys in use: "chatroom:<id>", "chatrooms", "user:<name>:chatrooms" and "<username>". */
  class Store {
    var chatrooms: map<string, Chatroom>
    var index: set<string>
    var userRooms: map<string, set<string>>
    var passwords: map<string, string>

    constructor ()
      ensures chatrooms == map[] && index == {} && userRooms == map[] && passwords == map[]
    {
      chatrooms := map[];
      index := {};
      userRooms := map[];
      passwords := map[];
    }
  }

  /** The record of `roomId`, if there is one, with its user count replaced. */
  function WithUserCount(records: map<string, Chatroom>, roomId: string, count: int): map<string, Chatroom> {
    if roomId in records then records[roomId := records[roomId].(userCount := count)] else records
  }

  class Hub {
    const roomId: string
    const store: Store
    var clients: map<Conn, string>
    var inbox: map<Conn, seq<Message>>
    var closed: set<Conn>

    /** `newHub`. */
    constructor (roomId: string, store: Store)
      ensures this.roomId == roomId && this.store == store
      ensures clients == map[] && inbox == map[] && closed == {}
    {
      this.roomId := roomId;
      this.store := store;
      clients := map[];
      inbox := map[];
      closed := {};
    }

    /**
     * `updateUserCount`: the stored count becomes the number of live
     * connections; `delta` is not used. A missing record is left missing.
     */
    method UpdateUserCount(delta: int)
      modifies store`chatrooms
      ensures store.chatrooms == WithUserCount(old(store.chatrooms), roomId, |clients|)
      ensures roomId in store.chatrooms <==> roomId in old(store.chatrooms)
      ensures roomId in store.chatrooms ==> store.chatrooms[roomId].userCount == |clients|
    {
      if roomId in store.chatrooms {
        var record := store.chatrooms[roomId];
        store.chatrooms := store.chatrooms[roomId := record.(userCount := |clients|)];
      }
    }

    /**
     * The broadcast case of `Run`: write to every connection; one whose write
     * fails is closed and removed, and the others still get the message.
     */
    method Broadcast(msg: Message, failing: set<Conn>)
      modifies this`clients, this`inbox, this`closed
      ensures clients == old(clients) - failing
      ensures inbox == Deliver(old(inbox), old(clients).Keys - failing, msg)
      ensures closed == old(closed) + old(clients).Keys * failing
    {
      var pending := clients.Keys;
      ghost var done: set<Conn> := {};
      DeliverNone(old(inbox), msg);
      while pending != {}
        modifies this`clients, this`inbox, this`closed
        invariant done + pending == old(clients).Keys && done !! pending
        invariant clients == old(clients) - (done * failing)
        invariant inbox == Deliver(old(inbox), done - failing, msg)
        invariant closed == old(closed) + done * failing
        decreases pending
      {
        var conn :| conn in pending;
        ghost var sentTo := done - failing;
        FanoutStep(done, failing, conn);
        if conn in failing {
          RemoveOneMore(old(clients), done * failing, conn);
          closed := closed + {conn};
          clients := clients - {conn};
        } else {
          DeliverStep(old(inbox), sentTo, conn, msg);
          inbox := inbox[conn := Received(inbox, conn) + [msg]];
        }
        pending := pending - {conn};
        done := done + {conn};
      }
      assert done == old(clients).Keys;
    }

    /**
     * The register case of `Run`: add the connection under a generated user
     * id, store the count, then announce the new user to every connection.
     */
    method Register(conn: Conn, userId: string, now: int, failing: set<Conn>)
      modifies this`clients, this`inbox, this`closed, store`chatrooms
      ensures var members := old(clients)[conn := userId];
              && clients == members - failing
              && store.chatrooms == WithUserCount(old(store.chatrooms), roomId, |members|)
              && inbox == Deliver(old(inbox), members.Keys - failing, SystemMessage(JoinedNotice, now))
              && closed == old(closed) + members.Keys * failing
      ensures roomId in store.chatrooms ==> store.chatrooms[roomId].userCount >= |clients|
    {
      clients := clients[conn := userId];
      ghost var members := clients;
      UpdateUserCount(1);
      Broadcast(SystemMessage(JoinedNotice, now), failing);
      RemoveShrinks(members, failing);
    }

    /**
     * The unregister case of `Run`: an unknown connection changes nothing; a
     * known one is removed and closed, the count is stored, and the others
     * are told that a user left.
     */
    method Unregister(conn: Conn, now: int, failing: set<Conn>)
      modifies this`clients, this`inbox, this`closed, store`chatrooms
      ensures conn !in old(clients) ==>
                && clients == old(clients) && inbox == old(inbox) && closed == old(closed)
                && store.chatrooms == old(store.chatrooms)
      ensures conn in old(clients) ==>
                var rest := old(clients) - {conn};
                && clients == rest - failing
                && store.chatrooms == WithUserCount(old(store.chatrooms), roomId, |rest|)
                && inbox == Deliver(old(inbox), rest.Keys - failing, SystemMessage(LeftNotice, now))
                && closed == old(closed) + {conn} + rest.Keys * failing
      ensures conn in old(clients) && roomId in store.chatrooms ==>
                store.chatrooms[roomId].userCount >= |clients|
    {
      if conn in clients {
        clients := clients - {conn};
        ghost var rest := clients;
        closed := closed + {conn};
        UpdateUserCount(-1);
        Broadcast(SystemMessage(LeftNotice, now), failing);
        RemoveShrinks(rest, failing);
      }
    }

    /**
     * A fan-out that stores the count again after pruning, so that the
     * stored count always matches the live connections.
     */
    method BroadcastRecounted(msg: Message, failing: set<Conn>)
      modifies this`clients, this`inbox, this`closed, store`chatrooms
      ensures clients == old(clients) - failing
      ensures inbox == Deliver(old(inbox), old(clients).Keys - failing, msg)
      ensures closed == old(closed) + old(clients).Keys * failing
      ensures store.chatrooms == WithUserCount(old(store.chatrooms), roomId, |clients|)
      ensures roomId in store.chatrooms <==> roomId in old(store.chatrooms)
      ensures roomId in store.chatrooms ==> store.chatrooms[roomId].userCount == |clients|
    {
      Broadcast(msg, failing);
      UpdateUserCount(0);
    }
  }

  /** The membership maps of the two-connection scenario below. */
  lemma TwoConnections()
    ensures var none: map<Conn, string> := map[];
            var one := none[1 := "user_1"] - {};
            var two := one[2 := "user_2"] - {};
            && one == map[1 := "user_1"]
            && two == map[1 := "user_1", 2 := "user_2"] && |two| == 2
            && two - {1} == map[2 := "user_2"] && |two - {1}| == 1
  {
    var two: map<Conn, string> := map[1 := "user_1", 2 := "user_2"];
    assert two.Keys == {1, 2};
    assert (two - {1}).Keys == {2};
  }

  /**
   * As written, the stored count goes stale: two connections join, then a
   * client frame is broadcast and the first connection's write fails. The
   * record still says 2 while one connection is live.
   */
  method StaleCountWitness() returns (stored: int, live: nat)
    ensures stored == 2 && live == 1
  {
    var store := new Store();
    store.chatrooms := map["room" := Chatroom("room", "General", "", "alice", 0, 0)];
    var hub := new Hub("room", store);
    TwoConnections();
    hub.Register(1, "user_1", 0, {});
    hub.Register(2, "user_2", 0, {});
    hub.Broadcast(Message("message", Text("hi"), "user_2", 0), {1});
    stored := store.chatrooms["room"].userCount;
    live := |hub.clients|;
  }

  /** The same scenario with the recounting fan-out: the record matches the live connections. */
  method RecountedWitness() returns (stored: int, live: nat)
    ensures stored == 1 && live == 1
  {
    var store := new Store();
    store.chatrooms := map["room" := Chatroom("room", "General", "", "alice", 0, 0)];
    var hub := new Hub("room", store);
    TwoConnections();
    hub.Register(1, "user_1", 0, {});
    hub.Register(2, "user_2", 0, {});
    hub.BroadcastRecounted(Message("message", Text("hi"), "user_2", 0), {1});
    stored := store.chatrooms["room"].userCount;
    live := |hub.clients|;
  }

  datatype HubError = RoomIdRequired | ChatroomNotFound

  /** The map of live hubs (`chatHubs`), one per chat room id. */
  class HubRegistry {
    const store: Store
    var hubs: map<string, Hub>

    ghost predicate Valid()
      reads this, hubs.Values
    {
      forall id :: id in hubs ==> hubs[id].roomId == id && hubs[id].store == store
    }

    constructor (store: Store)
      ensures Valid() && this.store == store && hubs == map[]
    {
      this.store := store;
      hubs := map[];
    }

    /**
     * The room checks and get-or-create of `serveWs`: an empty id or a room
     * without a stored record is refused before any hub is touched; an
     * existing hub is reused; otherwise a new, empty hub is stored.
     */
    method GetOrCreate(roomId: string) returns (r: Result<Hub, HubError>)
      requires Valid()
      modifies this`hubs
      ensures Valid()
      ensures roomId == "" ==> r == Failure(RoomIdRequired) && hubs == old(hubs)
      ensures roomId != "" && roomId !in store.chatrooms ==> r == Failure(ChatroomNotFound) && hubs == old(hubs)
      ensures roomId != "" && roomId in store.chatrooms && roomId in old(hubs) ==>
                r == Success(old(hubs)[roomId]) && hubs == old(hubs)
      ensures roomId != "" && roomId in store.chatrooms && roomId !in old(hubs) ==>
                && r.Success? && fresh(r.value)
                && r.value.roomId == roomId && r.value.store == store && r.value.clients == map[]
                && hubs == old(hubs)[roomId := r.value]
    {
      if roomId == "" {
        return Failure(RoomIdRequired);
      }
      if roomId !in store.chatrooms {
        return Failure(ChatroomNotFound);
      }
      if roomId in hubs {
        return Success(hubs[roomId]);
      }
      var hub := new Hub(roomId, store);
      hubs := hubs[roomId := hub];
      r := Success(hub);
    }
  }
}
