/**
 * One chat room of server/main.go: its membership, its bounded history and
 * the three cases of its event loop (`Run`), each modelled as one atomic
 * method, plus the user-list reply and the per-connection frame dispatch.
 *
 * The transport is abstract: `inbox[id]` is every frame written successfully
 * to client `id`'s connection, `closed` the clients whose connection the room
 * closed, and each operation receives `failing`, the client ids whose write
 * fails during that operation.
 */
module ChatRooms {
  import opened Wrappers
  import opened Messages
  import opened History
  import opened Fanout

  /** A connected user: `id` from the server's counter, `name` from the first frame. */
  datatype Client = Client(id: string, name: string)

  /** The snapshot that `GetInfo` returns; `createdAt` is already formatted. */
  datatype RoomInfo = RoomInfo(
    id: string,
    name: string,
    description: string,
    userCount: nat,
    createdAt: string,
    creatorId: string)

  /** The display names of the registered clients, one per client, in no particular order. */
  ghost function NameBag(clients: map<string, Client>): multiset<string>
    decreases |clients|
  {
    if clients == map[] then multiset{}
    else
      var k :| k in clients;
      assert |clients - {k}| < |clients| by {
        assert (clients - {k}).Keys == clients.Keys - {k};
      }
      multiset{clients[k].name} + NameBag(clients - {k})
  }

  /** The name bag does not depend on which client is taken out first. */
  lemma {:induction false} NameBagPick(clients: map<string, Client>, k: string)
    requires k in clients
    ensures NameBag(clients) == multiset{clients[k].name} + NameBag(clients - {k})
    decreases |clients|
  {
    var j :| j in clients && NameBag(clients) == multiset{clients[j].name} + NameBag(clients - {j});
    if j != k {
      var both := clients - {j} - {k};
      assert both == clients - {k} - {j};
      CardRemove(clients, j);
      CardRemove(clients, k);
      NameBagPick(clients - {j}, k);
      NameBagPick(clients - {k}, j);
    }
  }

  lemma CardRemove(clients: map<string, Client>, k: string)
    requires k in clients
    ensures |clients - {k}| == |clients| - 1
  {
    assert (clients - {k}).Keys == clients.Keys - {k};
  }

  /** Moving one client's name from the map to the list keeps the total bag and the total size. */
  lemma NamesStep(names: seq<string>, rest: map<string, Client>, k: string)
    requires k in rest
    ensures multiset(names + [rest[k].name]) + NameBag(rest - {k}) == multiset(names) + NameBag(rest)
    ensures |names + [rest[k].name]| + |rest - {k}| == |names| + |rest|
  {
    NameBagPick(rest, k);
    CardRemove(rest, k);
  }

  /** `m` is the user-list frame for membership `clients`, sent at `now`. */
  ghost predicate ListsMembers(m: Message, clients: map<string, Client>, now: int) {
    && m.kind == UserListKind
    && m.sender == SystemSender
    && m.timestamp == now
    && m.content.Names?
    && |m.content.names| == |clients|
    && multiset(m.content.names) == NameBag(clients)
  }

  class ChatRoom {
    const id: string
    const name: string
    const description: string
    const creatorId: string
    const createdAt: string
    var clients: map<string, Client>
    var messages: seq<Message>
    var inbox: map<string, seq<Message>>
    var closed: set<string>

    /** History within its bound; every client is stored under its own id. */
    ghost predicate Valid()
      reads this
    {
      && |messages| <= MaxHistory
      && forall k :: k in clients ==> clients[k].id == k
    }

    /** `NewChatRoom`: no clients, empty history. */
    constructor (id: string, name: string, description: string, creatorId: string, createdAt: string)
      ensures Valid()
      ensures this.id == id && this.name == name && this.description == description
      ensures this.creatorId == creatorId && this.createdAt == createdAt
      ensures clients == map[] && messages == [] && inbox == map[] && closed == {}
    {
      this.id := id;
      this.name := name;
      this.description := description;
      this.creatorId := creatorId;
      this.createdAt := createdAt;
      clients := map[];
      messages := [];
      inbox := map[];
      closed := {};
    }

    /** `GetInfo`: a snapshot computed from the live state. */
    function Info(): (r: RoomInfo)
      reads this
      ensures r.userCount == |clients|
      ensures r.id == id && r.name == name && r.description == description
      ensures r.createdAt == createdAt && r.creatorId == creatorId
    {
      RoomInfo(id, name, description, |clients|, createdAt, creatorId)
    }

    /**
     * The broadcast case of `Run`: store the message in the bounded history,
     * then write it to every client; a client whose write fails is closed and
     * removed, and the loop goes on with the others.
     */
    method Broadcast(msg: Message, failing: set<string>)
      requires Valid()
      modifies this
      ensures Valid()
      ensures messages == Appended(old(messages), msg)
      ensures clients == old(clients) - failing
      ensures inbox == Deliver(old(inbox), old(clients).Keys - failing, msg)
      ensures closed == old(closed) + (old(clients).Keys * failing)
    {
      messages := Appended(messages, msg);
      var pending := clients.Keys;
      ghost var done: set<string> := {};
      DeliverNone(old(inbox), msg);
      while pending != {}
        modifies this`clients, this`inbox, this`closed
        invariant done + pending == old(clients).Keys && done !! pending
        invariant clients == old(clients) - (done * failing)
        invariant inbox == Deliver(old(inbox), done - failing, msg)
        invariant closed == old(closed) + done * failing
        decreases pending
      {
        var cid :| cid in pending;
        ghost var sentTo := done - failing;
        FanoutStep(done, failing, cid);
        if cid in failing {
          RemoveOneMore(old(clients), done * failing, cid);
          closed := closed + {cid};
          clients := clients - {cid};
        } else {
          DeliverStep(old(inbox), sentTo, cid, msg);
          inbox := inbox[cid := Received(inbox, cid) + [msg]];
        }
        pending := pending - {cid};
        done := done + {cid};
      }
      assert done == old(clients).Keys;
    }

    /** The loop of `sendUserList` that collects one display name per registered client. */
    method UserNames() returns (names: seq<string>)
      ensures |names| == |clients|
      ensures multiset(names) == NameBag(clients)
    {
      names := [];
      var rest := clients;
      while rest != map[]
        invariant forall k :: k in rest ==> k in clients && rest[k] == clients[k]
        invariant |names| + |rest| == |clients|
        invariant multiset(names) + NameBag(rest) == NameBag(clients)
        decreases |rest|
      {
        var k :| k in rest;
        NamesStep(names, rest, k);
        names := names + [rest[k].name];
        rest := rest - {k};
      }
    }

    /**
     * `sendUserList`: write the current user list to `client` alone. A failed
     * write is ignored; history and membership are untouched.
     */
    method SendUserList(client: Client, now: int, failing: set<string>) returns (m: Message)
      modifies this`inbox
      ensures ListsMembers(m, clients, now)
      ensures inbox == Deliver(old(inbox), {client.id} - failing, m)
    {
      var names := UserNames();
      m := UserListMessage(names, now);
      if client.id !in failing {
        DeliverOne(inbox, client.id, m);
        assert {client.id} - failing == {client.id};
        inbox := inbox[client.id := Received(inbox, client.id) + [m]];
      } else {
        DeliverNone(inbox, m);
        assert {client.id} - failing == {};
      }
    }

    /**
     * The register case of `Run`: store the client under its id, announce it
     * to everyone (the new client included) and reply to the new client alone
     * with the user list. No past history is written to it. `listFailing` says
     * whether the user-list write fails; it also fails when the join notice
     * already failed, since that closed the connection.
     */
    method Register(client: Client, now: int, failing: set<string>, listFailing: set<string>)
      returns (userList: Message)
      requires Valid()
      modifies this
      ensures Valid()
      ensures messages == Appended(old(messages), JoinedMessage(client.name, now))
      ensures clients == old(clients)[client.id := client] - failing
      ensures closed == old(closed) + (old(clients).Keys + {client.id}) * failing
      ensures ListsMembers(userList, clients, now)
      ensures inbox == Deliver(Deliver(old(inbox), (old(clients).Keys + {client.id}) - failing,
                                       JoinedMessage(client.name, now)),
                               {client.id} - (failing + listFailing), userList)
    {
      clients := clients[client.id := client];
      ghost var members := clients;
      assert members.Keys == old(clients).Keys + {client.id};
      Broadcast(JoinedMessage(client.name, now), failing);
      userList := SendUserList(client, now, failing + listFailing);
    }

    /**
     * The unregister case of `Run`: only a client still registered is removed
     * and announced as having left; otherwise nothing happens.
     */
    method Unregister(client: Client, now: int, failing: set<string>)
      requires Valid()
      modifies this
      ensures Valid()
      ensures client.id !in old(clients) ==>
                clients == old(clients) && messages == old(messages)
                && inbox == old(inbox) && closed == old(closed)
      ensures client.id in old(clients) ==>
                var rest := old(clients) - {client.id};
                && messages == Appended(old(messages), LeftMessage(client.name, now))
                && clients == rest - failing
                && inbox == Deliver(old(inbox), rest.Keys - failing, LeftMessage(client.name, now))
                && closed == old(closed) + rest.Keys * failing
    {
      if client.id in clients {
        clients := clients - {client.id};
        Broadcast(LeftMessage(client.name, now), failing);
      }
    }
  }

  /**
   * What a registration writes: the new client receives the join notice and
   * then the user list (each only if its write succeeded), and nothing from
   * the history; every other client receives the join notice alone.
   */
  lemma RegisterDelivery(inbox: map<string, seq<Message>>, members: set<string>, failing: set<string>,
                         listFailing: set<string>, newId: string, joined: Message, list: Message)
    requires newId in members
    ensures var after := Deliver(Deliver(inbox, members - failing, joined), {newId} - (failing + listFailing), list);
            && (newId in failing ==> Received(after, newId) == Received(inbox, newId))
            && (newId !in failing && newId in listFailing ==>
                  Received(after, newId) == Received(inbox, newId) + [joined])
            && (newId !in failing && newId !in listFailing ==>
                  Received(after, newId) == Received(inbox, newId) + [joined, list])
            && (forall k :: k != newId ==>
                  Received(after, k) == Received(inbox, k) + if k in members - failing then [joined] else [])
  {
    var first := Deliver(inbox, members - failing, joined);
    var after := Deliver(first, {newId} - (failing + listFailing), list);
    DeliverAt(inbox, members - failing, joined, newId);
    DeliverAt(first, {newId} - (failing + listFailing), list, newId);
    forall k | k != newId
      ensures Received(after, k) == Received(inbox, k) + if k in members - failing then [joined] else []
    {
      DeliverAt(inbox, members - failing, joined, k);
      DeliverAt(first, {newId} - (failing + listFailing), list, k);
    }
  }

  /** The stamped frames a connection submits for broadcast, in order; refresh requests excluded. */
  function Outgoing(name: string, frames: seq<Message>, times: seq<int>): seq<Message>
    requires |times| == |frames|
  {
    if frames == [] then []
    else
      var n := |frames| - 1;
      Outgoing(name, frames[..n], times[..n])
      + if IsRefresh(frames[n]) then [] else [Stamped(frames[n], name, times[n])]
  }

  /** The clients whose write failed during the broadcasts of those frames. */
  function Pruned(frames: seq<Message>, faults: seq<set<string>>): set<string>
    requires |faults| == |frames|
  {
    if frames == [] then {}
    else
      var n := |frames| - 1;
      Pruned(frames[..n], faults[..n]) + if IsRefresh(frames[n]) then {} else faults[n]
  }

  /**
   * One iteration of `handleConnection`: a `refreshUserList` frame is answered
   * to the sender alone; any other frame is broadcast with the sender set to
   * the client's name and the server's time.
   */
  method HandleFrame(room: ChatRoom, client: Client, frame: Message, now: int, failing: set<string>)
    returns (reply: Option<Message>)
    requires room.Valid()
    modifies room
    ensures room.Valid()
    ensures IsRefresh(frame) ==>
              && reply.Some?
              && ListsMembers(reply.value, room.clients, now)
              && room.inbox == Deliver(old(room.inbox), {client.id} - failing, reply.value)
              && room.messages == old(room.messages)
              && room.clients == old(room.clients)
              && room.closed == old(room.closed)
    ensures !IsRefresh(frame) ==>
              && reply == None
              && room.messages == Appended(old(room.messages), Stamped(frame, client.name, now))
              && room.messages[|room.messages| - 1].sender == client.name
              && room.clients == old(room.clients) - failing
              && room.inbox == Deliver(old(room.inbox), old(room.clients).Keys - failing,
                                       Stamped(frame, client.name, now))
              && room.closed == old(room.closed) + old(room.clients).Keys * failing
  {
    if IsRefresh(frame) {
      var list := room.SendUserList(client, now, failing);
      reply := Some(list);
    } else {
      room.Broadcast(Stamped(frame, client.name, now), failing);
      reply := None;
    }
  }

  /**
   * What one frame does as the rest of the room sees it: `HandleFrame` with its
   * reply and the sender's own connection set aside. Any other connection that
   * was a member and whose write succeeds receives the stamped frame.
   */
  method ReadFrame(room: ChatRoom, client: Client, frame: Message, now: int, failing: set<string>)
    requires room.Valid()
    modifies room
    ensures room.Valid()
    ensures room.messages == if IsRefresh(frame) then old(room.messages)
                             else Appended(old(room.messages), Stamped(frame, client.name, now))
    ensures room.clients == old(room.clients) - if IsRefresh(frame) then {} else failing
    ensures room.closed == old(room.closed) + if IsRefresh(frame) then {} else old(room.clients).Keys * failing
    ensures IsRefresh(frame) ==>
              forall k :: k != client.id ==> Received(room.inbox, k) == Received(old(room.inbox), k)
    ensures !IsRefresh(frame) ==>
              room.inbox == Deliver(old(room.inbox), old(room.clients).Keys - failing, Stamped(frame, client.name, now))
  {
    ghost var inbox := room.inbox;
    var _ := HandleFrame(room, client, frame, now, failing);
    if IsRefresh(frame) {
      DeliverOnlyTo(inbox, {client.id} - failing, client.id);
    }
  }

  /**
   * Since `start`, every connection other than `me` that was a member and has
   * not been pruned has received exactly `sent`, a pruned member has received
   * only a prefix of `sent` (nothing after its removal), and every connection
   * that was never a member has received nothing.
   */
  ghost predicate Relayed(inbox: map<string, seq<Message>>, start: map<string, seq<Message>>,
                          members: map<string, Client>, me: string, gone: set<string>, sent: seq<Message>)
  {
    && (forall k :: k != me && k in members && k !in gone ==> Received(inbox, k) == Received(start, k) + sent)
    && (forall k :: k != me && k in members && k in gone ==>
          Received(start, k) <= Received(inbox, k) && Received(inbox, k) <= Received(start, k) + sent)
    && (forall k :: k != me && k !in members ==> Received(inbox, k) == Received(start, k))
  }

  /** The read loop of `handleConnection` over the frames read before the connection failed. */
  method ReadLoop(room: ChatRoom, client: Client, frames: seq<Message>, times: seq<int>,
                  faults: seq<set<string>>)
    requires room.Valid()
    requires |times| == |frames| && |faults| == |frames|
    modifies room
    ensures room.Valid()
    ensures room.messages == Window(old(room.messages) + Outgoing(client.name, frames, times))
    ensures room.clients == old(room.clients) - Pruned(frames, faults)
    ensures room.closed == old(room.closed) + old(room.clients).Keys * Pruned(frames, faults)
    ensures forall k :: k != client.id && k in old(room.clients) && k !in Pruned(frames, faults) ==>
              Received(room.inbox, k) == Received(old(room.inbox), k) + Outgoing(client.name, frames, times)
    ensures forall k :: k != client.id && k in old(room.clients) && k in Pruned(frames, faults) ==>
              Received(old(room.inbox), k) <= Received(room.inbox, k)
              <= Received(old(room.inbox), k) + Outgoing(client.name, frames, times)
    ensures forall k :: k != client.id && k !in old(room.clients) ==>
              Received(room.inbox, k) == Received(old(room.inbox), k)
  {
    ghost var start, members, shut, delivered := room.messages, room.clients, room.closed, room.inbox;
    var i := 0;
    while i < |frames|
      invariant 0 <= i <= |frames|
      invariant room.Valid()
      invariant room.messages == Window(start + Outgoing(client.name, frames[..i], times[..i]))
      invariant room.clients == members - Pruned(frames[..i], faults[..i])
      invariant room.closed == shut + members.Keys * Pruned(frames[..i], faults[..i])
      invariant Relayed(room.inbox, delivered, members, client.id,
                        Pruned(frames[..i], faults[..i]), Outgoing(client.name, frames[..i], times[..i]))
    {
      ReadStep(start, members, shut, client.name, frames, times, faults, i);
      ghost var before := room.inbox;
      ReadFrame(room, client, frames[i], times[i], faults[i]);
      RelayStep(before, room.inbox, delivered, members, client.id, client.name, frames, times, faults, i);
      i := i + 1;
    }
    assert frames[..i] == frames && times[..i] == times && faults[..i] == faults;
  }

  /** The history, membership and closed set a read loop reaches after one more frame. */
  lemma ReadStep(start: seq<Message>, members: map<string, Client>, shut: set<string>, name: string,
                 frames: seq<Message>, times: seq<int>, faults: seq<set<string>>, i: nat)
    requires |times| == |frames| && |faults| == |frames| && i < |frames|
    ensures var history := Window(start + Outgoing(name, frames[..i], times[..i]));
            Window(start + Outgoing(name, frames[..i + 1], times[..i + 1]))
            == if IsRefresh(frames[i]) then history else Appended(history, Stamped(frames[i], name, times[i]))
    ensures members - Pruned(frames[..i + 1], faults[..i + 1])
            == (members - Pruned(frames[..i], faults[..i])) - if IsRefresh(frames[i]) then {} else faults[i]
    ensures var gone := Pruned(frames[..i], faults[..i]);
            shut + members.Keys * Pruned(frames[..i + 1], faults[..i + 1])
            == (shut + members.Keys * gone) + if IsRefresh(frames[i]) then {} else (members - gone).Keys * faults[i]
  {
    PrefixStep(name, frames, times, faults, i);
    FrameStep(start, Outgoing(name, frames[..i], times[..i]), members, Pruned(frames[..i], faults[..i]), shut,
              frames[i], name, times[i], faults[i]);
  }

  /** One more frame, on the accumulated values: a refresh changes nothing, any other frame is appended and prunes and closes its failures. */
  lemma FrameStep(start: seq<Message>, sent: seq<Message>, members: map<string, Client>, gone: set<string>,
                  shut: set<string>, frame: Message, name: string, now: int, failing: set<string>)
    ensures var m := Stamped(frame, name, now);
            Window(start + (sent + if IsRefresh(frame) then [] else [m]))
            == if IsRefresh(frame) then Window(start + sent) else Appended(Window(start + sent), m)
    ensures members - (gone + if IsRefresh(frame) then {} else failing)
            == (members - gone) - if IsRefresh(frame) then {} else failing
    ensures shut + members.Keys * (gone + if IsRefresh(frame) then {} else failing)
            == (shut + members.Keys * gone) + if IsRefresh(frame) then {} else (members - gone).Keys * failing
  {
    var m := Stamped(frame, name, now);
    if IsRefresh(frame) {
      assert sent + [] == sent;
      assert gone + {} == gone;
    } else {
      AppendedWindow(start + sent, m);
      assert (start + sent) + [m] == start + (sent + [m]);
      assert (members - gone).Keys == members.Keys - gone;
    }
    RemoveMore(members, gone, if IsRefresh(frame) then {} else failing);
  }

  /** What the other connections have received, after one more frame. */
  lemma RelayStep(before: map<string, seq<Message>>, after: map<string, seq<Message>>,
                  start: map<string, seq<Message>>, members: map<string, Client>, me: string, name: string,
                  frames: seq<Message>, times: seq<int>, faults: seq<set<string>>, i: nat)
    requires |times| == |frames| && |faults| == |frames| && i < |frames|
    requires Relayed(before, start, members, me, Pruned(frames[..i], faults[..i]), Outgoing(name, frames[..i], times[..i]))
    requires IsRefresh(frames[i]) ==> forall k :: k != me ==> Received(after, k) == Received(before, k)
    requires !IsRefresh(frames[i]) ==>
               after == Deliver(before, (members - Pruned(frames[..i], faults[..i])).Keys - faults[i],
                                Stamped(frames[i], name, times[i]))
    ensures Relayed(after, start, members, me, Pruned(frames[..i + 1], faults[..i + 1]),
                    Outgoing(name, frames[..i + 1], times[..i + 1]))
  {
    PrefixStep(name, frames, times, faults, i);
    RelayFrame(before, after, start, members, me, Pruned(frames[..i], faults[..i]), Outgoing(name, frames[..i], times[..i]),
               frames[i], Stamped(frames[i], name, times[i]), faults[i]);
  }

  /** `RelayStep` on the accumulated values: a refresh reaches no other connection, any other frame reaches every remaining member whose write succeeds. */
  lemma RelayFrame(before: map<string, seq<Message>>, after: map<string, seq<Message>>,
                   start: map<string, seq<Message>>, members: map<string, Client>, me: string,
                   gone: set<string>, sent: seq<Message>, frame: Message, m: Message, failing: set<string>)
    requires Relayed(before, start, members, me, gone, sent)
    requires IsRefresh(frame) ==> forall k :: k != me ==> Received(after, k) == Received(before, k)
    requires !IsRefresh(frame) ==> after == Deliver(before, (members - gone).Keys - failing, m)
    ensures Relayed(after, start, members, me, gone + (if IsRefresh(frame) then {} else failing),
                    sent + if IsRefresh(frame) then [] else [m])
  {
    if IsRefresh(frame) {
      assert gone + {} == gone && sent + [] == sent;
    } else {
      RelayKept(before, after, start, members, me, gone, sent, m, failing);
      RelayDropped(before, after, start, members, me, gone, sent, m, failing);
      RelayOutside(before, after, start, members, me, gone, m, failing);
    }
  }

  /** A member that is still present after a broadcast has received it after everything before. */
  lemma RelayKept(before: map<string, seq<Message>>, after: map<string, seq<Message>>,
                  start: map<string, seq<Message>>, members: map<string, Client>, me: string,
                  gone: set<string>, sent: seq<Message>, m: Message, failing: set<string>)
    requires forall k :: k != me && k in members && k !in gone ==> Received(before, k) == Received(start, k) + sent
    requires after == Deliver(before, (members - gone).Keys - failing, m)
    ensures forall k :: k != me && k in members && k !in gone + failing ==>
              Received(after, k) == Received(start, k) + (sent + [m])
  {
    forall k | k != me && k in members && k !in gone + failing
      ensures Received(after, k) == Received(start, k) + (sent + [m])
    {
      DeliverAt(before, (members - gone).Keys - failing, m, k);
      assert Received(start, k) + sent + [m] == Received(start, k) + (sent + [m]);
    }
  }

  /** A member pruned by this broadcast or earlier has received no more than a prefix of what was relayed. */
  lemma RelayDropped(before: map<string, seq<Message>>, after: map<string, seq<Message>>,
                     start: map<string, seq<Message>>, members: map<string, Client>, me: string,
                     gone: set<string>, sent: seq<Message>, m: Message, failing: set<string>)
    requires forall k :: k != me && k in members && k !in gone ==> Received(before, k) == Received(start, k) + sent
    requires forall k :: k != me && k in members && k in gone ==>
               Received(start, k) <= Received(before, k) && Received(before, k) <= Received(start, k) + sent
    requires after == Deliver(before, (members - gone).Keys - failing, m)
    ensures forall k :: k != me && k in members && k in gone + failing ==>
              Received(start, k) <= Received(after, k) <= Received(start, k) + (sent + [m])
  {
    forall k | k != me && k in members && k in gone + failing
      ensures Received(start, k) <= Received(after, k) <= Received(start, k) + (sent + [m])
    {
      DeliverAt(before, (members - gone).Keys - failing, m, k);
      PrunedPrefix(Received(start, k), Received(before, k), sent, m);
    }
  }

  /** A broadcast reaches no connection that was never a member. */
  lemma RelayOutside(before: map<string, seq<Message>>, after: map<string, seq<Message>>,
                     start: map<string, seq<Message>>, members: map<string, Client>, me: string,
                     gone: set<string>, m: Message, failing: set<string>)
    requires forall k :: k != me && k !in members ==> Received(before, k) == Received(start, k)
    requires after == Deliver(before, (members - gone).Keys - failing, m)
    ensures forall k :: k != me && k !in members ==> Received(after, k) == Received(start, k)
  {
    forall k | k != me && k !in members ensures Received(after, k) == Received(start, k) {
      DeliverAt(before, (members - gone).Keys - failing, m, k);
    }
  }

  /** What a member received up to its removal stays a prefix of what was relayed, however much more is relayed. */
  lemma PrunedPrefix<T>(start: seq<T>, got: seq<T>, sent: seq<T>, m: T)
    requires got == start + sent || (start <= got && got <= start + sent)
    ensures start <= got <= start + (sent + [m])
  {
    assert (start + sent)[..|start|] == start;
    assert (start + (sent + [m]))[..|start + sent|] == start + sent;
  }

  /** `Outgoing` and `Pruned` over one more frame. */
  lemma PrefixStep(name: string, frames: seq<Message>, times: seq<int>, faults: seq<set<string>>, i: nat)
    requires |times| == |frames| && |faults| == |frames| && i < |frames|
    ensures Outgoing(name, frames[..i + 1], times[..i + 1])
            == Outgoing(name, frames[..i], times[..i])
               + if IsRefresh(frames[i]) then [] else [Stamped(frames[i], name, times[i])]
    ensures Pruned(frames[..i + 1], faults[..i + 1])
            == Pruned(frames[..i], faults[..i]) + if IsRefresh(frames[i]) then {} else faults[i]
  {
    assert frames[..i + 1][..i] == frames[..i];
    assert times[..i + 1][..i] == times[..i];
    assert faults[..i + 1][..i] == faults[..i];
  }

  /**
   * `handleConnection`: the read loop, then the deferred cleanup that always
   * unregisters the client and closes its connection.
   */
  method HandleConnection(room: ChatRoom, client: Client, frames: seq<Message>, times: seq<int>,
                          faults: seq<set<string>>, leaveTime: int, leaveFaults: set<string>)
    requires room.Valid()
    requires |times| == |frames| && |faults| == |frames|
    modifies room
    ensures room.Valid()
    ensures client.id !in room.clients && client.id in room.closed
    ensures var sent := old(room.messages) + Outgoing(client.name, frames, times);
            var remaining := old(room.clients) - Pruned(frames, faults);
            if client.id in remaining then
              && room.messages == Window(sent + [LeftMessage(client.name, leaveTime)])
              && room.clients == remaining - {client.id} - leaveFaults
            else
              && room.messages == Window(sent)
              && room.clients == remaining
    ensures var remaining := old(room.clients) - Pruned(frames, faults);
            room.closed
            == old(room.closed) + old(room.clients).Keys * Pruned(frames, faults)
               + (if client.id in remaining then (remaining - {client.id}).Keys * leaveFaults else {})
               + {client.id}
    ensures forall k :: k != client.id && k in old(room.clients) && k !in Pruned(frames, faults) ==>
              Received(room.inbox, k)
              == Received(old(room.inbox), k) + Outgoing(client.name, frames, times)
                 + if client.id in old(room.clients) - Pruned(frames, faults) && k !in leaveFaults
                   then [LeftMessage(client.name, leaveTime)] else []
    ensures forall k :: k != client.id && k in old(room.clients) && k in Pruned(frames, faults) ==>
              Received(old(room.inbox), k) <= Received(room.inbox, k)
              <= Received(old(room.inbox), k) + Outgoing(client.name, frames, times)
    ensures forall k :: k != client.id && k !in old(room.clients) ==>
              Received(room.inbox, k) == Received(old(room.inbox), k)
  {
    ReadLoop(room, client, frames, times, faults);
    ghost var sent := old(room.messages) + Outgoing(client.name, frames, times);
    ghost var inbox := room.inbox;
    assert Relayed(inbox, old(room.inbox), old(room.clients), client.id,
                   Pruned(frames, faults), Outgoing(client.name, frames, times));
    room.Unregister(client, leaveTime, leaveFaults);
    LeaveDelivery(old(room.inbox), inbox, room.inbox, old(room.clients), client.id, Pruned(frames, faults),
                  Outgoing(client.name, frames, times), leaveFaults, LeftMessage(client.name, leaveTime));
    WindowAppend(sent, LeftMessage(client.name, leaveTime));
    room.closed := room.closed + {client.id};
  }

  /** The leave notice of the deferred cleanup reaches every other remaining member whose write succeeds, after what the read loop relayed. */
  lemma LeaveDelivery(start: map<string, seq<Message>>, mid: map<string, seq<Message>>, after: map<string, seq<Message>>,
                      members: map<string, Client>, me: string, gone: set<string>, sent: seq<Message>,
                      leaveFaults: set<string>, left: Message)
    requires Relayed(mid, start, members, me, gone, sent)
    requires after == if me in members - gone then Deliver(mid, ((members - gone) - {me}).Keys - leaveFaults, left) else mid
    ensures forall k :: k != me && k in members && k !in gone ==>
              Received(after, k)
              == Received(start, k) + sent + if me in members - gone && k !in leaveFaults then [left] else []
    ensures forall k :: k != me && k in members && k in gone ==>
              Received(start, k) <= Received(after, k) <= Received(start, k) + sent
    ensures forall k :: k != me && k !in members ==> Received(after, k) == Received(start, k)
  {
    if me in members - gone {
      var to := ((members - gone) - {me}).Keys - leaveFaults;
      forall k | k != me && k in members && k !in gone
        ensures Received(after, k) == Received(mid, k) + if k !in leaveFaults then [left] else []
      {
        DeliverAt(mid, to, left, k);
      }
      forall k | k != me && (k !in members || k in gone) ensures Received(after, k) == Received(mid, k) {
        DeliverAt(mid, to, left, k);
      }
    }
  }
}
