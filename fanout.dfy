/**
 * The transport side of a fan-out: for each connection, the frames written to
 * it so far. Connections are keyed by client id (ChatRoom) or by connection
 * handle (Hub).
 */
module Fanout {

  function Received<K(==), M>(inbox: map<K, seq<M>>, k: K): seq<M> {
    if k in inbox then inbox[k] else []
  }

  /** Every connection in `to` has `m` appended; every other connection keeps what it had. */
  function Deliver<K(==), M>(inbox: map<K, seq<M>>, to: set<K>, m: M): map<K, seq<M>> {
    map k | k in inbox.Keys + to :: Received(inbox, k) + if k in to then [m] else []
  }

  /** What a fan-out leaves on each connection: the message is appended exactly where the write succeeded. */
  lemma DeliverAt<K, M>(inbox: map<K, seq<M>>, to: set<K>, m: M, k: K)
    ensures Received(Deliver(inbox, to, m), k) == Received(inbox, k) + if k in to then [m] else []
  {
  }

  /** A fan-out to at most `me` leaves every other connection as it was, whatever the message. */
  lemma DeliverOnlyTo<K, M>(inbox: map<K, seq<M>>, to: set<K>, me: K)
    requires to <= {me}
    ensures forall m, k :: k != me ==> Received(Deliver(inbox, to, m), k) == Received(inbox, k)
  {
    forall m, k | k != me ensures Received(Deliver(inbox, to, m), k) == Received(inbox, k) {
      DeliverAt(inbox, to, m, k);
    }
  }

  /** A fan-out that reaches nobody changes nothing. */
  lemma DeliverNone<K, M>(inbox: map<K, seq<M>>, m: M)
    ensures Deliver(inbox, {}, m) == inbox
  {
    var d := Deliver(inbox, {}, m);
    assert d.Keys == inbox.Keys;
    forall k | k in inbox ensures d[k] == inbox[k] {
      assert d[k] == Received(inbox, k) + [];
    }
  }

  /** One more successful write extends the delivered set by one connection. */
  lemma DeliverStep<K, M>(inbox: map<K, seq<M>>, to: set<K>, k: K, m: M)
    requires k !in to
    ensures var d := Deliver(inbox, to, m);
            Deliver(inbox, to + {k}, m) == d[k := Received(d, k) + [m]]
  {
    var d := Deliver(inbox, to, m);
    var e := Deliver(inbox, to + {k}, m);
    var f := d[k := Received(d, k) + [m]];
    assert e.Keys == f.Keys;
    forall j | j in e ensures e[j] == f[j] {
      if j == k {
        assert Received(d, k) == Received(inbox, k);
      }
    }
  }

  /** A fan-out to one connection appends the message to that connection alone. */
  lemma DeliverOne<K, M>(inbox: map<K, seq<M>>, k: K, m: M)
    ensures Deliver(inbox, {k}, m) == inbox[k := Received(inbox, k) + [m]]
  {
    DeliverNone(inbox, m);
    DeliverStep(inbox, {}, k, m);
    assert {} + {k} == {k};
  }

  /** How the delivered and pruned sets grow when the fan-out loop handles one more connection. */
  lemma FanoutStep<K>(done: set<K>, failing: set<K>, k: K)
    ensures k in failing ==> (done + {k}) * failing == done * failing + {k} && (done + {k}) - failing == done - failing
    ensures k !in failing ==> (done + {k}) * failing == done * failing && (done + {k}) - failing == (done - failing) + {k}
  {
  }

  /** Removing one more key from a map is removing the enlarged key set. */
  lemma RemoveOneMore<K, V>(m: map<K, V>, gone: set<K>, k: K)
    ensures (m - gone) - {k} == m - (gone + {k})
  {
  }

  /** Removing a further key set from a map is removing the union. */
  lemma RemoveMore<K, V>(m: map<K, V>, gone: set<K>, more: set<K>)
    ensures (m - gone) - more == m - (gone + more)
  {
  }

  /** Removing keys never grows a map. */
  lemma RemoveShrinks<K, V>(m: map<K, V>, gone: set<K>)
    ensures |m - gone| <= |m|
  {
    assert (m - gone).Keys == m.Keys - gone;
    assert |m.Keys - gone| <= |m.Keys| by {
      SubsetCard(m.Keys - gone, m.Keys);
    }
  }

  lemma {:induction false} SubsetCard<K>(a: set<K>, b: set<K>)
    requires a <= b
    ensures |a| <= |b|
    decreases b
  {
    if a != {} {
      var x :| x in a;
      SubsetCard(a - {x}, b - {x});
    }
  }
}
