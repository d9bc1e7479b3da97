/**
 * The presence directory and signalling relay: the module-level map from a
 * user id to the set of that user's socket ids, the connection and
 * disconnection handlers that maintain it and broadcast the online users,
 * the event handlers that forward signalling events, and the lookup the
 * message controller uses to push a new message.
 *
 * Node runs every handler to completion, so each one is an atomic method
 * of `Hub`. Emissions are returned rather than performed: a broadcast of
 * `getOnlineUsers` (sent by the transport to every open connection,
 * anonymous ones included) is its payload, and emissions to particular
 * sockets are `Delivery` records in emission order.
 */
module Relay {
  import opened Wrappers
  import opened JsCollections
  import opened Signaling

  /** JavaScript truthiness of the handshake's `userId`: present and not the empty string. */
  predicate Present(claim: Option<string>)
  {
    claim.Some? && claim.value != ""
  }

  /**
   * What a handler closure captures of its connection: the transport's
   * socket id and the handshake's `userId` after `toString()`.
   */
  datatype Connection = Connection(sid: string, userId: Option<string>)

  /** One `io.to(sid).emit(name, payload)`. */
  datatype Delivery<V> = Delivery(sid: string, event: Outbound<V>)

  /** The addressed sockets of a list of deliveries, in order. */
  ghost function Recipients<V>(ds: seq<Delivery<V>>): seq<string>
  {
    seq(|ds|, i requires 0 <= i < |ds| => ds[i].sid)
  }

  /** The set view of a map from user id to insertion-ordered socket ids. */
  ghost function View(m: map<string, seq<string>>): map<string, set<string>>
  {
    map u | u in m :: Elems(m[u])
  }

  /**
   * A well-formed directory: the key list lists each key of the map once,
   * every key is a non-empty user id, and every user's set is a
   * duplicate-free, non-empty list of socket ids.
   */
  ghost predicate WellFormed(keys: seq<string>, m: map<string, seq<string>>)
  {
    && NoDup(keys)
    && (forall u :: u in m <==> u in keys)
    && (forall u :: u in m ==> u != "" && m[u] != [] && NoDup(m[u]))
  }

  /** In a well-formed directory the key list holds exactly the users of the map. */
  lemma KeysAreUsers(keys: seq<string>, m: map<string, seq<string>>)
    requires WellFormed(keys, m)
    ensures Elems(keys) == View(m).Keys
  {
  }

  /** Replacing one user's list changes that user's set and no other. */
  lemma ViewUpdate(m: map<string, seq<string>>, u: string, s: seq<string>)
    ensures View(m[u := s]) == View(m)[u := Elems(s)]
  {
  }

  /** Dropping one user's entry drops that user's set and no other. */
  lemma ViewRemove(m: map<string, seq<string>>, u: string)
    ensures View(m - {u}) == View(m) - {u}
  {
  }

  /** Registering a socket under a non-empty user id keeps a directory well formed. */
  lemma RegisterWellFormed(keys: seq<string>, m: map<string, seq<string>>, u: string, sid: string)
    requires WellFormed(keys, m) && u != ""
    ensures WellFormed(Add(keys, u), m[u := Add(if u in m then m[u] else [], sid)])
  {
  }

  /**
   * Deregistering a socket keeps a directory well formed, provided the
   * user's entry is dropped exactly when its set becomes empty.
   */
  lemma DeregisterWellFormed(keys: seq<string>, m: map<string, seq<string>>, u: string, sid: string)
    requires WellFormed(keys, m) && u in m
    ensures Delete(m[u], sid) == [] ==> WellFormed(Delete(keys, u), m - {u})
    ensures Delete(m[u], sid) != [] ==> WellFormed(keys, m[u := Delete(m[u], sid)])
  {
    var keys' := Delete(keys, u);
    forall v ensures v in m - {u} <==> v in keys' {
      assert v in keys' <==> v in Elems(keys');
      assert v in keys <==> v in Elems(keys);
    }
  }

  /**
   * Connecting a socket to a user who already had an entry, when the
   * user's set lacked it, and then disconnecting it restores the directory
   * exactly: the key list never changes and the set gets back its old
   * contents in its old order.
   */
  lemma ReturningUserRoundTrip(keys: seq<string>, m: map<string, seq<string>>, u: string, sid: string)
    requires u in keys && u in m && NoDup(m[u]) && m[u] != [] && sid !in m[u]
    ensures Add(keys, u) == keys
    ensures Delete(Add(m[u], sid), sid) == m[u] != []
    ensures m[u := Delete(Add(m[u], sid), sid)] == m
  {
    DeleteAdd(m[u], sid);
  }

  /**
   * Connecting the first socket of a user without an entry and then
   * disconnecting it restores the directory exactly: the new set empties,
   * so the key is deleted again and the key list gets back its old order.
   */
  lemma NewUserRoundTrip(keys: seq<string>, m: map<string, seq<string>>, u: string, sid: string)
    requires NoDup(keys) && u !in keys && u !in m
    ensures Delete(Add([], sid), sid) == []
    ensures Delete(Add(keys, u), u) == keys
    ensures m[u := Add([], sid)] - {u} == m
  {
    DeleteAdd(keys, u);
  }

  /** Every socket id is registered under at most one user. */
  ghost predicate Unique(d: map<string, set<string>>)
  {
    forall u, v, s :: u in d && v in d && s in d[u] && s in d[v] ==> u == v
  }

  /** Registering a socket that no user holds keeps socket ids unique. */
  lemma RegisterUnique(d: map<string, set<string>>, u: string, sid: string)
    requires Unique(d) && forall v :: v in d ==> sid !in d[v]
    ensures Unique(d[u := (if u in d then d[u] else {}) + {sid}])
  {
  }

  /** Deregistering a socket keeps socket ids unique, whether or not the user's entry goes. */
  lemma DeregisterUnique(d: map<string, set<string>>, u: string, sid: string)
    requires Unique(d) && u in d
    ensures Unique(d[u := d[u] - {sid}]) && Unique(d - {u})
  {
  }

  class Hub {
    /** The map's keys in insertion order: the list `getOnlineUsers` carries. */
    var keys: seq<string>
    /** Each user's `Set` of socket ids, in insertion order. */
    var sockets: map<string, seq<string>>

    /** The directory is well formed. */
    ghost predicate Valid()
      reads this
    {
      WellFormed(keys, sockets)
    }

    /** The directory as a map from user id to set of socket ids. */
    ghost function Dir(): map<string, set<string>>
      reads this
    {
      View(sockets)
    }

    /** The sockets an event addressed to `to` reaches. */
    ghost function Targets(to: Option<string>): set<string>
      reads this
    {
      if to.Some? && to.value in Dir() then Dir()[to.value] else {}
    }

    /** Every socket id is registered under at most one user. */
    ghost predicate HandlesUnique()
      reads this
    {
      Unique(Dir())
    }

    /** The empty map the module starts with. */
    constructor ()
      ensures Valid() && HandlesUnique()
      ensures keys == [] && sockets == map[] && Dir() == map[]
    {
      keys := [];
      sockets := map[];
    }

    /**
     * The connection handler. With a present `userId` the socket joins that
     * user's set (created if absent), no other user's set changes, and the
     * key list (in its new order) is broadcast; without one nothing changes
     * and nothing is broadcast.
     */
    method Connect(sid: string, claim: Option<string>) returns (conn: Connection, broadcast: Option<seq<string>>)
      requires Valid()
      modifies this
      ensures Valid()
      ensures conn == Connection(sid, claim)
      ensures !Present(claim) ==> keys == old(keys) && sockets == old(sockets) && broadcast == None
      ensures Present(claim) ==>
        var u := claim.value;
        && Dir() == old(Dir())[u := (if u in old(Dir()) then old(Dir())[u] else {}) + {sid}]
        && keys == Add(old(keys), u)
        && sockets == old(sockets)[u := Add(if u in old(sockets) then old(sockets)[u] else [], sid)]
        && broadcast == Some(keys)
      ensures Present(claim) && claim.value in old(Dir()) && sid in old(Dir())[claim.value] ==>
        keys == old(keys) && sockets == old(sockets)
      ensures broadcast.Some? ==> NoDup(broadcast.value) && Elems(broadcast.value) == Dir().Keys
      ensures old(HandlesUnique()) && (forall v :: v in old(Dir()) ==> sid !in old(Dir())[v]) ==> HandlesUnique()
    {
      conn := Connection(sid, claim);
      if Present(claim) {
        var u := claim.value;
        var existing := if u in sockets then sockets[u] else [];
        assert Elems(existing) == if u in Dir() then Dir()[u] else {};
        existing := Add(existing, sid);
        RegisterWellFormed(keys, sockets, u, sid);
        ViewUpdate(sockets, u, existing);
        sockets := sockets[u := existing];
        keys := Add(keys, u);
        broadcast := Some(keys);
        KeysAreUsers(keys, sockets);
        if old(HandlesUnique()) && (forall v :: v in old(Dir()) ==> sid !in old(Dir())[v]) {
          RegisterUnique(old(Dir()), u, sid);
        }
      } else {
        broadcast := None;
      }
    }

    /**
     * The disconnect handler. With a present `userId` exactly this socket
     * leaves that user's set, the user's key goes exactly when the set
     * becomes empty, no other socket or user changes, and the key list is
     * broadcast (also when the user had no entry, which leaves the map as it
     * was); without one nothing changes and nothing is broadcast.
     */
    method Disconnect(conn: Connection) returns (broadcast: Option<seq<string>>)
      requires Valid()
      modifies this
      ensures Valid()
      ensures !Present(conn.userId) ==> keys == old(keys) && sockets == old(sockets) && broadcast == None
      ensures Present(conn.userId) ==> broadcast == Some(keys)
      ensures Present(conn.userId) ==>
        var u := conn.userId.value;
        if u !in old(Dir()) then
          keys == old(keys) && sockets == old(sockets)
        else if old(Dir())[u] - {conn.sid} == {} then
          Dir() == old(Dir()) - {u} && keys == Delete(old(keys), u) && sockets == old(sockets) - {u}
        else
          && Dir() == old(Dir())[u := old(Dir())[u] - {conn.sid}]
          && keys == old(keys)
          && sockets == old(sockets)[u := Delete(old(sockets)[u], conn.sid)]
      ensures broadcast.Some? ==> NoDup(broadcast.value) && Elems(broadcast.value) == Dir().Keys
      ensures old(HandlesUnique()) ==> HandlesUnique()
    {
      if Present(conn.userId) {
        var u := conn.userId.value;
        if u in sockets {
          var set_ := Delete(sockets[u], conn.sid);
          DeregisterWellFormed(keys, sockets, u, conn.sid);
          if HandlesUnique() {
            DeregisterUnique(Dir(), u, conn.sid);
          }
          ElemsEmpty(set_);
          if |set_| == 0 {
            ViewRemove(sockets, u);
            sockets := sockets - {u};
            keys := Delete(keys, u);
          } else {
            ViewUpdate(sockets, u, set_);
            sockets := sockets[u := set_];
          }
        }
        broadcast := Some(keys);
        KeysAreUsers(keys, sockets);
      } else {
        broadcast := None;
      }
    }

    /**
     * `forwardToUser`: one delivery of `event` to each socket of the
     * addressee, in the set's order, and none anywhere else; an unknown or
     * missing addressee gets nothing. Nothing in the hub changes.
     */
    method Forward<V>(to: Option<string>, event: Outbound<V>) returns (deliveries: seq<Delivery<V>>)
      ensures forall i :: 0 <= i < |deliveries| ==> deliveries[i].event == event
      ensures Elems(Recipients(deliveries)) == Targets(to)
      ensures Valid() ==> NoDup(Recipients(deliveries))
      ensures to.Some? && to.value in sockets ==> Recipients(deliveries) == sockets[to.value]
      ensures to.None? || to.value !in sockets ==> deliveries == []
    {
      deliveries := [];
      if to.None? || to.value !in sockets {
        return;
      }
      var sids := sockets[to.value];
      var i := 0;
      while i < |sids|
        invariant 0 <= i <= |sids|
        invariant Recipients(deliveries) == sids[..i]
        invariant forall k :: 0 <= k < i ==> deliveries[k].event == event
      {
        deliveries := deliveries + [Delivery(sids[i], event)];
        i := i + 1;
      }
      assert sids[..i] == sids;
    }

    /**
     * The nine event handlers: the event is relayed to its addressee's
     * sockets as `Relayed(conn.userId, inbound)`, so its sender is the
     * connection's own `userId`. Nothing in the hub changes.
     */
    method Handle<V>(conn: Connection, inbound: Inbound<V>) returns (deliveries: seq<Delivery<V>>)
      ensures forall i :: 0 <= i < |deliveries| ==> deliveries[i].event == Relayed(conn.userId, inbound)
      ensures forall i :: 0 <= i < |deliveries| ==> deliveries[i].event.from == conn.userId
      ensures Elems(Recipients(deliveries)) == Targets(inbound.to)
      ensures Valid() ==> NoDup(Recipients(deliveries))
      ensures inbound.to.Some? && inbound.to.value in sockets ==> Recipients(deliveries) == sockets[inbound.to.value]
      ensures inbound.to.None? || inbound.to.value !in sockets ==> deliveries == []
    {
      deliveries := Forward(inbound.to, Relayed(conn.userId, inbound));
    }

    /**
     * `getReceiverSocketId`: nothing exactly when the user is missing or has
     * no socket, and otherwise one of the user's sockets, the earliest
     * registered of those still open.
     */
    function ReceiverSocketId(receiver: Option<string>): (r: Option<string>)
      reads this
      ensures r.None? <==> receiver.None? || receiver.value !in Dir() || Dir()[receiver.value] == {}
      ensures r.Some? ==> r.value in Dir()[receiver.value]
      ensures r.Some? ==> r.value == sockets[receiver.value][0]
    {
      if receiver.None? || receiver.value !in sockets then None
      else
        ElemsEmpty(sockets[receiver.value]);
        if |sockets[receiver.value]| == 0 then None
        else Some(sockets[receiver.value][0])
    }

    /** The online list names exactly the users with at least one open socket. */
    lemma OnlineIsConnected()
      requires Valid()
      ensures forall u :: u in keys <==> u in Dir() && Dir()[u] != {}
    {
      forall u | u in keys ensures u in Dir() && Dir()[u] != {} {
        assert sockets[u][0] in Dir()[u];
      }
    }
  }

  /**
   * Two users meet, one sends a call offer, the callee leaves, and a
   * second offer reaches nobody: what the contracts above let a caller
   * conclude about a whole session.
   */
  method CallSession<V>(offer: V, mediaType: V)
  {
    var hub := new Hub();
    var a, online := hub.Connect("sA", Some("u1"));
    assert Add([], "u1") == ["u1"] && Add([], "sA") == ["sA"];
    assert hub.keys == ["u1"] && hub.sockets == map["u1" := ["sA"]];
    assert online == Some(["u1"]);
    SecondJoins(hub, a, offer, mediaType);
  }

  /** `CallSession` from the moment the first user is online. */
  method SecondJoins<V>(hub: Hub, a: Connection, offer: V, mediaType: V)
    requires hub.Valid() && hub.keys == ["u1"] && hub.sockets == map["u1" := ["sA"]]
    requires a == Connection("sA", Some("u1"))
    modifies hub
  {
    assert "u2" !in ["u1"] && "u2" !in hub.sockets;
    var b, online := hub.Connect("sB", Some("u2"));
    assert Add(["u1"], "u2") == ["u1", "u2"] && Add([], "sB") == ["sB"];
    assert hub.sockets == map["u1" := ["sA"], "u2" := ["sB"]];
    assert online == Some(["u1", "u2"]);
    OfferThenLeave(hub, a, b, offer, mediaType);
  }

  /** `CallSession` from the moment both users are online. */
  method OfferThenLeave<V>(hub: Hub, a: Connection, b: Connection, offer: V, mediaType: V)
    requires hub.Valid() && hub.keys == ["u1", "u2"] && hub.sockets == map["u1" := ["sA"], "u2" := ["sB"]]
    requires a == Connection("sA", Some("u1")) && b == Connection("sB", Some("u2"))
    modifies hub
  {
    var d := hub.Handle(a, Inbound.CallOffer(Some("u2"), offer, mediaType));
    assert Recipients(d) == ["sB"];
    assert d[0].event == CallIncoming(Some("u1"), offer, mediaType);
    assert Elems(["sB"]) == {"sB"};
    var online := hub.Disconnect(b);
    assert Delete(["u1", "u2"], "u2") == ["u1"];
    assert online == Some(["u1"]) && "u2" !in hub.sockets;
    d := hub.Handle(a, Inbound.CallOffer(Some("u2"), offer, mediaType));
    assert d == [];
  }
}
