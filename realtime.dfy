/**
 * The in-memory realtime router of the socket server: the `onlineUsers`
 * registry, the per-socket `userId`, conversation rooms, and one handler per
 * inbound event. Node runs the handlers one at a time, so each handler is a
 * method on one shared `Router` object; every handler returns the list of
 * (target socket, outbound event) deliveries it emits.
 */
module Realtime {
  import opened JsValues

  type UserId = string
  type RoomId = string

  /** A socket.io connection id: opaque, unique per connection, never falsy. */
  type SocketId = nat

  /** The outbound events the server emits. */
  datatype OutEvent =
    | UserOnline(userId: UserId)
    | UserOffline(userId: UserId)
    | NewMessage(senderId: Option<UserId>, receiverId: UserId, content: string,
                 inConversation: Option<RoomId>, createdAt: string)
    | UserTyping(conversationId: RoomId, typingUser: Option<UserId>)
    | UserStopTyping(conversationId: RoomId, typingUser: Option<UserId>)
    | NewNotification(kind: string, message: string, createdAt: string)

  /** One emitted event on its way to one socket. */
  datatype Delivery = Delivery(target: SocketId, event: OutEvent)

  /** The sockets a delivery list reaches. */
  function Recipients(ds: seq<Delivery>): set<SocketId> {
    set i | 0 <= i < |ds| :: ds[i].target
  }

  /** No socket appears twice among the targets. */
  predicate DistinctTargets(ds: seq<Delivery>) {
    forall i, j | 0 <= i < j < |ds| :: ds[i].target != ds[j].target
  }

  /** `ds` sends `e`, and only `e`, exactly once to each socket of `targets` and to no other socket. */
  predicate DeliversOnceTo(ds: seq<Delivery>, targets: set<SocketId>, e: OutEvent) {
    && Recipients(ds) == targets
    && DistinctTargets(ds)
    && forall i | 0 <= i < |ds| :: ds[i].event == e
  }

  /** The events socket `t` receives from `ds`, in emission order. */
  function Received(ds: seq<Delivery>, t: SocketId): seq<OutEvent> {
    if ds == [] then []
    else (if ds[0].target == t then [ds[0].event] else []) + Received(ds[1..], t)
  }

  /** A fan-out of `e` to `targets` gives each target exactly one copy of `e` and every other socket nothing. */
  lemma {:induction false} ReceivedExactlyOnce(ds: seq<Delivery>, targets: set<SocketId>, e: OutEvent, t: SocketId)
    requires DeliversOnceTo(ds, targets, e)
    ensures Received(ds, t) == if t in targets then [e] else []
  {
    if ds != [] {
      var head, rest := ds[0].target, ds[1..];
      assert Recipients(rest) == targets - {head} by {
        forall x | x in targets - {head} ensures x in Recipients(rest) {
          var i :| 0 <= i < |ds| && ds[i].target == x;
          assert rest[i - 1].target == x;
        }
        forall x | x in Recipients(rest) ensures x in targets - {head} {
          var i :| 0 <= i < |rest| && rest[i].target == x;
          assert ds[i + 1].target == x;
        }
      }
      assert DeliversOnceTo(rest, targets - {head}, e) by {
        forall i | 0 <= i < |rest| ensures rest[i].event == e {
          assert rest[i] == ds[i + 1];
        }
      }
      ReceivedExactlyOnce(rest, targets - {head}, e, t);
    }
  }

  /** Emits `e` once to every socket of `targets` (the set-based view of a socket.io broadcast). */
  method Fanout(targets: set<SocketId>, e: OutEvent) returns (ds: seq<Delivery>)
    ensures DeliversOnceTo(ds, targets, e)
  {
    ds := [];
    var pending := targets;
    while pending != {}
      invariant pending <= targets
      invariant DeliversOnceTo(ds, targets - pending, e)
      decreases pending
    {
      var t :| t in pending;
      assert t !in Recipients(ds);
      ghost var prev := ds;
      ds := ds + [Delivery(t, e)];
      assert Recipients(ds) == Recipients(prev) + {t} by {
        assert ds[|prev|].target == t;
        forall x | x in Recipients(ds) ensures x in Recipients(prev) + {t} {
          var i :| 0 <= i < |ds| && ds[i].target == x;
          if i < |prev| { assert prev[i].target == x; }
        }
        forall x | x in Recipients(prev) ensures x in Recipients(ds) {
          var i :| 0 <= i < |prev| && prev[i].target == x;
          assert ds[i].target == x;
        }
      }
      pending := pending - {t};
    }
  }

  class Router {
    /** The sockets currently connected to the server. */
    var connected: set<SocketId>
    /** `socket.userId`, for the sockets that have sent `join`; absent means `undefined`. */
    var socketUser: map<SocketId, UserId>
    /** The `onlineUsers` map: user id to the socket id that last joined under it. */
    var onlineUsers: map<UserId, SocketId>
    /** socket.io rooms: conversation id to the sockets that joined it. */
    var rooms: map<RoomId, set<SocketId>>
    /** The next connection id the transport hands out; every id used so far is below it. */
    var nextId: SocketId

    /** Every id in the state was handed out; per-socket data and rooms only hold live sockets. */
    ghost predicate Valid()
      reads this
    {
      && (forall s | s in connected :: s < nextId)
      && socketUser.Keys <= connected
      && (forall u | u in onlineUsers :: onlineUsers[u] < nextId)
      && (forall r | r in rooms :: rooms[r] <= connected)
    }

    /** The members of room `room` (an unknown room has none). */
    function Members(room: RoomId): set<SocketId>
      reads this
    {
      if room in rooms then rooms[room] else {}
    }

    /** `socket.userId` of socket `s`. */
    function UserOf(s: SocketId): Option<UserId>
      reads this
    {
      if s in socketUser then Some(socketUser[s]) else None
    }

    /** `onlineUsers.get(u)`. */
    function Lookup(u: UserId): Option<SocketId>
      reads this
    {
      if u in onlineUsers then Some(onlineUsers[u]) else None
    }

    /**
     * The sockets `io.to(sid)` reaches when `sid` is truthy: the socket itself
     * while it is connected (a socket's own room disappears with it).
     */
    function DirectTarget(sid: Option<SocketId>): set<SocketId>
      reads this
    {
      if sid.Some? && sid.value in connected then {sid.value} else {}
    }

    constructor ()
      ensures Valid()
      ensures connected == {} && socketUser == map[] && onlineUsers == map[] && rooms == map[]
    {
      connected, socketUser, onlineUsers, rooms, nextId := {}, map[], map[], map[], 0;
    }

    /** The transport accepts a new connection; it has no `userId` and is in no room. */
    method Connect() returns (s: SocketId)
      requires Valid()
      modifies this
      ensures Valid()
      ensures s !in old(connected) && connected == old(connected) + {s}
      ensures s !in socketUser && s !in onlineUsers.Values && forall r :: s !in Members(r)
      ensures socketUser == old(socketUser) && onlineUsers == old(onlineUsers) && rooms == old(rooms)
    {
      s := nextId;
      nextId := nextId + 1;
      connected := connected + {s};
    }

    /** `io.to(sid).emit(e)`. */
    method EmitTo(sid: SocketId, e: OutEvent) returns (ds: seq<Delivery>)
      ensures DeliversOnceTo(ds, DirectTarget(Some(sid)), e)
    {
      ds := [];
      if sid in connected {
        ds := [Delivery(sid, e)];
        assert ds[0].target == sid;
      }
    }

    /** `join(u)`: register `s` under `u` (last writer wins) and tell every other socket that `u` is online. */
    method Join(s: SocketId, u: UserId) returns (ds: seq<Delivery>)
      requires Valid() && s in connected
      modifies this
      ensures Valid()
      ensures onlineUsers == old(onlineUsers)[u := s] && Lookup(u) == Some(s)
      ensures socketUser == old(socketUser)[s := u] && UserOf(s) == Some(u)
      ensures connected == old(connected) && rooms == old(rooms)
      ensures DeliversOnceTo(ds, connected - {s}, UserOnline(u))
    {
      onlineUsers := onlineUsers[u := s];
      socketUser := socketUser[s := u];
      ds := Fanout(connected - {s}, UserOnline(u));
    }

    /** `send_message`: deliver a `new_message` to the receiver's registered socket, or drop it. */
    method SendMessage(s: SocketId, receiverId: UserId, content: string,
                       conversationId: Option<RoomId>, createdAt: string) returns (ds: seq<Delivery>)
      requires Valid() && s in connected
      ensures receiverId !in onlineUsers ==> ds == []
      ensures DeliversOnceTo(ds, DirectTarget(Lookup(receiverId)),
                             NewMessage(UserOf(s), receiverId, content, conversationId, createdAt))
    {
      var receiverSocketId := Lookup(receiverId);
      ds := [];
      if receiverSocketId.Some? {
        ds := EmitTo(receiverSocketId.value,
                     NewMessage(UserOf(s), receiverId, content, conversationId, createdAt));
      }
    }

    /** `typing_start`: tell the other members of the room that the sender is typing. */
    method TypingStart(s: SocketId, conversationId: RoomId) returns (ds: seq<Delivery>)
      requires Valid() && s in connected
      ensures DeliversOnceTo(ds, Members(conversationId) - {s}, UserTyping(conversationId, UserOf(s)))
    {
      ds := Fanout(Members(conversationId) - {s}, UserTyping(conversationId, UserOf(s)));
    }

    /** `typing_stop`: tell the other members of the room that the sender stopped typing. */
    method TypingStop(s: SocketId, conversationId: RoomId) returns (ds: seq<Delivery>)
      requires Valid() && s in connected
      ensures DeliversOnceTo(ds, Members(conversationId) - {s}, UserStopTyping(conversationId, UserOf(s)))
    {
      ds := Fanout(Members(conversationId) - {s}, UserStopTyping(conversationId, UserOf(s)));
    }

    /** `join_conversation`: add the socket to the room; a second join changes nothing. */
    method JoinConversation(s: SocketId, conversationId: RoomId)
      requires Valid() && s in connected
      modifies this
      ensures Valid()
      ensures Members(conversationId) == old(Members(conversationId)) + {s}
      ensures forall r | r != conversationId :: Members(r) == old(Members(r))
      ensures s in old(Members(conversationId)) ==> rooms == old(rooms)
      ensures connected == old(connected) && socketUser == old(socketUser) && onlineUsers == old(onlineUsers)
    {
      if s in Members(conversationId) {
        assert Members(conversationId) + {s} == rooms[conversationId];
        assert rooms[conversationId := rooms[conversationId]] == rooms;
      }
      rooms := rooms[conversationId := Members(conversationId) + {s}];
    }

    /** `send_notification`: deliver a `new_notification` to the user's registered socket, or drop it. */
    method SendNotification(userId: UserId, kind: string, message: string, createdAt: string)
      returns (ds: seq<Delivery>)
      requires Valid()
      ensures userId !in onlineUsers ==> ds == []
      ensures DeliversOnceTo(ds, DirectTarget(Lookup(userId)), NewNotification(kind, message, createdAt))
    {
      var userSocketId := Lookup(userId);
      ds := [];
      if userSocketId.Some? {
        ds := EmitTo(userSocketId.value, NewNotification(kind, message, createdAt));
      }
    }

    /** The socket has a truthy `userId`. */
    predicate HasUser(s: SocketId)
      reads this
    {
      s in socketUser && socketUser[s] != ""
    }

    /** The transport closes socket `s`: it leaves the connected set and every room. */
    method Close(s: SocketId)
      requires Valid() && s in connected
      modifies this
      ensures Valid()
      ensures connected == old(connected) - {s} && socketUser == old(socketUser) - {s}
      ensures forall r :: Members(r) == old(Members(r)) - {s}
      ensures onlineUsers == old(onlineUsers)
    {
      connected := connected - {s};
      socketUser := socketUser - {s};
      rooms := map r | r in rooms :: rooms[r] - {s};
    }

    /**
     * `disconnect`, as written: a socket with a truthy `userId` deletes that
     * user's registration, whichever socket it points at, and tells every
     * other socket that the user is offline.
     */
    method Disconnect(s: SocketId) returns (ds: seq<Delivery>)
      requires Valid() && s in connected
      modifies this
      ensures Valid()
      ensures connected == old(connected) - {s} && socketUser == old(socketUser) - {s}
      ensures forall r :: Members(r) == old(Members(r)) - {s}
      ensures old(HasUser(s)) ==> onlineUsers == old(onlineUsers) - {old(socketUser[s])}
      ensures old(HasUser(s)) ==> DeliversOnceTo(ds, connected, UserOffline(old(socketUser[s])))
      ensures !old(HasUser(s)) ==> onlineUsers == old(onlineUsers) && ds == []
    {
      var hadUser, u := HasUser(s), UserOf(s);
      Close(s);
      ds := [];
      if hadUser {
        onlineUsers := onlineUsers - {u.value};
        ds := Fanout(connected, UserOffline(u.value));
      }
    }

    /** Socket `s` is the one the registry currently holds for its own truthy `userId`. */
    predicate OwnsRegistration(s: SocketId)
      reads this
    {
      HasUser(s) && Lookup(socketUser[s]) == Some(s)
    }

    /**
     * `disconnect`, corrected: only the socket that still owns its user's
     * registration removes it and announces the user offline, so closing a
     * superseded socket never unregisters the newer one.
     */
    method DisconnectIfOwner(s: SocketId) returns (ds: seq<Delivery>)
      requires Valid() && s in connected
      modifies this
      ensures Valid()
      ensures connected == old(connected) - {s} && socketUser == old(socketUser) - {s}
      ensures forall r :: Members(r) == old(Members(r)) - {s}
      ensures forall u | u in old(onlineUsers) && old(onlineUsers)[u] != s ::
                u in onlineUsers && onlineUsers[u] == old(onlineUsers)[u]
      ensures old(OwnsRegistration(s)) ==> onlineUsers == old(onlineUsers) - {old(socketUser[s])}
      ensures old(OwnsRegistration(s)) ==> DeliversOnceTo(ds, connected, UserOffline(old(socketUser[s])))
      ensures !old(OwnsRegistration(s)) ==> onlineUsers == old(onlineUsers) && ds == []
    {
      var owner, u := OwnsRegistration(s), UserOf(s);
      Close(s);
      ds := [];
      if owner {
        onlineUsers := onlineUsers - {u.value};
        ds := Fanout(connected, UserOffline(u.value));
      }
    }
  }

  /** Alice and Bob join, and Alice messages Bob: Bob's socket gets the message once, nobody else gets anything. */
  method DirectMessageScenario(createdAt: string)
    returns (r: Router, alice: SocketId, bob: SocketId, ds: seq<Delivery>)
    ensures alice != bob && alice in r.connected && bob in r.connected
    ensures Received(ds, bob) == [NewMessage(Some("alice"), "bob", "hi", Some("c1"), createdAt)]
    ensures forall t | t != bob :: Received(ds, t) == []
  {
    r := new Router();
    alice := r.Connect();
    bob := r.Connect();
    var online := r.Join(alice, "alice");
    online := r.Join(bob, "bob");
    ds := r.SendMessage(alice, "bob", "hi", Some("c1"), createdAt);
    forall t: SocketId
      ensures Received(ds, t) == if t == bob then [NewMessage(Some("alice"), "bob", "hi", Some("c1"), createdAt)] else []
    {
      ReceivedExactlyOnce(ds, {bob}, NewMessage(Some("alice"), "bob", "hi", Some("c1"), createdAt), t);
    }
  }

  /** Bob disconnects, then Alice messages him: the message is dropped without any delivery. */
  method OfflineDropScenario(createdAt: string)
    returns (r: Router, alice: SocketId, ds: seq<Delivery>)
    ensures alice in r.connected && r.Lookup("bob") == None
    ensures ds == []
  {
    r := new Router();
    alice := r.Connect();
    var bob := r.Connect();
    var online := r.Join(alice, "alice");
    online := r.Join(bob, "bob");
    var offline := r.Disconnect(bob);
    ds := r.SendMessage(alice, "bob", "hi", Some("c1"), createdAt);
  }

  /**
   * As written, closing Alice's older socket after she joined again from a
   * newer one unregisters her and announces her offline to the newer socket,
   * which stays connected as "alice".
   */
  method SupersededDisconnectScenario()
    returns (r: Router, older: SocketId, newer: SocketId, ds: seq<Delivery>)
    ensures newer in r.connected && r.UserOf(newer) == Some("alice")
    ensures r.Lookup("alice") == None
    ensures Received(ds, newer) == [UserOffline("alice")]
  {
    r := new Router();
    older := r.Connect();
    newer := r.Connect();
    var online := r.Join(older, "alice");
    online := r.Join(newer, "alice");
    ds := r.Disconnect(older);
    ReceivedExactlyOnce(ds, r.connected, UserOffline("alice"), newer);
  }

  /** With the ownership check, closing the older socket keeps the newer registration and announces nothing. */
  method SupersededDisconnectIfOwnerScenario()
    returns (r: Router, older: SocketId, newer: SocketId, ds: seq<Delivery>)
    ensures newer in r.connected && r.UserOf(newer) == Some("alice")
    ensures r.Lookup("alice") == Some(newer)
    ensures ds == []
  {
    r := new Router();
    older := r.Connect();
    newer := r.Connect();
    var online := r.Join(older, "alice");
    online := r.Join(newer, "alice");
    ds := r.DisconnectIfOwner(older);
  }
}
