/** The WebSocket registry of app/services/chat_connections.py. Sockets are identities; the user id that
    connect stores on a socket is kept in `userOf`. Every await lies between two calls of Connect or
    Disconnect, so any interleaving of requests is a sequence of those two steps. */
module ChatConnections {
  import opened Common

  type Room = string
  type User = string
  type Socket = nat

  datatype Hub = Hub(active: map<Room, seq<Socket>>, presence: map<Room, set<User>>, userOf: map<Socket, User>)

  function Active(h: Hub, room: Room): seq<Socket> {
    if room in h.active then h.active[room] else []
  }

  function Present(h: Hub, room: Room): set<User> {
    if room in h.presence then h.presence[room] else {}
  }

  /** list.remove: the first occurrence goes. */
  function Without(s: seq<Socket>, ws: Socket): seq<Socket> {
    if s == [] then [] else if s[0] == ws then s[1..] else [s[0]] + Without(s[1..], ws)
  }

  predicate Distinct(s: seq<Socket>) {
    s == [] || (s[0] !in s[1..] && Distinct(s[1..]))
  }

  function Users(userOf: map<Socket, User>, s: seq<Socket>): set<User> {
    set ws | ws in s && ws in userOf :: userOf[ws]
  }

  function PutList(m: map<Room, seq<Socket>>, room: Room, s: seq<Socket>): map<Room, seq<Socket>> {
    if s == [] then m - {room} else m[room := s]
  }

  function PutUsers(m: map<Room, set<User>>, room: Room, s: set<User>): map<Room, set<User>> {
    if s == {} then m - {room} else m[room := s]
  }

  function Connected(h: Hub, room: Room, ws: Socket, u: User): Hub {
    Hub(h.active[room := Active(h, room) + [ws]], h.presence[room := Present(h, room) + {u}], h.userOf[ws := u])
  }

  /** The users present once `ws` has left and `left` are the sockets that stay. */
  function Staying(userOf: map<Socket, User>, users: set<User>, left: seq<Socket>, ws: Socket): set<User> {
    if ws in userOf && userOf[ws] != "" && userOf[ws] !in Users(userOf, left) then users - {userOf[ws]} else users
  }

  function Disconnected(h: Hub, room: Room, ws: Socket): Hub {
    var left := Without(Active(h, room), ws);
    h.(active := PutList(h.active, room, left),
       presence := PutUsers(h.presence, room, Staying(h.userOf, Present(h, room), left, ws)))
  }

  // ----- presence is the users of the live sockets -----

  ghost predicate RoomOk(userOf: map<Socket, User>, s: seq<Socket>, users: set<User>) {
    && Distinct(s)
    && (forall ws :: ws in s ==> ws in userOf && userOf[ws] != "")
    && users == Users(userOf, s)
  }

  /** Both maps know the same rooms, none without sockets, and each room's presence is exact. */
  ghost predicate HubInv(h: Hub) {
    && h.active.Keys == h.presence.Keys
    && (forall r :: r in h.active ==> h.active[r] != [] && RoomOk(h.userOf, h.active[r], h.presence[r]))
  }

  const EMPTY_HUB := Hub(map[], map[], map[])

  ghost predicate Unconnected(h: Hub, ws: Socket) {
    forall r :: r in h.active ==> ws !in h.active[r]
  }

  lemma ActiveRoomOk(h: Hub, room: Room)
    requires HubInv(h)
    ensures RoomOk(h.userOf, Active(h, room), Present(h, room))
  {
  }

  lemma {:induction false} WithoutMembers(s: seq<Socket>, ws: Socket)
    requires Distinct(s)
    ensures Distinct(Without(s, ws))
    ensures forall x :: x in Without(s, ws) <==> x in s && x != ws
  {
    if s != [] && s[0] != ws { WithoutMembers(s[1..], ws); }
  }

  lemma {:induction false} WithoutAbsent(s: seq<Socket>, ws: Socket)
    requires ws !in s
    ensures Without(s, ws) == s && Without(s + [ws], ws) == s
  {
    if s == [] {
      assert (s + [ws])[1..] == [];
    } else {
      WithoutAbsent(s[1..], ws);
      assert (s + [ws])[1..] == s[1..] + [ws];
    }
  }

  lemma {:induction false} DistinctAppend(s: seq<Socket>, ws: Socket)
    requires Distinct(s) && ws !in s
    ensures Distinct(s + [ws])
  {
    if s != [] {
      DistinctAppend(s[1..], ws);
      assert (s + [ws])[1..] == s[1..] + [ws];
    }
  }

  /** Giving an unlisted socket a user id does not change whose sockets are listed. */
  lemma UsersUntouched(userOf: map<Socket, User>, s: seq<Socket>, ws: Socket, u: User)
    requires ws !in s
    ensures Users(userOf[ws := u], s) == Users(userOf, s)
    ensures Users(userOf[ws := u], s + [ws]) == Users(userOf, s) + {u}
  {
    var m := userOf[ws := u];
    assert forall x :: x in s && x in m ==> x in userOf && m[x] == userOf[x];
    assert ws in s + [ws] && m[ws] == u;
    forall v | v in Users(userOf, s) ensures v in Users(m, s) && v in Users(m, s + [ws]) {
      var x :| x in s && x in userOf && userOf[x] == v;
      assert x in m && m[x] == v && x in s + [ws];
    }
  }

  lemma ConnectKeepsInv(h: Hub, room: Room, ws: Socket, u: User)
    requires HubInv(h) && u != "" && Unconnected(h, ws)
    ensures HubInv(Connected(h, room, ws, u))
  {
    var h' := Connected(h, room, ws, u);
    forall r | r in h'.active ensures RoomOk(h'.userOf, h'.active[r], h'.presence[r]) {
      ActiveRoomOk(h, r);
      assert ws !in Active(h, r);
      UsersUntouched(h.userOf, Active(h, r), ws, u);
      DistinctAppend(Active(h, r), ws);
    }
  }

  /** A socket that leaves takes its user along unless another of the user's sockets stays. */
  lemma LeavingIsExact(userOf: map<Socket, User>, s: seq<Socket>, ws: Socket, users: set<User>)
    requires RoomOk(userOf, s, users)
    ensures var left := Without(s, ws);
      RoomOk(userOf, left, Staying(userOf, users, left, ws))
      && (left == [] <==> Staying(userOf, users, left, ws) == {})
  {
    var left := Without(s, ws);
    WithoutMembers(s, ws);
    var users' := Staying(userOf, users, left, ws);
    forall u | u in users && (ws !in s || u != userOf[ws]) ensures u in Users(userOf, left) {
      var x :| x in s && x in userOf && userOf[x] == u;
      assert x in left;
    }
    assert Users(userOf, left) <= users;
    if ws !in s { WithoutAbsent(s, ws); }
    assert users' == Users(userOf, left);
    if left != [] { assert userOf[left[0]] in Users(userOf, left); }
  }

  lemma DisconnectKeepsInv(h: Hub, room: Room, ws: Socket)
    requires HubInv(h)
    ensures HubInv(Disconnected(h, room, ws))
  {
    ActiveRoomOk(h, room);
    LeavingIsExact(h.userOf, Active(h, room), ws, Present(h, room));
  }

  /** Connecting puts the socket at the end of its room's list and its user among those present; nobody else's
      entry changes. */
  lemma ConnectEffect(h: Hub, room: Room, ws: Socket, u: User)
    requires HubInv(h) && u != "" && Unconnected(h, ws)
    ensures var h' := Connected(h, room, ws, u);
      && Active(h', room) == Active(h, room) + [ws]
      && (forall v :: v in Present(h', room) <==> v == u || v in Present(h, room))
      && (forall r :: r != room ==> Active(h', r) == Active(h, r) && Present(h', r) == Present(h, r))
      && (forall x :: Lookup(h'.userOf, x) == if x == ws then Some(u) else Lookup(h.userOf, x))
  {
  }

  lemma {:induction false} WithoutAt(s: seq<Socket>, i: nat)
    requires i < |s| && Distinct(s)
    ensures Without(s, s[i]) == s[..i] + s[i + 1..]
  {
    if i > 0 {
      assert s[i] == s[1..][i - 1];
      WithoutAt(s[1..], i - 1);
    }
  }

  /** Disconnecting takes the socket out of its room's list, wherever it stood. Its user stays present exactly when
      another of the user's sockets is in the room; nobody else's entry changes. */
  lemma DisconnectEffect(h: Hub, room: Room, i: nat)
    requires HubInv(h) && i < |Active(h, room)|
    ensures var list := Active(h, room);
      var ws, h' := list[i], Disconnected(h, room, list[i]);
      && Active(h', room) == list[..i] + list[i + 1..] && h'.userOf == h.userOf
      && (forall v :: v in Present(h', room) <==>
            v in Present(h, room) && (v == h.userOf[ws] ==> exists x :: x in list && x != ws && h.userOf[x] == v))
      && (forall r :: r != room ==> Active(h', r) == Active(h, r) && Present(h', r) == Present(h, r))
  {
    var list := Active(h, room);
    var ws := list[i];
    ActiveRoomOk(h, room);
    WithoutAt(list, i);
    WithoutMembers(list, ws);
    LeavingIsExact(h.userOf, list, ws, Present(h, room));
  }

  datatype Event = Joined(room: Room, ws: Socket, user: User) | Left(room: Room, ws: Socket)

  function Run(h: Hub, events: seq<Event>): Hub
    decreases |events|
  {
    if events == [] then h
    else match events[0]
      case Joined(room, ws, u) => Run(Connected(h, room, ws, u), events[1..])
      case Left(room, ws) => Run(Disconnected(h, room, ws), events[1..])
  }

  /** The socket handler connects a socket once, under a UUID, which is never the empty text. */
  ghost predicate HandlerRun(h: Hub, events: seq<Event>)
    decreases |events|
  {
    events == [] || match events[0]
      case Joined(room, ws, u) =>
        u != "" && Unconnected(h, ws) && HandlerRun(Connected(h, room, ws, u), events[1..])
      case Left(room, ws) => HandlerRun(Disconnected(h, room, ws), events[1..])
  }

  /** Whatever the interleaving, presence stays exact and no empty room is kept. */
  lemma {:induction false} PresenceIsExact(h: Hub, events: seq<Event>)
    requires HubInv(h) && HandlerRun(h, events)
    ensures HubInv(Run(h, events))
    decreases |events|
  {
    if events != [] {
      match events[0]
      case Joined(room, ws, u) =>
        ConnectKeepsInv(h, room, ws, u);
        PresenceIsExact(Connected(h, room, ws, u), events[1..]);
      case Left(room, ws) =>
        DisconnectKeepsInv(h, room, ws);
        PresenceIsExact(Disconnected(h, room, ws), events[1..]);
    }
  }

  /** No room is kept without sockets or without users. */
  lemma NoEmptyRoom(h: Hub, room: Room)
    requires HubInv(h)
    ensures room in h.active <==> Active(h, room) != []
    ensures room in h.presence <==> Present(h, room) != {}
    ensures room in h.active <==> room in h.presence
  {
    if room in h.active {
      assert h.userOf[h.active[room][0]] in Users(h.userOf, h.active[room]);
    }
  }

  lemma DisconnectAbsent(h: Hub, room: Room, ws: Socket)
    requires HubInv(h) && ws !in Active(h, room)
    ensures Disconnected(h, room, ws) == h
  {
    ActiveRoomOk(h, room);
    NoEmptyRoom(h, room);
    WithoutAbsent(Active(h, room), ws);
    LeavingIsExact(h.userOf, Active(h, room), ws, Present(h, room));
    assert Staying(h.userOf, Present(h, room), Active(h, room), ws) == Present(h, room);
    assert Disconnected(h, room, ws).active == h.active;
    assert Disconnected(h, room, ws).presence == h.presence;
  }

  /** A socket already removed can be removed again with no effect. */
  lemma DisconnectTwice(h: Hub, room: Room, ws: Socket)
    requires HubInv(h)
    ensures Disconnected(Disconnected(h, room, ws), room, ws) == Disconnected(h, room, ws)
  {
    ActiveRoomOk(h, room);
    WithoutMembers(Active(h, room), ws);
    DisconnectKeepsInv(h, room, ws);
    DisconnectAbsent(Disconnected(h, room, ws), room, ws);
  }

  lemma PutTwice<V>(m: map<Room, V>, room: Room, x: V, y: V)
    ensures m[room := x][room := y] == m[room := y]
  {
  }

  lemma PutThenDrop<V>(m: map<Room, V>, room: Room, x: V)
    ensures m[room := x] - {room} == m - {room}
  {
  }

  lemma PutBack<V>(m: map<Room, V>, room: Room, x: V, dropped: bool)
    requires if dropped then room !in m else room in m
    ensures (if dropped then m[room := x] - {room} else m[room := x][room := m[room]]) == m
  {
  }

  /** Leaving undoes joining exactly when the user id is not the empty text. */
  lemma DisconnectUndoesConnect(h: Hub, room: Room, ws: Socket, u: User)
    requires HubInv(h) && Unconnected(h, ws)
    ensures var h' := Disconnected(Connected(h, room, ws, u), room, ws);
      h'.active == h.active && (h'.presence == h.presence <==> u != "")
  {
    var s, users := Active(h, room), Present(h, room);
    var c := Connected(h, room, ws, u);
    ActiveRoomOk(h, room);
    NoEmptyRoom(h, room);
    WithoutAbsent(s, ws);
    UsersUntouched(h.userOf, s, ws, u);
    PutBack(h.active, room, s + [ws], s == []);
    PutBack(h.presence, room, users + {u}, users == {});
    var after := Staying(c.userOf, users + {u}, s, ws);
    assert after == if u != "" then users else users + {u};
    assert "" !in users;
    if u == "" {
      assert "" in PutUsers(c.presence, room, after)[room];
    }
  }

  /** The handler's test before it disconnects. */
  predicate WillGoOffline(h: Hub, room: Room, ws: Socket, u: User) {
    forall x :: x in Active(h, room) && x != ws && x in h.userOf ==> h.userOf[x] != u
  }

  /** The offline notice is sent exactly when the user is gone from presence after the disconnect, whether or
      not the socket had already been kicked. */
  lemma OfflineNoticeIsExact(h: Hub, room: Room, ws: Socket, u: User)
    requires HubInv(h) && ws in h.userOf && h.userOf[ws] == u
    ensures WillGoOffline(h, room, ws, u) <==> u !in Present(Disconnected(h, room, ws), room)
  {
    ActiveRoomOk(h, room);
    WithoutMembers(Active(h, room), ws);
    LeavingIsExact(h.userOf, Active(h, room), ws, Present(h, room));
    var left := Without(Active(h, room), ws);
    assert Present(Disconnected(h, room, ws), room) == Users(h.userOf, left);
    if u in Users(h.userOf, left) {
      var x :| x in left && x in h.userOf && h.userOf[x] == u;
      assert x in Active(h, room) && x != ws;
    } else {
      forall x | x in Active(h, room) && x != ws && x in h.userOf ensures h.userOf[x] != u {
        assert x in left;
      }
    }
  }

  // ----- kick, close and broadcast: a loop over a copy -----

  /** The sockets of `list` that are in `doomed`, disconnected in turn. */
  function DropEach(h: Hub, room: Room, list: seq<Socket>, doomed: set<Socket>): Hub
    decreases |list|
  {
    if list == [] then h
    else DropEach(if list[0] in doomed then Disconnected(h, room, list[0]) else h, room, list[1..], doomed)
  }

  predicate Concerns(h: Hub, ws: Socket, u: Option<User>) {
    u == None || (ws in h.userOf && Some(h.userOf[ws]) == u)
  }

  function Chosen(h: Hub, room: Room, u: Option<User>): set<Socket> {
    set ws | ws in Active(h, room) && Concerns(h, ws, u)
  }

  /** kick with a user, close_room without. */
  function CloseAll(h: Hub, room: Room, u: Option<User>): Hub {
    DropEach(h, room, Active(h, room), Chosen(h, room, u))
  }

  datatype SendResult = Sent | SocketGone | SendFailed

  /** How many sockets of the list are served before a send fails for a reason that ends the loop. */
  function Reached(list: seq<Socket>, send: Socket -> SendResult): (n: nat)
    ensures n <= |list|
    ensures n < |list| ==> send(list[n]) == SendFailed
    ensures forall k :: 0 <= k < n ==> send(list[k]) != SendFailed
  {
    if list == [] || send(list[0]) == SendFailed then 0 else 1 + Reached(list[1..], send)
  }

  function Gone(list: seq<Socket>, send: Socket -> SendResult): set<Socket> {
    set ws | ws in list && send(ws) == SocketGone
  }

  function BroadcastOn(h: Hub, room: Room, send: Socket -> SendResult): Hub {
    var list := Active(h, room);
    DropEach(h, room, list[..Reached(list, send)], Gone(list, send))
  }

  /** `h'` has lost the sockets `gone` of `room` and nothing else. */
  ghost predicate Lost(h: Hub, h': Hub, room: Room, gone: set<Socket>) {
    && HubInv(h') && h'.userOf == h.userOf
    && (forall ws :: ws in Active(h', room) <==> ws in Active(h, room) && ws !in gone)
    && (forall r :: r != room ==> Active(h', r) == Active(h, r) && Present(h', r) == Present(h, r))
  }

  lemma LoseOneMore(h: Hub, m: Hub, room: Room, gone: set<Socket>, ws: Socket)
    requires HubInv(h) && Lost(h, m, room, gone)
    ensures Lost(h, Disconnected(m, room, ws), room, gone + {ws})
  {
    ActiveRoomOk(m, room);
    WithoutMembers(Active(m, room), ws);
    DisconnectKeepsInv(m, room, ws);
    assert Active(Disconnected(m, room, ws), room) == Without(Active(m, room), ws);
  }

  lemma {:induction false} DropEachLoses(h: Hub, m: Hub, room: Room, gone: set<Socket>, list: seq<Socket>, doomed: set<Socket>)
    requires HubInv(h) && Lost(h, m, room, gone)
    ensures Lost(h, DropEach(m, room, list, doomed), room, gone + Elements(list) * doomed)
    decreases |list|
  {
    if list == [] {
      assert gone + Elements(list) * doomed == gone;
    } else {
      var ws, rest := list[0], list[1..];
      if ws in doomed {
        LoseOneMore(h, m, room, gone, ws);
        DropEachLoses(h, Disconnected(m, room, ws), room, gone + {ws}, rest, doomed);
        assert gone + {ws} + Elements(rest) * doomed == gone + Elements(list) * doomed;
      } else {
        DropEachLoses(h, m, room, gone, rest, doomed);
        assert Elements(rest) * doomed == Elements(list) * doomed;
      }
    }
  }

  /** After a kick the user is absent and everyone else's sockets stay; after a close the room is gone. */
  lemma CloseAllLeaves(h: Hub, room: Room, u: Option<User>)
    requires HubInv(h)
    ensures var h' := CloseAll(h, room, u);
      && HubInv(h') && h'.userOf == h.userOf
      && (forall ws :: ws in Active(h', room) <==>
            ws in Active(h, room) && u.Some? && (ws in h.userOf ==> h.userOf[ws] != u.value))
      && (forall r :: r != room ==> Active(h', r) == Active(h, r) && Present(h', r) == Present(h, r))
      && (u.Some? ==> u.value !in Present(h', room))
      && (u.None? ==> room !in h'.active && room !in h'.presence)
  {
    var h' := CloseAll(h, room, u);
    DropEachLoses(h, h, room, {}, Active(h, room), Chosen(h, room, u));
    ActiveRoomOk(h', room);
    NoEmptyRoom(h', room);
    SomeElement(Active(h', room));
  }

  /** Closing in one room after the other. */
  function KickAll(h: Hub, order: seq<Room>, u: Option<User>): Hub
    decreases |order|
  {
    if order == [] then h else KickAll(CloseAll(h, order[0], u), order[1..], u)
  }

  /** The socket, in room `r`, is one of those to close: of user `u`, or anybody's. */
  ghost predicate Targeted(h: Hub, order: seq<Room>, u: Option<User>, r: Room, ws: Socket) {
    r in order && (u.None? || (ws in h.userOf && h.userOf[ws] == u.value))
  }

  lemma {:induction false} KickAllOne(h: Hub, order: seq<Room>, u: Option<User>, r: Room, ws: Socket)
    requires HubInv(h)
    ensures var h' := KickAll(h, order, u);
      && HubInv(h') && h'.userOf == h.userOf
      && (ws in Active(h', r) <==> ws in Active(h, r) && !Targeted(h, order, u, r, ws))
      && (r !in order ==> Active(h', r) == Active(h, r) && Present(h', r) == Present(h, r))
    decreases |order|
  {
    if order != [] {
      CloseAllLeaves(h, order[0], u);
      KickAllOne(CloseAll(h, order[0], u), order[1..], u, r, ws);
    }
  }

  /** Closing in several rooms takes exactly the sockets concerned there, and touches no other room. */
  lemma KickAllLeaves(h: Hub, order: seq<Room>, u: Option<User>)
    requires HubInv(h)
    ensures var h' := KickAll(h, order, u);
      && HubInv(h') && h'.userOf == h.userOf
      && (forall r, ws :: ws in Active(h', r) <==> ws in Active(h, r) && !Targeted(h, order, u, r, ws))
      && (forall r :: r !in order ==> Active(h', r) == Active(h, r) && Present(h', r) == Present(h, r))
  {
    var h' := KickAll(h, order, u);
    KickAllOne(h, order, u, "", 0);
    forall r, ws
      ensures ws in Active(h', r) <==> ws in Active(h, r) && !Targeted(h, order, u, r, ws)
    {
      KickAllOne(h, order, u, r, ws);
    }
    forall r | r !in order ensures Active(h', r) == Active(h, r) && Present(h', r) == Present(h, r) {
      KickAllOne(h, order, u, r, 0);
    }
  }

  /** No send to this or an earlier entry of the list ended the loop. */
  ghost predicate Served(list: seq<Socket>, send: Socket -> SendResult, k: int) {
    0 <= k < |list| && forall i :: 0 <= i <= k ==> send(list[i]) != SendFailed
  }

  /** A broadcast drops exactly the sockets it reached and found gone, and touches no other room. */
  lemma BroadcastLeaves(h: Hub, room: Room, send: Socket -> SendResult)
    requires HubInv(h)
    ensures var h', list := BroadcastOn(h, room, send), Active(h, room);
      && HubInv(h') && h'.userOf == h.userOf
      && (forall ws :: ws in Active(h', room) <==>
            ws in list && !(send(ws) == SocketGone && exists k :: Served(list, send, k) && list[k] == ws))
      && (forall r :: r != room ==> Active(h', r) == Active(h, r) && Present(h', r) == Present(h, r))
  {
    var list := Active(h, room);
    var n := Reached(list, send);
    var doomed := Elements(list[..n]) * Gone(list, send);
    DropEachLoses(h, h, room, {}, list[..n], Gone(list, send));
    assert {} + doomed == doomed;
    forall ws ensures ws in doomed <==> send(ws) == SocketGone && exists k :: Served(list, send, k) && list[k] == ws {
      if ws in doomed {
        var k :| 0 <= k < n && list[..n][k] == ws;
        assert Served(list, send, k);
      }
      if send(ws) == SocketGone && exists k :: Served(list, send, k) && list[k] == ws {
        var k :| Served(list, send, k) && list[k] == ws;
        assert k < n && list[..n][k] == ws;
      }
    }
  }

  // ----- the manager object -----

  lemma EmptyEntryIsInvisible(h: Hub, room: Room, ws: Socket)
    ensures var read := h.(active := h.active[room := Active(h, room)]);
      Disconnected(read, room, ws) == Disconnected(h, room, ws)
  {
  }

  class ConnectionManager {
    var active: map<Room, seq<Socket>>
    var presence: map<Room, set<User>>
    var userOf: map<Socket, User>

    ghost function State(): Hub
      reads this
    {
      Hub(active, presence, userOf)
    }

    constructor ()
      ensures State() == EMPTY_HUB && HubInv(State())
    {
      active := map[];
      presence := map[];
      userOf := map[];
    }

    /** The list of a room; reading a missing room of a defaultdict stores an empty one. */
    method ListOf(room: Room) returns (list: seq<Socket>)
      modifies this`active
      ensures list == Active(old(State()), room) && active == old(active)[room := list]
    {
      if room !in active {
        active := active[room := []];
      }
      list := active[room];
      assert active == old(active)[room := list];
    }

    method UsersOf(room: Room) returns (users: set<User>)
      modifies this`presence
      ensures users == Present(old(State()), room) && presence == old(presence)[room := users]
    {
      if room !in presence {
        presence := presence[room := {}];
      }
      users := presence[room];
      assert presence == old(presence)[room := users];
    }

    method Connect(room: Room, ws: Socket, user: User)
      modifies this
      ensures State() == Connected(old(State()), room, ws, user)
    {
      userOf := userOf[ws := user];
      var list := ListOf(room);
      PutTwice(old(active), room, list, list + [ws]);
      active := active[room := list + [ws]];
      var users := UsersOf(room);
      PutTwice(old(presence), room, users, users + {user});
      presence := presence[room := users + {user}];
    }

    method Disconnect(room: Room, ws: Socket)
      modifies this`active, this`presence
      ensures State() == Disconnected(old(State()), room, ws)
    {
      var list := ListOf(room);
      var left := Without(list, ws);
      PutTwice(old(active), room, list, left);
      active := active[room := left];
      var users := UsersOf(room);
      if ws in userOf && userOf[ws] != "" {
        var still := AnySocketOf(left, userOf[ws]);
        if !still {
          users := users - {userOf[ws]};
        }
      }
      PutTwice(old(presence), room, Present(old(State()), room), users);
      presence := presence[room := users];
      PutThenDrop(old(active), room, left);
      PutThenDrop(old(presence), room, users);
      if left == [] {
        active := active - {room};
      }
      if users == {} {
        presence := presence - {room};
      }
    }

    method AnySocketOf(list: seq<Socket>, user: User) returns (found: bool)
      ensures found == (user in Users(userOf, list))
    {
      found := false;
      for i := 0 to |list|
        invariant found ==> user in Users(userOf, list)
        invariant !found ==> forall k :: 0 <= k < i ==> !(list[k] in userOf && userOf[list[k]] == user)
      {
        if list[i] in userOf && userOf[list[i]] == user {
          found := true;
        }
      }
    }

    method PresenceSnapshot(room: Room) returns (users: set<User>)
      ensures users == Present(State(), room)
      ensures HubInv(State()) ==> users == Users(userOf, Active(State(), room))
    {
      if HubInv(State()) {
        ActiveRoomOk(State(), room);
      }
      users := if room in presence then presence[room] else {};
    }

    /** Sockets whose send finds them gone are dropped while the loop runs over a copy of the list; an
        exception of any other kind ends the loop. */
    method Broadcast(room: Room, send: Socket -> SendResult)
      modifies this`active, this`presence
      ensures State() == BroadcastOn(old(State()), room, send)
    {
      ghost var before := State();
      var copy := if room in active then active[room] else [];
      ghost var reached, gone := Reached(copy, send), Gone(copy, send);
      var i := 0;
      while i < |copy| && send(copy[i]) != SendFailed
        invariant 0 <= i <= reached
        invariant DropEach(State(), room, copy[i..reached], gone) == DropEach(before, room, copy[..reached], gone)
      {
        assert copy[i..reached][1..] == copy[i + 1..reached];
        if send(copy[i]) == SocketGone {
          Disconnect(room, copy[i]);
        }
        i := i + 1;
      }
    }

    method CloseSockets(room: Room, user: Option<User>)
      modifies this`active, this`presence
      ensures State() == CloseAll(old(State()), room, user)
    {
      ghost var before := State();
      var copy := if room in active then active[room] else [];
      ghost var doomed := Chosen(before, room, user);
      var i := 0;
      while i < |copy|
        invariant 0 <= i <= |copy|
        invariant userOf == before.userOf
        invariant DropEach(State(), room, copy[i..], doomed) == DropEach(before, room, copy, doomed)
      {
        assert copy[i..][1..] == copy[i + 1..];
        assert copy[i] in doomed <==> user.None? || (copy[i] in userOf && userOf[copy[i]] == user.value);
        if user.None? || (copy[i] in userOf && userOf[copy[i]] == user.value) {
          Disconnect(room, copy[i]);
        }
        i := i + 1;
      }
    }

    /** kick_user_from_club_rooms when nothing fails. */
    method KickFromRooms(rooms: seq<Room>, user: User)
      requires HubInv(State())
      modifies this`active, this`presence
      ensures State() == KickAll(old(State()), rooms, Some(user))
      ensures HubInv(State())
      ensures forall r, ws :: ws in Active(State(), r) <==>
        ws in Active(old(State()), r) && !(r in rooms && ws in userOf && userOf[ws] == user)
    {
      KickAllLeaves(State(), rooms, Some(user));
      for i := 0 to |rooms|
        invariant KickAll(State(), rooms[i..], Some(user)) == KickAll(old(State()), rooms, Some(user))
      {
        CloseSockets(rooms[i], Some(user));
        assert rooms[i..][1..] == rooms[i + 1..];
      }
    }

    method NoOtherSocketOf(list: seq<Socket>, ws: Socket, user: User) returns (none: bool)
      ensures none <==> forall x :: x in list && x != ws && x in userOf ==> userOf[x] != user
    {
      for i := 0 to |list|
        invariant forall k :: 0 <= k < i ==> list[k] == ws || list[k] !in userOf || userOf[list[k]] != user
      {
        if list[i] != ws && list[i] in userOf && userOf[list[i]] == user {
          return false;
        }
      }
      return true;
    }

    /** The handler's `finally`: was the user's last socket in the room closed? */
    method EndOfHandler(room: Room, ws: Socket, user: User) returns (willGoOffline: bool)
      requires HubInv(State()) && ws in userOf && userOf[ws] == user
      modifies this`active, this`presence
      ensures State() == Disconnected(old(State()), room, ws)
      ensures HubInv(State())
      ensures willGoOffline <==> user !in Present(State(), room)
    {
      OfflineNoticeIsExact(State(), room, ws, user);
      DisconnectKeepsInv(State(), room, ws);
      // reading the room of a defaultdict may store an empty list, which the disconnect drops again
      EmptyEntryIsInvisible(State(), room, ws);
      var list := ListOf(room);
      willGoOffline := NoOtherSocketOf(list, ws, user);
      Disconnect(room, ws);
    }
  }
}
