/** The handshake of a chat socket read by read (app/routers/chat.py:206-234), any number under way while other
    requests run. What a handshake has read may be stale when it connects. */
module ChatHandshake {
  import opened Common
  import opened ChatConnections
  import opened ChatAccess
  import opened ChatEventAccess

  type HandshakeId = nat

  /** What comes next. */
  datatype Phase =
    | ReadRoom
    | ReadMembership(row: RoomRow)
    | ReadAttendance(event: EventId)
    | ReadBan
    | Connect

  datatype Handshake = Handshake(room: Room, ws: Socket, user: User, phase: Phase)

  datatype World = World(server: Server, pending: map<HandshakeId, Handshake>)

  datatype Action =
    | Whole(request: Request)
    | Arrives(id: HandshakeId, room: Room, ws: Socket, user: User)
    | Proceeds(id: HandshakeId)
    | GivesUp(id: HandshakeId)

  function Refuse(w: World, id: HandshakeId): World {
    w.(pending := w.pending - {id})
  }

  function Goto(w: World, id: HandshakeId, phase: Phase): World
    requires id in w.pending
  {
    w.(pending := w.pending[id := w.pending[id].(phase := phase)])
  }

  function Proceed(w: World, id: HandshakeId): World
    requires id in w.pending
  {
    var h, s := w.pending[id], w.server;
    match h.phase
    case ReadRoom => if h.room in s.rooms then Goto(w, id, ReadMembership(s.rooms[h.room])) else Refuse(w, id)
    case ReadMembership(row) =>
      if (row.club, h.user) !in s.members then Refuse(w, id)
      else if row.event.None? || IsOrganizer(s, row.club, h.user) then Goto(w, id, ReadBan)
      else Goto(w, id, ReadAttendance(row.event.value))
    case ReadAttendance(event) => if (event, h.user) in s.attendance then Goto(w, id, ReadBan) else Refuse(w, id)
    case ReadBan => if ActiveBans(s, h.room, h.user) == {} then Goto(w, id, Connect) else Refuse(w, id)
    case Connect => Refuse(w, id).(server := s.(hub := Connected(s.hub, h.room, h.ws, h.user)))
  }

  function Apply(w: World, a: Action): World {
    match a
    case Whole(q) => w.(server := Step(w.server, q))
    case Arrives(id, room, ws, u) => w.(pending := w.pending[id := Handshake(room, ws, u, ReadRoom)])
    case Proceeds(id) => if id in w.pending then Proceed(w, id) else w
    case GivesUp(id) => Refuse(w, id)
  }

  ghost predicate AwaitsSocket(w: World, ws: Socket) {
    exists id :: id in w.pending && w.pending[id].ws == ws
  }

  /** Sockets come through handshakes alone, each its own. */
  ghost predicate Allowed(w: World, a: Action) {
    match a
    case Whole(q) => !q.OpenSocket? && Possible(w.server, q)
    case Arrives(id, _, ws, u) => id !in w.pending && Unconnected(w.server.hub, ws) && !AwaitsSocket(w, ws) && u != ""
    case _ => true
  }

  /** Up to `n` further steps of one handshake with nothing else in between. */
  function Alone(w: World, id: HandshakeId, n: nat): World
    decreases n
  {
    if n == 0 then w else Alone(Apply(w, Proceeds(id)), id, n - 1)
  }

  lemma {:induction false} Ended(w: World, id: HandshakeId, n: nat)
    requires id !in w.pending
    ensures Alone(w, id, n) == w
  {
    if n > 0 { Ended(w, id, n - 1); }
  }

  /** The handshake's last steps, once its user may enter the room unless banned. */
  lemma SoloEntry(w: World, w1: World, id: HandshakeId, h: Handshake, n: nat)
    requires id !in w.pending && w1 == w.(pending := w.pending[id := h]) && h.phase == ReadBan && n >= 2
    ensures Alone(w1, id, n)
         == if ActiveBans(w.server, h.room, h.user) == {} then w.(server := w.server.(hub := Connected(w.server.hub, h.room, h.ws, h.user)))
            else w
  {
    var w2 := Apply(w1, Proceeds(id));
    if ActiveBans(w.server, h.room, h.user) == {} {
      var w3 := Apply(w2, Proceeds(id));
      assert w2.pending == w.pending[id := h.(phase := Connect)];
      assert w3.pending == w.pending;
      Ended(w3, id, n - 2);
    } else {
      assert w2.pending == w.pending;
      Ended(w2, id, n - 1);
    }
  }

  /** A handshake that meets nobody, from its arrival to its end, is the whole request. */
  lemma SoloHandshake(w: World, id: HandshakeId, room: Room, ws: Socket, u: User)
    requires id !in w.pending
    ensures Alone(Apply(w, Arrives(id, room, ws, u)), id, 5) == w.(server := Step(w.server, OpenSocket(room, ws, u)))
  {
    var s, h := w.server, Handshake(room, ws, u, ReadRoom);
    var w1 := w.(pending := w.pending[id := h]);
    var w2 := Apply(w1, Proceeds(id));
    if room !in s.rooms {
      assert w2.pending == w.pending;
      Ended(w2, id, 4);
    } else {
      assert w2.pending == w.pending[id := h.(phase := ReadMembership(s.rooms[room]))];
      SoloMembership(w, w2, id, h.(phase := ReadMembership(s.rooms[room])));
    }
  }

  lemma SoloMembership(w: World, w2: World, id: HandshakeId, h: Handshake)
    requires id !in w.pending && w2 == w.(pending := w.pending[id := h])
    requires h.room in w.server.rooms && h.phase == ReadMembership(w.server.rooms[h.room])
    ensures Alone(w2, id, 4) == w.(server := Step(w.server, OpenSocket(h.room, h.ws, h.user)))
  {
    var s, row := w.server, w.server.rooms[h.room];
    var w3 := Apply(w2, Proceeds(id));
    if (row.club, h.user) !in s.members {
      assert w3.pending == w.pending;
      Ended(w3, id, 3);
    } else if row.event.None? || IsOrganizer(s, row.club, h.user) {
      assert w3.pending == w.pending[id := h.(phase := ReadBan)];
      SoloEntry(w, w3, id, h.(phase := ReadBan), 3);
    } else {
      var w4 := Apply(w3, Proceeds(id));
      assert w3.pending == w.pending[id := h.(phase := ReadAttendance(row.event.value))];
      if CanAccess(s, h.room, h.user) {
        assert w4.pending == w.pending[id := h.(phase := ReadBan)];
        SoloEntry(w, w4, id, h.(phase := ReadBan), 2);
      } else {
        assert w4.pending == w.pending;
        Ended(w4, id, 2);
      }
    }
  }

  // ----- the invariant -----

  ghost predicate HandshakeOk(w: World, id: HandshakeId)
    requires id in w.pending
  {
    var h := w.pending[id];
    && h.user != "" && Unconnected(w.server.hub, h.ws)
    && (!h.phase.ReadRoom? ==> h.room in w.server.everUsed)
    && (forall other :: other in w.pending && w.pending[other].ws == h.ws ==> other == id)
  }

  ghost predicate PendingOk(w: World) {
    forall id :: id in w.pending ==> HandshakeOk(w, id)
  }

  /** Every socket of an existing room belongs to someone who would be admitted to it now. */
  ghost predicate AllAdmitted(w: World) {
    AccessInv(w.server) && EventSocketsAllowed(w.server)
  }

  /** Handshake `id` connects now to an existing room that would not admit its user any more. */
  ghost predicate ConnectsLate(w: World, a: Action) {
    && a.Proceeds? && a.id in w.pending && w.pending[a.id].phase == Connect
    && w.pending[a.id].room in w.server.rooms
    && !Admitted(w.server, w.pending[a.id].room, w.pending[a.id].user)
  }

  ghost predicate Breaks(w: World, a: Action) {
    ConnectsLate(w, a) || (a.Whole? && OutlivesAccess(w.server, a.request))
  }

  lemma NoNewSockets(s: Server, q: Request)
    requires AccessInv(s) && Possible(s, q) && !q.OpenSocket?
    ensures forall r, ws :: ws in Active(Step(s, q).hub, r) ==> ws in Active(s.hub, r)
    ensures s.everUsed <= Step(s, q).everUsed
  {
    match q
    case SocketEnds(room, ws) =>
      ActiveRoomOk(s.hub, room);
      WithoutMembers(Active(s.hub, room), ws);
      assert Active(Step(s, q).hub, room) == Without(Active(s.hub, room), ws);
    case MemberGone(_, u, _, order) => KickedEverywhere(s.hub, order, Some(u));
    case BanFromRoom(room, _, u, _, _) => CloseOneRoom(s.hub, room, Some(u));
    case RoomDeleted(room, _) => CloseOneRoom(s.hub, room, None);
    case ClubDeleted(_, order) => KickedEverywhere(s.hub, order, None);
    case CancelsAttendance(_, _, u, room) => if room.Some? { CloseOneRoom(s.hub, room.value, Some(u)); }
    case _ =>
  }

  lemma StaysUnconnected(h: Hub, h': Hub, ws: Socket)
    requires Unconnected(h, ws) && forall r, x :: x in Active(h', r) ==> x in Active(h, r)
    ensures Unconnected(h', ws)
  {
    assert forall r :: r in h'.active ==> h'.active[r] == Active(h', r);
    assert forall r :: ws !in Active(h, r);
  }

  lemma WholeKeepsPending(w: World, q: Request)
    requires AccessInv(w.server) && PendingOk(w) && Allowed(w, Whole(q))
    ensures PendingOk(Apply(w, Whole(q)))
  {
    var w' := Apply(w, Whole(q));
    NoNewSockets(w.server, q);
    forall id | id in w'.pending ensures HandshakeOk(w', id) {
      assert HandshakeOk(w, id);
      StaysUnconnected(w.server.hub, w'.server.hub, w.pending[id].ws);
    }
  }

  lemma ConnectKeepsPending(w: World, id: HandshakeId)
    requires PendingOk(w) && id in w.pending && w.pending[id].phase == Connect
    ensures PendingOk(Proceed(w, id))
  {
    var w' := Proceed(w, id);
    assert HandshakeOk(w, id);
    forall other | other in w'.pending ensures HandshakeOk(w', other) {
      assert HandshakeOk(w, other) && w.pending[other].ws != w.pending[id].ws;
      var h := w'.server.hub;
      forall r | r in h.active ensures w.pending[other].ws !in h.active[r] {
      }
    }
  }

  lemma ReadKeepsPending(w: World, id: HandshakeId)
    requires AccessInv(w.server) && PendingOk(w) && id in w.pending && w.pending[id].phase != Connect
    ensures PendingOk(Proceed(w, id))
  {
    assert forall other :: other in w.pending ==> HandshakeOk(w, other);
  }

  lemma ActionKeepsPending(w: World, a: Action)
    requires AccessInv(w.server) && PendingOk(w) && Allowed(w, a)
    ensures PendingOk(Apply(w, a))
  {
    match a
    case Whole(q) => WholeKeepsPending(w, q);
    case Arrives(id, room, ws, u) =>
    case Proceeds(id) =>
      if id in w.pending {
        if w.pending[id].phase == Connect { ConnectKeepsPending(w, id); } else { ReadKeepsPending(w, id); }
      }
    case GivesUp(id) =>
      assert forall other :: other in w.pending ==> HandshakeOk(w, other);
  }

  /** Connecting keeps the registry in order, and everyone else's sockets. */
  lemma ConnectsOne(s: Server, room: Room, ws: Socket, u: User)
    requires AccessInv(s) && Unconnected(s.hub, ws) && u != ""
    ensures var h := Connected(s.hub, room, ws, u);
      && HubInv(h) && ws in Active(h, room) && h.userOf[ws] == u
      && (forall r, x :: x in Active(h, r) && !(r == room && x == ws) ==>
            x in Active(s.hub, r) && x in s.hub.userOf && h.userOf[x] == s.hub.userOf[x])
  {
    ConnectKeepsInv(s.hub, room, ws, u);
    var h := Connected(s.hub, room, ws, u);
    forall r, x | x in Active(h, r) && !(r == room && x == ws)
      ensures x in Active(s.hub, r) && x in s.hub.userOf && h.userOf[x] == s.hub.userOf[x]
    {
      ActiveRoomOk(s.hub, r);
      assert x in Active(s.hub, r) && x != ws;
    }
  }

  /** A socket in a room that is gone concerns nobody. */
  lemma GoneRoomKeepsAdmitted(s: Server, room: Room, ws: Socket, u: User)
    requires AccessInv(s) && EventSocketsAllowed(s) && Unconnected(s.hub, ws) && u != ""
    requires room in s.everUsed && room !in s.rooms
    ensures AccessInv(s.(hub := Connected(s.hub, room, ws, u))) && EventSocketsAllowed(s.(hub := Connected(s.hub, room, ws, u)))
  {
    var s' := s.(hub := Connected(s.hub, room, ws, u));
    ConnectsOne(s, room, ws, u);
    forall r, x | r in s.rooms && x in Active(s'.hub, r)
      ensures x in s.hub.userOf && s'.hub.userOf[x] == s.hub.userOf[x] && x in Active(s.hub, r)
    {
    }
    forall r, v ensures ActiveBans(s', r, v) == ActiveBans(s, r, v) && (CanAccess(s', r, v) <==> CanAccess(s, r, v)) {
    }
  }

  lemma LateConnectBreaks(s: Server, room: Room, ws: Socket, u: User)
    requires AccessInv(s) && Unconnected(s.hub, ws) && u != "" && room in s.rooms && !Admitted(s, room, u)
    ensures var s' := s.(hub := Connected(s.hub, room, ws, u)); !(AccessInv(s') && EventSocketsAllowed(s'))
  {
    var s' := s.(hub := Connected(s.hub, room, ws, u));
    ConnectsOne(s, room, ws, u);
    assert ws in Active(s'.hub, room) && s'.hub.userOf[ws] == u && s'.rooms == s.rooms;
    if CanAccess(s, room, u) {
      assert ActiveBans(s', room, u) == ActiveBans(s, room, u) != {};
    } else {
      assert !CanAccess(s', room, u);
    }
  }

  /** Connecting leaves only admitted sockets exactly when the user would still be admitted, or the room is gone. */
  lemma LateConnectBreaksExactly(w: World, id: HandshakeId)
    requires AllAdmitted(w) && PendingOk(w) && id in w.pending && w.pending[id].phase == Connect
    ensures AllAdmitted(Proceed(w, id)) <==> !ConnectsLate(w, Proceeds(id))
  {
    var h, s := w.pending[id], w.server;
    assert HandshakeOk(w, id);
    if h.room !in s.rooms {
      GoneRoomKeepsAdmitted(s, h.room, h.ws, h.user);
    } else if Admitted(s, h.room, h.user) {
      OpenKeepsInv(s, h.room, h.ws, h.user);
    } else {
      LateConnectBreaks(s, h.room, h.ws, h.user);
    }
  }

  /** One action leaves only admitted sockets exactly when it is neither a late connect nor a request that lets a
      socket of an event room outlive its right. */
  lemma AdmissionBreaksExactly(w: World, a: Action)
    requires AllAdmitted(w) && PendingOk(w) && Allowed(w, a)
    ensures AllAdmitted(Apply(w, a)) <==> !Breaks(w, a)
  {
    match a
    case Whole(q) =>
      StepKeepsInv(w.server, q);
      AccessOutlivedExactly(w.server, q);
    case Proceeds(id) =>
      if id in w.pending && w.pending[id].phase == Connect { LateConnectBreaksExactly(w, id); }
    case _ =>
  }

  ghost predicate AllowedRun(w: World, actions: seq<Action>)
    decreases |actions|
  {
    actions != [] ==> Allowed(w, actions[0]) && AllowedRun(Apply(w, actions[0]), actions[1..])
  }

  ghost predicate AdmittedThroughout(w: World, actions: seq<Action>)
    decreases |actions|
  {
    AllAdmitted(w) && (actions != [] ==> AdmittedThroughout(Apply(w, actions[0]), actions[1..]))
  }

  ghost predicate NeverBreaks(w: World, actions: seq<Action>)
    decreases |actions|
  {
    actions != [] ==> !Breaks(w, actions[0]) && NeverBreaks(Apply(w, actions[0]), actions[1..])
  }

  /** The same all through a run, with handshakes interleaved. */
  lemma {:induction false} AdmissionOverRuns(w: World, actions: seq<Action>)
    requires AllAdmitted(w) && PendingOk(w) && AllowedRun(w, actions)
    ensures AdmittedThroughout(w, actions) <==> NeverBreaks(w, actions)
    decreases |actions|
  {
    if actions != [] {
      AdmissionBreaksExactly(w, actions[0]);
      ActionKeepsPending(w, actions[0]);
      if AllAdmitted(Apply(w, actions[0])) {
        AdmissionOverRuns(Apply(w, actions[0]), actions[1..]);
      }
    }
  }
}
