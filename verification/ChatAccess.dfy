/** Who may hold a socket: chat rooms, memberships, room bans and the socket registry together, with whole
    requests as steps and kicks that do not fail. */
module ChatAccess {
  import opened Common
  import opened ChatConnections

  type ClubId = nat
  type EventId = nat
  type BanId = nat

  datatype Role = Member | Organizer
  datatype RoomRow = RoomRow(club: ClubId, event: Option<EventId>)
  datatype BanRow = BanRow(room: Room, user: User, until: Option<int>)

  /** `everUsed` is the set of room ids handed out so far; ids are random and never repeat. */
  datatype Server = Server(
    rooms: map<Room, RoomRow>,
    members: map<(ClubId, User), Role>,
    attendance: set<(EventId, User)>,
    bans: map<BanId, BanRow>,
    hub: Hub,
    now: int,
    everUsed: set<Room>)

  predicate BanActive(b: BanRow, now: int) {
    b.until.None? || b.until.value > now
  }

  function ActiveBans(s: Server, room: Room, u: User): set<BanId> {
    set b | b in s.bans && s.bans[b].room == room && s.bans[b].user == u && BanActive(s.bans[b], s.now)
  }

  predicate IsOrganizer(s: Server, club: ClubId, u: User) {
    (club, u) in s.members && s.members[(club, u)] == Organizer
  }

  predicate CanAccess(s: Server, room: Room, u: User) {
    && room in s.rooms
    && (s.rooms[room].club, u) in s.members
    && (s.rooms[room].event.None? || IsOrganizer(s, s.rooms[room].club, u)
        || (s.rooms[room].event.value, u) in s.attendance)
  }

  /** get_active_ban reads at most one row: none lets the user in, one closes the socket, and several raise,
      so the handshake ends without connecting either way. */
  predicate Admitted(s: Server, room: Room, u: User) {
    CanAccess(s, room, u) && ActiveBans(s, room, u) == {}
  }

  function RoomsOf(s: Server, club: ClubId): set<Room> {
    set r | r in s.rooms && s.rooms[r].club == club
  }

  function RoomsFor(s: Server, event: EventId): set<Room> {
    set r | r in s.rooms && s.rooms[r].event == Some(event)
  }

  datatype Request =
    | OpenSocket(room: Room, ws: Socket, user: User)
    | SocketEnds(room: Room, ws: Socket)
    | MemberAdded(club: ClubId, user: User)
    | RoleChanged(club: ClubId, user: User, role: Role)
      // leave, remove and club ban, in the order in which list_rooms returned the club's rooms
    | MemberGone(club: ClubId, user: User, droppedEvents: set<EventId>, order: seq<Room>)
    | BanFromRoom(room: Room, actor: User, user: User, seconds: int, id: BanId)
    | RoomDeleted(room: Room, actor: User)
    | ClubDeleted(club: ClubId, order: seq<Room>)
      // the background clean-ups delete rooms and leave their sockets alone
    | RoomsExpired(gone: set<Room>)
    | RoomCreated(room: Room, row: RoomRow)
    | Attends(event: EventId, user: User)
      // cancelling attendance kicks from one room of the event, given as `eventRoom` when there is any
    | CancelsAttendance(event: EventId, club: ClubId, user: User, eventRoom: Option<Room>)
    | TimePasses(until: int)

  function WithoutRooms(s: Server, gone: set<Room>): Server {
    s.(rooms := s.rooms - gone, bans := map b | b in s.bans && s.bans[b].room !in gone :: s.bans[b])
  }

  function Step(s: Server, q: Request): Server {
    match q
    case OpenSocket(room, ws, u) => if Admitted(s, room, u) then s.(hub := Connected(s.hub, room, ws, u)) else s
    case SocketEnds(room, ws) => s.(hub := Disconnected(s.hub, room, ws))
    case MemberAdded(club, u) =>
      if (club, u) in s.members then s else s.(members := s.members[(club, u) := Member])
    case RoleChanged(club, u, role) =>
      if (club, u) in s.members then s.(members := s.members[(club, u) := role]) else s
    case MemberGone(club, u, dropped, order) =>
      s.(members := s.members - {(club, u)},
         attendance := (set a | a in s.attendance && !(a.1 == u && a.0 in dropped)),
         hub := KickAll(s.hub, order, Some(u)))
    case BanFromRoom(room, actor, u, seconds, id) =>
      if !CanAccess(s, room, actor) || !IsOrganizer(s, s.rooms[room].club, actor)
         || (s.rooms[room].club, u) !in s.members then s
      else s.(bans := s.bans[id := BanRow(room, u, if seconds > 0 then Some(s.now + seconds) else None)],
              hub := CloseAll(s.hub, room, Some(u)))
    case RoomDeleted(room, actor) =>
      if !CanAccess(s, room, actor) || !IsOrganizer(s, s.rooms[room].club, actor) then s
      else WithoutRooms(s, {room}).(hub := CloseAll(s.hub, room, None))
    case ClubDeleted(club, order) =>
      WithoutRooms(s, RoomsOf(s, club)).(
        members := (map m | m in s.members && m.0 != club :: s.members[m]),
        hub := KickAll(s.hub, order, None))
    case RoomsExpired(gone) => WithoutRooms(s, gone)
    case RoomCreated(room, row) =>
      s.(rooms := s.rooms[room := row], everUsed := s.everUsed + {room})
    case Attends(event, u) => s.(attendance := s.attendance + {(event, u)})
    case CancelsAttendance(event, club, u, room) =>
      var s' := s.(attendance := s.attendance - {(event, u)});
      if IsOrganizer(s, club, u) || room.None? then s'
      else s'.(hub := CloseAll(s.hub, room.value, Some(u)))
    case TimePasses(t) => s.(now := t)
  }

  /** Fresh socket, room and ban identities; user ids are UUIDs; list_rooms returns the club's rooms; an event, and
      so its rooms, are of one club. */
  ghost predicate Possible(s: Server, q: Request) {
    match q
    case OpenSocket(_, ws, u) => Unconnected(s.hub, ws) && u != ""
    case MemberGone(club, _, dropped, order) =>
      && RoomsOf(s, club) == (set r | r in order)
      && (forall r :: r in s.rooms && s.rooms[r].event.Some? && s.rooms[r].event.value in dropped ==> s.rooms[r].club == club)
    case ClubDeleted(club, order) => RoomsOf(s, club) == set r | r in order
    case BanFromRoom(_, _, _, _, id) => id !in s.bans
    case RoomCreated(room, _) => room !in s.everUsed
    case CancelsAttendance(event, club, _, room) =>
      && (forall r :: r in RoomsFor(s, event) ==> s.rooms[r].club == club)
      && (if room.Some? then room.value in RoomsFor(s, event) else RoomsFor(s, event) == {})
    case TimePasses(t) => t >= s.now
    case _ => true
  }

  /** Every socket of an existing room belongs to a current member of the room's club who is not banned there. */
  ghost predicate SocketsAllowed(s: Server) {
    forall r, ws :: r in s.rooms && ws in Active(s.hub, r) ==>
      && ws in s.hub.userOf
      && (s.rooms[r].club, s.hub.userOf[ws]) in s.members
      && ActiveBans(s, r, s.hub.userOf[ws]) == {}
  }

  ghost predicate AccessInv(s: Server) {
    && HubInv(s.hub)
    && s.rooms.Keys <= s.everUsed
    && s.hub.active.Keys <= s.everUsed
    && SocketsAllowed(s)
  }

  /** `h'` has no sockets `h` did not have, each with its user unchanged. */
  ghost predicate Fewer(h: Hub, h': Hub) {
    && HubInv(h') && h'.userOf == h.userOf
    && (forall r, ws :: ws in Active(h', r) ==> ws in Active(h, r))
    && h'.active.Keys <= h.active.Keys
  }

  lemma FewerRooms(h: Hub, h': Hub)
    requires HubInv(h) && HubInv(h') && h'.userOf == h.userOf
    requires forall r, ws :: ws in Active(h', r) ==> ws in Active(h, r)
    ensures Fewer(h, h')
  {
    forall r | r in h'.active ensures r in h.active {
      assert h'.active[r][0] in Active(h', r);
    }
  }

  /** Closing a room's sockets, all or one user's, leaves none of those concerned. */
  lemma CloseOneRoom(h: Hub, room: Room, u: Option<User>)
    requires HubInv(h)
    ensures Fewer(h, CloseAll(h, room, u))
    ensures forall ws :: ws in Active(CloseAll(h, room, u), room) ==> !Concerns(h, ws, u)
  {
    CloseAllLeaves(h, room, u);
    var h' := CloseAll(h, room, u);
    forall r, ws | ws in Active(h', r) ensures ws in Active(h, r) {
      if r != room { assert Active(h', r) == Active(h, r); }
    }
    FewerRooms(h, h');
  }

  lemma KickedEverywhere(h: Hub, order: seq<Room>, u: Option<User>)
    requires HubInv(h)
    ensures Fewer(h, KickAll(h, order, u))
    ensures forall r, ws :: r in order && ws in Active(KickAll(h, order, u), r) ==> !Concerns(h, ws, u)
  {
    KickAllLeaves(h, order, u);
    FewerRooms(h, KickAll(h, order, u));
  }

  lemma OpenKeepsInv(s: Server, room: Room, ws: Socket, u: User)
    requires AccessInv(s) && Unconnected(s.hub, ws) && u != "" && Admitted(s, room, u)
    ensures AccessInv(Step(s, OpenSocket(room, ws, u)))
  {
    var s' := Step(s, OpenSocket(room, ws, u));
    ConnectKeepsInv(s.hub, room, ws, u);
    forall r, x | r in s'.rooms && x in Active(s'.hub, r)
      ensures x in s'.hub.userOf && (s'.rooms[r].club, s'.hub.userOf[x]) in s'.members
              && ActiveBans(s', r, s'.hub.userOf[x]) == {}
    {
      if x == ws {
        assert r == room;
        assert ActiveBans(s', room, u) == ActiveBans(s, room, u);
      } else {
        assert x in Active(s.hub, r);
        assert ActiveBans(s', r, s.hub.userOf[x]) == ActiveBans(s, r, s.hub.userOf[x]);
      }
    }
  }

  /** No socket of the ban's room belongs to its user. */
  ghost predicate Harmless(h: Hub, b: BanRow) {
    forall ws :: ws in Active(h, b.room) && ws in h.userOf ==> h.userOf[ws] != b.user
  }

  lemma EndKeepsInv(s: Server, room: Room, ws: Socket)
    requires AccessInv(s)
    ensures AccessInv(Step(s, SocketEnds(room, ws)))
  {
    var s' := Step(s, SocketEnds(room, ws));
    DisconnectKeepsInv(s.hub, room, ws);
    ActiveRoomOk(s.hub, room);
    WithoutMembers(Active(s.hub, room), ws);
    forall r, x | x in Active(s'.hub, r) ensures x in Active(s.hub, r) {
      assert r == room ==> Active(s'.hub, r) == Without(Active(s.hub, r), ws);
    }
    FewerRooms(s.hub, s'.hub);
  }

  lemma GoneFromClubRooms(s: Server, club: ClubId, u: User, order: seq<Room>, r: Room, ws: Socket)
    requires AccessInv(s) && RoomsOf(s, club) == set r | r in order
    requires r in s.rooms && ws in Active(KickAll(s.hub, order, Some(u)), r)
    ensures ws in s.hub.userOf && (s.rooms[r].club, s.hub.userOf[ws]) in s.members - {(club, u)}
  {
    KickedEverywhere(s.hub, order, Some(u));
    assert ws in Active(s.hub, r);
    if s.rooms[r].club == club {
      assert r in RoomsOf(s, club) && r in order;
      assert !Concerns(s.hub, ws, Some(u));
    }
  }

  lemma MemberGoneKeepsInv(s: Server, club: ClubId, u: User, dropped: set<EventId>, order: seq<Room>)
    requires AccessInv(s) && RoomsOf(s, club) == set r | r in order
    ensures AccessInv(Step(s, MemberGone(club, u, dropped, order)))
  {
    var s' := Step(s, MemberGone(club, u, dropped, order));
    KickedEverywhere(s.hub, order, Some(u));
    forall r, ws | r in s'.rooms && ws in Active(s'.hub, r)
      ensures (s.rooms[r].club, s.hub.userOf[ws]) in s'.members
    {
      GoneFromClubRooms(s, club, u, order, r, ws);
    }
  }

  lemma BanKeepsInv(s: Server, room: Room, actor: User, u: User, seconds: int, id: BanId)
    requires AccessInv(s) && id !in s.bans
    ensures AccessInv(Step(s, BanFromRoom(room, actor, u, seconds, id)))
  {
    CloseOneRoom(s.hub, room, Some(u));
  }

  lemma ClubDeletedKeepsInv(s: Server, club: ClubId, order: seq<Room>)
    requires AccessInv(s) && RoomsOf(s, club) == set r | r in order
    ensures AccessInv(Step(s, ClubDeleted(club, order)))
  {
    var s' := Step(s, ClubDeleted(club, order));
    KickedEverywhere(s.hub, order, None);
    forall r | r in s'.rooms ensures s.rooms[r].club != club {
      assert r in s.rooms && r !in RoomsOf(s, club);
    }
  }

  lemma RoomDeletedKeepsInv(s: Server, room: Room, actor: User)
    requires AccessInv(s)
    ensures AccessInv(Step(s, RoomDeleted(room, actor)))
  {
    CloseOneRoom(s.hub, room, None);
  }

  lemma CancelKeepsInv(s: Server, event: EventId, club: ClubId, u: User, room: Option<Room>)
    requires AccessInv(s)
    ensures AccessInv(Step(s, CancelsAttendance(event, club, u, room)))
  {
    if room.Some? { CloseOneRoom(s.hub, room.value, Some(u)); }
  }

  lemma StepKeepsInv(s: Server, q: Request)
    requires AccessInv(s) && Possible(s, q)
    ensures AccessInv(Step(s, q))
  {
    match q
    case OpenSocket(room, ws, u) => if Admitted(s, room, u) { OpenKeepsInv(s, room, ws, u); }
    case SocketEnds(room, ws) => EndKeepsInv(s, room, ws);
    case MemberGone(club, u, dropped, order) => MemberGoneKeepsInv(s, club, u, dropped, order);
    case BanFromRoom(room, actor, u, seconds, id) => BanKeepsInv(s, room, actor, u, seconds, id);
    case ClubDeleted(club, order) => ClubDeletedKeepsInv(s, club, order);
    case RoomDeleted(room, actor) => RoomDeletedKeepsInv(s, room, actor);
    case CancelsAttendance(event, club, u, room) => CancelKeepsInv(s, event, club, u, room);
    case _ =>
  }

  function Serve(s: Server, requests: seq<Request>): Server
    decreases |requests|
  {
    if requests == [] then s else Serve(Step(s, requests[0]), requests[1..])
  }

  ghost predicate PossibleRun(s: Server, requests: seq<Request>)
    decreases |requests|
  {
    requests == [] || (Possible(s, requests[0]) && PossibleRun(Step(s, requests[0]), requests[1..]))
  }

  /** In every reachable state, sockets of existing rooms belong to members who are not banned there. */
  lemma {:induction false} SocketsStayAllowed(s: Server, requests: seq<Request>)
    requires AccessInv(s) && PossibleRun(s, requests)
    ensures AccessInv(Serve(s, requests))
    decreases |requests|
  {
    if requests != [] {
      StepKeepsInv(s, requests[0]);
      SocketsStayAllowed(Step(s, requests[0]), requests[1..]);
    }
  }
}
