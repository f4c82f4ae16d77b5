/** What each request of ChatAccess does to a single row and a single socket, and how long a room ban keeps its user
    out. */
module ChatAccessEffects {
  import opened Common
  import opened ChatConnections
  import opened ChatAccess

  // ----- each row after each request -----

  /** A member's row appears by joining, changes with the role, and goes with the member or the club. */
  lemma MembershipEffect(s: Server, q: Request, club: ClubId, u: User)
    ensures Lookup(Step(s, q).members, (club, u)) ==
      match q
      case MemberAdded(c, v) =>
        if c == club && v == u && (club, u) !in s.members then Some(Member) else Lookup(s.members, (club, u))
      case RoleChanged(c, v, role) =>
        if c == club && v == u && (club, u) in s.members then Some(role) else Lookup(s.members, (club, u))
      case MemberGone(c, v, _, _) => if c == club && v == u then None else Lookup(s.members, (club, u))
      case ClubDeleted(c, _) => if c == club then None else Lookup(s.members, (club, u))
      case _ => Lookup(s.members, (club, u))
  {
  }

  lemma AttendanceEffect(s: Server, q: Request, event: EventId, u: User)
    ensures (event, u) in Step(s, q).attendance <==>
      match q
      case Attends(e, v) => (e == event && v == u) || (event, u) in s.attendance
      case CancelsAttendance(e, _, v, _) => (event, u) in s.attendance && !(e == event && v == u)
      case MemberGone(_, v, dropped, _) => (event, u) in s.attendance && !(event in dropped && v == u)
      case _ => (event, u) in s.attendance
  {
  }

  /** `actor` is an organizer of the room's club. */
  ghost predicate Runs(s: Server, actor: User, room: Room) {
    room in s.rooms && Lookup(s.members, (s.rooms[room].club, actor)) == Some(Organizer)
  }

  /** A room goes by its deletion, which an organizer asks for, with its club, or in a clean-up. */
  lemma RoomEffect(s: Server, q: Request, room: Room)
    ensures Lookup(Step(s, q).rooms, room) ==
      match q
      case RoomDeleted(r, actor) => if r == room && Runs(s, actor, room) then None else Lookup(s.rooms, room)
      case ClubDeleted(c, _) => if room in s.rooms && s.rooms[room].club == c then None else Lookup(s.rooms, room)
      case RoomsExpired(gone) => if room in gone then None else Lookup(s.rooms, room)
      case RoomCreated(r, row) => if r == room then Some(row) else Lookup(s.rooms, room)
      case _ => Lookup(s.rooms, room)
  {
  }

  /** The ban takes effect: an organizer bans a member of the room's club. */
  ghost predicate MayBan(s: Server, actor: User, room: Room, u: User) {
    Runs(s, actor, room) && (s.rooms[room].club, u) in s.members
  }

  /** A ban row appears by an organizer's ban and goes only with its room. */
  lemma BanEffect(s: Server, q: Request, b: BanId)
    requires forall i :: i in s.bans ==> s.bans[i].room in s.rooms
    requires q.RoomCreated? ==> q.room !in s.rooms
    ensures var s' := Step(s, q);
      if q.BanFromRoom? && b == q.id && MayBan(s, q.actor, q.room, q.user) then
        && b in s'.bans && s'.bans[b].room == q.room && s'.bans[b].user == q.user
        && (s'.bans[b].until.None? <==> q.seconds <= 0)
        && (q.seconds > 0 ==> s'.bans[b].until == Some(s.now + q.seconds))
      else
        Lookup(s'.bans, b) == if b in s.bans && s.bans[b].room in s'.rooms then Some(s.bans[b]) else None
  {
  }

  lemma ClockEffect(s: Server, q: Request)
    ensures Step(s, q).now == if q.TimePasses? then q.until else s.now
    ensures Step(s, q).everUsed == if q.RoomCreated? then s.everUsed + {q.room} else s.everUsed
  {
  }

  // ----- each socket after each request -----

  /** No ban of the user in the room is running. */
  ghost predicate NotBanned(s: Server, room: Room, u: User) {
    forall b :: b in s.bans && s.bans[b].room == room && s.bans[b].user == u ==>
      s.bans[b].until.Some? && s.bans[b].until.value <= s.now
  }

  /** A member of the room's club, and for the room of an event one who organizes the club or attends. */
  ghost predicate MayEnter(s: Server, room: Room, u: User) {
    room in s.rooms &&
    var role := Lookup(s.members, (s.rooms[room].club, u));
    || role == Some(Organizer)
    || (role == Some(Member) && (s.rooms[room].event.Some? ==> (s.rooms[room].event.value, u) in s.attendance))
  }

  lemma AdmittedExactly(s: Server, room: Room, u: User)
    ensures Admitted(s, room, u) <==> MayEnter(s, room, u) && NotBanned(s, room, u)
  {
    if room in s.rooms && (s.rooms[room].club, u) in s.members {
      assert s.members[(s.rooms[room].club, u)].Organizer? || s.members[(s.rooms[room].club, u)].Member?;
    }
    if NotBanned(s, room, u) {
      assert ActiveBans(s, room, u) == {};
    } else {
      var b :| b in s.bans && s.bans[b].room == room && s.bans[b].user == u
        && !(s.bans[b].until.Some? && s.bans[b].until.value <= s.now);
      assert b in ActiveBans(s, room, u);
    }
  }

  /** The socket's user is `u`. */
  ghost predicate Of(s: Server, ws: Socket, u: User) {
    Lookup(s.hub.userOf, ws) == Some(u)
  }

  /** The request closes sockets of room `r` that are `ws`'s user's: by a ban, a departure, a cancelled attendance, or
      the deletion of the room or club. */
  ghost predicate Closes(s: Server, q: Request, r: Room, ws: Socket) {
    match q
    case SocketEnds(room, x) => room == r && x == ws
    case MemberGone(_, u, _, order) => r in order && Of(s, ws, u)
    case BanFromRoom(room, actor, u, _, _) => room == r && MayBan(s, actor, room, u) && Of(s, ws, u)
    case RoomDeleted(room, actor) => room == r && Runs(s, actor, room)
    case ClubDeleted(_, order) => r in order
    case CancelsAttendance(_, club, u, room) =>
      room == Some(r) && Of(s, ws, u) && Lookup(s.members, (club, u)) != Some(Organizer)
    case _ => false
  }

  lemma OpenEffect(s: Server, room: Room, x: Socket, u: User, r: Room, ws: Socket)
    requires AccessInv(s) && Unconnected(s.hub, x) && u != ""
    ensures var s' := Step(s, OpenSocket(room, x, u));
      && (ws in Active(s'.hub, r) <==>
            ws in Active(s.hub, r) || (r == room && ws == x && MayEnter(s, room, u) && NotBanned(s, room, u)))
      && (x in Active(s'.hub, room) ==> Of(s', x, u))
      && (ws != x ==> Lookup(s'.hub.userOf, ws) == Lookup(s.hub.userOf, ws))
  {
    AdmittedExactly(s, room, u);
    ConnectEffect(s.hub, room, x, u);
    assert x !in Active(s.hub, room);
  }

  lemma EndEffect(s: Server, room: Room, x: Socket, r: Room, ws: Socket)
    requires AccessInv(s)
    ensures var s' := Step(s, SocketEnds(room, x));
      && (ws in Active(s'.hub, r) <==> ws in Active(s.hub, r) && !(room == r && x == ws))
      && s'.hub.userOf == s.hub.userOf
  {
    ActiveRoomOk(s.hub, room);
    WithoutMembers(Active(s.hub, room), x);
    assert Active(Disconnected(s.hub, room, x), room) == Without(Active(s.hub, room), x);
  }

  lemma KickEffect(s: Server, q: Request, r: Room, ws: Socket)
    requires AccessInv(s) && (q.MemberGone? || q.ClubDeleted?)
    ensures ws in Active(Step(s, q).hub, r) <==> ws in Active(s.hub, r) && !Closes(s, q, r, ws)
  {
    KickAllLeaves(s.hub, q.order, if q.MemberGone? then Some(q.user) else None);
  }

  lemma CloseEffect(s: Server, q: Request, r: Room, ws: Socket)
    requires AccessInv(s) && (q.BanFromRoom? || q.RoomDeleted?)
    ensures ws in Active(Step(s, q).hub, r) <==> ws in Active(s.hub, r) && !Closes(s, q, r, ws)
  {
    CloseAllLeaves(s.hub, q.room, if q.BanFromRoom? then Some(q.user) else None);
  }

  lemma CancelEffect(s: Server, q: Request, r: Room, ws: Socket)
    requires AccessInv(s) && q.CancelsAttendance?
    ensures ws in Active(Step(s, q).hub, r) <==> ws in Active(s.hub, r) && !Closes(s, q, r, ws)
  {
    if q.eventRoom.Some? { CloseAllLeaves(s.hub, q.eventRoom.value, Some(q.user)); }
  }

  /** A socket is open after a request exactly when the request opened it or it was open and the request does not
      close it. */
  lemma SocketEffect(s: Server, q: Request, r: Room, ws: Socket)
    requires AccessInv(s) && Possible(s, q)
    ensures ws in Active(Step(s, q).hub, r) <==>
      || (ws in Active(s.hub, r) && !Closes(s, q, r, ws))
      || (q.OpenSocket? && r == q.room && ws == q.ws && MayEnter(s, r, q.user) && NotBanned(s, r, q.user))
  {
    match q
    case OpenSocket(room, x, u) => OpenEffect(s, room, x, u, r, ws);
    case SocketEnds(room, x) => EndEffect(s, room, x, r, ws);
    case MemberGone(_, _, _, _) => KickEffect(s, q, r, ws);
    case ClubDeleted(_, _) => KickEffect(s, q, r, ws);
    case BanFromRoom(_, _, _, _, _) => CloseEffect(s, q, r, ws);
    case RoomDeleted(_, _) => CloseEffect(s, q, r, ws);
    case CancelsAttendance(_, _, _, _) => CancelEffect(s, q, r, ws);
    case _ =>
  }

  // ----- how long a ban lasts -----

  /** The ban `id` stands, or its room is gone for good. */
  ghost predicate BanStands(s: Server, id: BanId, b: BanRow) {
    && b.room in s.everUsed
    && (b.room in s.rooms ==> id in s.bans && s.bans[id] == b)
  }

  lemma {:induction false} BanStandsOverRuns(s: Server, id: BanId, b: BanRow, requests: seq<Request>)
    requires BanStands(s, id, b) && PossibleRun(s, requests)
    ensures BanStands(Serve(s, requests), id, b)
    decreases |requests|
  {
    if requests != [] { BanStandsOverRuns(Step(s, requests[0]), id, b, requests[1..]); }
  }

  /** Whatever happens after a ban took effect, until its seconds have passed, and for ever if it has none, its user
      is not admitted to the room and holds no socket in it while it exists. */
  lemma BanKeepsOut(s: Server, room: Room, actor: User, u: User, seconds: int, id: BanId, later: seq<Request>)
    requires AccessInv(s) && MayBan(s, actor, room, u)
    requires PossibleRun(s, [BanFromRoom(room, actor, u, seconds, id)] + later)
    ensures var s' := Serve(s, [BanFromRoom(room, actor, u, seconds, id)] + later);
      seconds <= 0 || s'.now < s.now + seconds ==>
        && !Admitted(s', room, u)
        && (room in s'.rooms ==> forall ws :: ws in Active(s'.hub, room) ==> !Of(s', ws, u))
  {
    var ban := BanFromRoom(room, actor, u, seconds, id);
    var s1 := Step(s, ban);
    assert ([ban] + later)[0] == ban && ([ban] + later)[1..] == later;
    StepKeepsInv(s, ban);
    BanStandsOverRuns(s1, id, BanRow(room, u, if seconds > 0 then Some(s.now + seconds) else None), later);
    SocketsStayAllowed(s1, later);
    var s' := Serve(s1, later);
    AdmittedExactly(s', room, u);
    if room in s'.rooms && (seconds <= 0 || s'.now < s.now + seconds) {
      assert id in ActiveBans(s', room, u);
    }
  }

  /** No ban of the user in the room runs on at `t`. */
  ghost predicate FreeAt(s: Server, room: Room, u: User, t: int) {
    forall b :: b in s.bans && s.bans[b].room == room && s.bans[b].user == u ==>
      s.bans[b].until.Some? && s.bans[b].until.value <= t
  }

  /** As time passes after a ban, its user is admitted again exactly from its end on, if access is kept and no other
      ban runs. */
  lemma AdmittedAgain(s: Server, room: Room, actor: User, u: User, seconds: int, id: BanId, t: int)
    requires MayBan(s, actor, room, u) && id !in s.bans
    ensures Admitted(Step(Step(s, BanFromRoom(room, actor, u, seconds, id)), TimePasses(t)), room, u)
      <==> MayEnter(s, room, u) && FreeAt(s, room, u, t) && seconds > 0 && s.now + seconds <= t
  {
    var s' := Step(Step(s, BanFromRoom(room, actor, u, seconds, id)), TimePasses(t));
    AdmittedExactly(s', room, u);
    assert forall b :: b in s.bans ==> b in s'.bans && s'.bans[b] == s.bans[b];
    assert id in s'.bans;
  }
}
