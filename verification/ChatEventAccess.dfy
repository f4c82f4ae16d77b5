/** Event rooms admit members who organize the club or attend the event. When the sockets in them outlive that right,
    with whole requests as steps. */
module ChatEventAccess {
  import opened Common
  import opened ChatConnections
  import opened ChatAccess

  /** Every socket of an existing event room belongs to someone who may use the room. */
  ghost predicate EventSocketsAllowed(s: Server) {
    forall r, ws :: r in s.rooms && s.rooms[r].event.Some? && ws in Active(s.hub, r) ==>
      ws in s.hub.userOf && CanAccess(s, r, s.hub.userOf[ws])
  }

  ghost predicate HoldsSocket(s: Server, r: Room, u: User) {
    exists ws :: ws in Active(s.hub, r) && ws in s.hub.userOf && s.hub.userOf[ws] == u
  }

  /** `u` becomes a plain member of the club while holding a socket in a room of one of its events without
      attending. */
  ghost predicate DemotedInside(s: Server, club: ClubId, u: User) {
    && (club, u) in s.members
    && exists r :: r in s.rooms && s.rooms[r].club == club && s.rooms[r].event.Some?
         && (s.rooms[r].event.value, u) !in s.attendance && HoldsSocket(s, r, u)
  }

  /** `u`, no organizer, cancels while holding a socket in a room of the event other than the one kicked from. */
  ghost predicate CancelsInside(s: Server, event: EventId, club: ClubId, u: User, room: Option<Room>) {
    && !IsOrganizer(s, club, u)
    && exists r :: r in RoomsFor(s, event) && Some(r) != room && HoldsSocket(s, r, u)
  }

  ghost predicate OutlivesAccess(s: Server, q: Request) {
    match q
    case RoleChanged(club, u, role) => role == Member && DemotedInside(s, club, u)
    case CancelsAttendance(event, club, u, room) => CancelsInside(s, event, club, u, room)
    case _ => false
  }

  lemma EndKeepsRights(s: Server, room: Room, ws: Socket)
    requires AccessInv(s) && EventSocketsAllowed(s)
    ensures EventSocketsAllowed(Step(s, SocketEnds(room, ws)))
  {
    var s' := Step(s, SocketEnds(room, ws));
    ActiveRoomOk(s.hub, room);
    WithoutMembers(Active(s.hub, room), ws);
    forall r, x | x in Active(s'.hub, r) ensures x in Active(s.hub, r) {
      assert r == room ==> Active(s'.hub, r) == Without(Active(s.hub, r), ws);
    }
  }

  lemma GoneKeepsRights(s: Server, club: ClubId, u: User, dropped: set<EventId>, order: seq<Room>)
    requires AccessInv(s) && EventSocketsAllowed(s) && Possible(s, MemberGone(club, u, dropped, order))
    ensures EventSocketsAllowed(Step(s, MemberGone(club, u, dropped, order)))
  {
    var s' := Step(s, MemberGone(club, u, dropped, order));
    KickedEverywhere(s.hub, order, Some(u));
    forall r, ws | r in s'.rooms && ws in Active(s'.hub, r) && CanAccess(s, r, s.hub.userOf[ws])
      ensures CanAccess(s', r, s.hub.userOf[ws])
    {
      GoneFromClubRooms(s, club, u, order, r, ws);
    }
  }

  lemma DeletionKeepsRights(s: Server, club: ClubId, order: seq<Room>)
    requires AccessInv(s) && EventSocketsAllowed(s) && RoomsOf(s, club) == set r | r in order
    ensures EventSocketsAllowed(Step(s, ClubDeleted(club, order)))
  {
    var s' := Step(s, ClubDeleted(club, order));
    KickedEverywhere(s.hub, order, None);
    forall r | r in s'.rooms ensures s.rooms[r].club != club {
      assert r in s.rooms && r !in RoomsOf(s, club);
    }
  }

  /** A room ban and a room's deletion close sockets and touch no right. */
  lemma ClosingKeepsRights(s: Server, q: Request)
    requires AccessInv(s) && EventSocketsAllowed(s) && (q.BanFromRoom? || q.RoomDeleted?)
    ensures EventSocketsAllowed(Step(s, q))
  {
    CloseOneRoom(s.hub, q.room, if q.BanFromRoom? then Some(q.user) else None);
  }

  lemma DemotionBreaks(s: Server, club: ClubId, u: User)
    requires DemotedInside(s, club, u)
    ensures !EventSocketsAllowed(Step(s, RoleChanged(club, u, Member)))
  {
    var s' := Step(s, RoleChanged(club, u, Member));
    var r :| r in s.rooms && s.rooms[r].club == club && s.rooms[r].event.Some?
      && (s.rooms[r].event.value, u) !in s.attendance && HoldsSocket(s, r, u);
    var ws :| ws in Active(s.hub, r) && ws in s.hub.userOf && s.hub.userOf[ws] == u;
    assert r in s'.rooms && ws in Active(s'.hub, r) && !CanAccess(s', r, u);
  }

  lemma OtherRolesKeepRights(s: Server, club: ClubId, u: User, role: Role)
    requires EventSocketsAllowed(s) && !(role == Member && DemotedInside(s, club, u))
    ensures EventSocketsAllowed(Step(s, RoleChanged(club, u, role)))
  {
    var s' := Step(s, RoleChanged(club, u, role));
    forall r, ws | r in s'.rooms && s'.rooms[r].event.Some? && ws in Active(s'.hub, r)
      ensures ws in s'.hub.userOf && CanAccess(s', r, s'.hub.userOf[ws])
    {
      assert CanAccess(s, r, s.hub.userOf[ws]) && HoldsSocket(s, r, s.hub.userOf[ws]);
    }
  }

  lemma OtherRoomsKept(h: Hub, room: Room, u: User, r: Room)
    requires HubInv(h) && r != room
    ensures Active(CloseAll(h, room, Some(u)), r) == Active(h, r) && CloseAll(h, room, Some(u)).userOf == h.userOf
  {
    CloseAllLeaves(h, room, Some(u));
  }

  lemma CancelBreaks(s: Server, event: EventId, club: ClubId, u: User, room: Option<Room>)
    requires AccessInv(s) && Possible(s, CancelsAttendance(event, club, u, room)) && CancelsInside(s, event, club, u, room)
    ensures !EventSocketsAllowed(Step(s, CancelsAttendance(event, club, u, room)))
  {
    var s' := Step(s, CancelsAttendance(event, club, u, room));
    var r :| r in RoomsFor(s, event) && Some(r) != room && HoldsSocket(s, r, u);
    var ws :| ws in Active(s.hub, r) && ws in s.hub.userOf && s.hub.userOf[ws] == u;
    if room.Some? { OtherRoomsKept(s.hub, room.value, u, r); }
    assert ws in Active(s'.hub, r) && r in s'.rooms && !CanAccess(s', r, u);
  }

  lemma OtherCancelsKeepRights(s: Server, event: EventId, club: ClubId, u: User, room: Option<Room>)
    requires AccessInv(s) && EventSocketsAllowed(s)
    requires Possible(s, CancelsAttendance(event, club, u, room)) && !CancelsInside(s, event, club, u, room)
    ensures EventSocketsAllowed(Step(s, CancelsAttendance(event, club, u, room)))
  {
    var s' := Step(s, CancelsAttendance(event, club, u, room));
    if room.Some? { CloseOneRoom(s.hub, room.value, Some(u)); }
    assert s'.hub.userOf == s.hub.userOf;
    forall r, ws | r in s'.rooms && ws in Active(s'.hub, r) && ws in s.hub.userOf && CanAccess(s, r, s.hub.userOf[ws])
      ensures CanAccess(s', r, s.hub.userOf[ws])
    {
      CancelKeepsRight(s, event, club, u, room, r, ws);
    }
  }

  lemma CancelKeepsRight(s: Server, event: EventId, club: ClubId, u: User, room: Option<Room>, r: Room, ws: Socket)
    requires AccessInv(s) && Possible(s, CancelsAttendance(event, club, u, room)) && !CancelsInside(s, event, club, u, room)
    requires ws in Active(Step(s, CancelsAttendance(event, club, u, room)).hub, r) && ws in s.hub.userOf
    requires CanAccess(s, r, s.hub.userOf[ws])
    ensures CanAccess(Step(s, CancelsAttendance(event, club, u, room)), r, s.hub.userOf[ws])
  {
    if room.Some? { CloseOneRoom(s.hub, room.value, Some(u)); }
    assert ws in Active(s.hub, r);
    if s.rooms[r].event == Some(event) && s.hub.userOf[ws] == u {
      assert r in RoomsFor(s, event) && HoldsSocket(s, r, u);
    }
  }

  /** A request lets a socket of an event room outlive its right exactly when it demotes an organizer who holds one
      without attending, or cancels the attendance of someone who holds one in a second room of the event. */
  lemma AccessOutlivedExactly(s: Server, q: Request)
    requires AccessInv(s) && EventSocketsAllowed(s) && Possible(s, q)
    ensures EventSocketsAllowed(Step(s, q)) <==> !OutlivesAccess(s, q)
  {
    match q
    case SocketEnds(room, ws) => EndKeepsRights(s, room, ws);
    case RoleChanged(club, u, role) =>
      if OutlivesAccess(s, q) { DemotionBreaks(s, club, u); } else { OtherRolesKeepRights(s, club, u, role); }
    case MemberGone(club, u, dropped, order) => GoneKeepsRights(s, club, u, dropped, order);
    case BanFromRoom(_, _, _, _, _) => ClosingKeepsRights(s, q);
    case RoomDeleted(_, _) => ClosingKeepsRights(s, q);
    case ClubDeleted(club, order) => DeletionKeepsRights(s, club, order);
    case CancelsAttendance(event, club, u, room) =>
      if OutlivesAccess(s, q) { CancelBreaks(s, event, club, u, room); }
      else { OtherCancelsKeepRights(s, event, club, u, room); }
    case _ =>
  }

  ghost predicate AllowedThroughout(s: Server, requests: seq<Request>)
    decreases |requests|
  {
    EventSocketsAllowed(s) && (requests != [] ==> AllowedThroughout(Step(s, requests[0]), requests[1..]))
  }

  ghost predicate NeverOutlives(s: Server, requests: seq<Request>)
    decreases |requests|
  {
    requests != [] ==> !OutlivesAccess(s, requests[0]) && NeverOutlives(Step(s, requests[0]), requests[1..])
  }

  /** All through a run of whole requests the sockets of event rooms belong to people who may use them, exactly
      when no such request is in it. */
  lemma {:induction false} AccessOverRuns(s: Server, requests: seq<Request>)
    requires AccessInv(s) && EventSocketsAllowed(s) && PossibleRun(s, requests)
    ensures AllowedThroughout(s, requests) <==> NeverOutlives(s, requests)
    decreases |requests|
  {
    if requests != [] {
      StepKeepsInv(s, requests[0]);
      AccessOutlivedExactly(s, requests[0]);
      if EventSocketsAllowed(Step(s, requests[0])) {
        AccessOverRuns(Step(s, requests[0]), requests[1..]);
      }
    }
  }
}
