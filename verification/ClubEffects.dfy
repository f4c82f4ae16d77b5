/** What each club service answers and changes, said of the rows alone. */
module ClubEffects {
  import opened Common
  import opened ClubModel

  /** `u` has an organizer row. */
  ghost predicate Runs(t: Tables, u: UserId) {
    Lookup(t.members, u) == Some(Organizer)
  }

  ghost predicate RunsAlone(t: Tables, u: UserId) {
    Runs(t, u) && forall v :: Runs(t, v) ==> v == u
  }

  lemma AloneIsCounted(t: Tables, u: UserId)
    requires Runs(t, u)
    ensures |Organizers(t)| <= 1 <==> RunsAlone(t, u)
  {
    var all := Organizers(t);
    assert all == {u} + (all - {u});
    assert |all| == 1 + |all - {u}|;
    if all - {u} == {} {
      assert forall v :: Runs(t, v) ==> v in all;
    } else {
      var v :| v in all - {u};
      assert Runs(t, v);
    }
  }

  // ----- who is refused -----

  lemma LeaveAnswers(t: Tables, u: UserId, now: int)
    ensures var answer := Serve(t, u, Leave, now).1;
      && answer in {OwnerCannotLeave, NotAMember, LastOrganizer, Done}
      && (answer == OwnerCannotLeave <==> u == t.owner)
      && (answer == NotAMember <==> u != t.owner && u !in t.members)
      && (answer == LastOrganizer <==> u != t.owner && RunsAlone(t, u))
  {
    if Runs(t, u) { AloneIsCounted(t, u); }
  }

  lemma RemoveAnswers(t: Tables, actor: UserId, u: UserId, now: int)
    ensures var answer := Serve(t, actor, Remove(u), now).1;
      && answer in {Forbidden, MemberNotFound, CannotRemoveOwner, OwnerOnly, LastOrganizer, Done}
      && (answer == Forbidden <==> !Runs(t, actor))
      && (answer == MemberNotFound <==> Runs(t, actor) && u !in t.members)
      && (answer == CannotRemoveOwner <==> Runs(t, actor) && u in t.members && u == t.owner)
      && (answer == OwnerOnly <==> Runs(t, actor) && Runs(t, u) && u != actor && u != t.owner && actor != t.owner)
      && (answer == LastOrganizer <==> u == actor && actor != t.owner && RunsAlone(t, actor))
  {
    if Runs(t, actor) {
      AloneIsCounted(t, actor);
      assert RunsAlone(t, actor) && Runs(t, u) ==> u == actor;
    }
  }

  lemma BanAnswers(t: Tables, actor: UserId, u: UserId, d: Duration, now: int)
    ensures var answer := Serve(t, actor, BanUser(u, d), now).1;
      && answer in {Forbidden, UserNotFound, CannotRemoveOwner, CannotBanSelf, OwnerOnly, IntegrityError, Done}
      && (answer == Forbidden <==> !Runs(t, actor))
      && (answer == UserNotFound <==> Runs(t, actor) && u !in t.users)
      && (answer == CannotRemoveOwner <==> Runs(t, actor) && u in t.users && u == t.owner)
      && (answer == CannotBanSelf <==> Runs(t, actor) && u in t.users && u == actor && u != t.owner)
      && (answer == OwnerOnly <==> Runs(t, actor) && u in t.users && Runs(t, u) && u != actor && u != t.owner && actor != t.owner)
      && (answer == IntegrityError <==>
            Runs(t, actor) && u in t.users && u != t.owner && u != actor && (Runs(t, u) ==> actor == t.owner) && u in t.bans)
  {
    if Runs(t, actor) {
      AloneIsCounted(t, actor);
      assert RunsAlone(t, actor) && Runs(t, u) ==> u == actor;
    }
  }

  lemma RoleAnswers(t: Tables, actor: UserId, u: UserId, role: Role, now: int)
    ensures var answer := Serve(t, actor, SetRole(u, role), now).1;
      && answer in {Forbidden, MemberNotFound, Unchanged, CannotDemoteOwner, OwnerOnly, LastOrganizer, Done}
      && (answer == Forbidden <==> !Runs(t, actor))
      && (answer == MemberNotFound <==> Runs(t, actor) && u !in t.members)
      && (answer == Unchanged <==> Runs(t, actor) && Lookup(t.members, u) == Some(role))
      && (answer == CannotDemoteOwner <==> Runs(t, actor) && role == Member && Runs(t, u) && u == t.owner)
      && (answer == OwnerOnly <==>
            Runs(t, actor) && role == Member && Runs(t, u) && u != t.owner && u != actor && actor != t.owner)
      && (answer == LastOrganizer <==> role == Member && u == actor && actor != t.owner && RunsAlone(t, actor))
  {
    if Runs(t, actor) {
      AloneIsCounted(t, actor);
      assert RunsAlone(t, actor) && Runs(t, u) ==> u == actor;
    }
  }

  // ----- what is written -----

  /** Anything but Done leaves the rows alone. */
  lemma RefusedChangesNothing(t: Tables, actor: UserId, op: Op, now: int)
    ensures Serve(t, actor, op, now).1 != Done ==> Serve(t, actor, op, now).0 == t
  {
  }

  /** `u`'s membership row goes, with the attendance of the club's events still to come; nobody else's does. */
  ghost predicate Gone(t: Tables, t': Tables, u: UserId, now: int) {
    && (forall v :: Lookup(t'.members, v) == if v == u then None else Lookup(t.members, v))
    && (forall e, v :: (e, v) in t'.attendance <==>
          (e, v) in t.attendance && !(v == u && Lookup(t.events, e).Some? && Lookup(t.events, e).value > now))
  }

  lemma LeaveEffect(t: Tables, u: UserId, now: int)
    requires Serve(t, u, Leave, now).1 == Done
    ensures var t' := Serve(t, u, Leave, now).0;
      Gone(t, t', u, now) && t' == t.(members := t'.members, attendance := t'.attendance)
  {
  }

  lemma RemoveEffect(t: Tables, actor: UserId, u: UserId, now: int)
    requires Serve(t, actor, Remove(u), now).1 == Done
    ensures var t' := Serve(t, actor, Remove(u), now).0;
      Gone(t, t', u, now) && t' == t.(members := t'.members, attendance := t'.attendance)
  {
  }

  /** The seconds a ban lasts. */
  function Lasts(d: Duration): Option<int> {
    match d
    case OneDay => Some(86_400)
    case ThreeDays => Some(259_200)
    case FiveDays => Some(432_000)
    case Permanent => None
  }

  /** The banned user is no member, and has a ban row that says who banned for how long. */
  lemma BanEffect(t: Tables, actor: UserId, u: UserId, d: Duration, now: int)
    requires Serve(t, actor, BanUser(u, d), now).1 == Done
    ensures var t' := Serve(t, actor, BanUser(u, d), now).0;
      && Gone(t, t', u, now)
      && (forall v :: v != u ==> Lookup(t'.bans, v) == Lookup(t.bans, v))
      && Lookup(t'.bans, u) == Some(Ban(actor, d, if Lasts(d).Some? then Some(now + Lasts(d).value) else None))
      && t' == t.(members := t'.members, attendance := t'.attendance, bans := t'.bans)
  {
    assert u !in t.members ==> t.members - {u} == t.members;
  }

  /** The banned user is turned away for exactly as long as the ban lasts. */
  lemma BanTurnsAway(t: Tables, actor: UserId, u: UserId, d: Duration, now: int, source: Source, later: int)
    requires Serve(t, actor, BanUser(u, d), now).1 == Done
    ensures RequestJoin(Serve(t, actor, BanUser(u, d), now).0, u, source, later).1 == ClubBanned
      <==> Lasts(d).None? || later < now + Lasts(d).value
  {
    BanEffect(t, actor, u, d, now);
  }

  lemma RoleEffect(t: Tables, actor: UserId, u: UserId, role: Role, now: int)
    requires Serve(t, actor, SetRole(u, role), now).1 == Done
    ensures var t' := Serve(t, actor, SetRole(u, role), now).0;
      && Lookup(t'.members, u) == Some(role)
      && (forall v :: v != u ==> Lookup(t'.members, v) == Lookup(t.members, v))
      && t' == t.(members := t'.members)
  {
  }

  // ----- join requests and bans -----

  /** The user has no ban, or one that is over. */
  ghost predicate Welcome(t: Tables, u: UserId, now: int) {
    u in t.bans ==> t.bans[u].expiresAt.Some? && t.bans[u].expiresAt.value <= now
  }

  lemma JoinAnswers(t: Tables, u: UserId, source: Source, now: int)
    ensures var (t', answer) := RequestJoin(t, u, source, now);
      var status := if u in t.requests then Some(t.requests[u].status) else None;
      && answer in {ClubBanned, AlreadyMember, IsMember, AlreadyRequested, NowPending}
      && (answer == ClubBanned <==> !Welcome(t, u, now))
      && (answer == AlreadyMember <==> Welcome(t, u, now) && u in t.members && source == Manual)
      && (answer == IsMember <==>
            Welcome(t, u, now) && (if u in t.members then source == FromEvent else status == Some(Approved)))
      && (answer == AlreadyRequested <==> Welcome(t, u, now) && u !in t.members && status == Some(Pending))
      && (answer != NowPending ==> t' == t)
  {
  }

  /** A request that becomes pending has no decision, and no other row changes. */
  lemma JoinEffect(t: Tables, u: UserId, source: Source, now: int)
    requires RequestJoin(t, u, source, now).1 == NowPending
    ensures var t' := RequestJoin(t, u, source, now).0;
      && u in t'.requests && t'.requests[u] == JoinRequest(Pending, source, None, None)
      && (forall v :: v != u ==> Lookup(t'.requests, v) == Lookup(t.requests, v))
      && t' == t.(requests := t'.requests)
  {
  }

  /** A decision is an organizer's, on a pending request. */
  lemma DecisionAnswers(t: Tables, actor: UserId, u: UserId, now: int)
    ensures var (approved, yes) := Approve(t, actor, u, now); var (rejected, no) := Reject(t, actor, u, now);
      && yes == no && yes in {Forbidden, JoinRequestNotFound, Done}
      && (yes == Forbidden <==> !Runs(t, actor))
      && (yes == Done <==> Runs(t, actor) && u in t.requests && t.requests[u].status == Pending)
      && (yes != Done ==> approved == t && rejected == t)
  {
  }

  lemma DecisionEffect(t: Tables, actor: UserId, u: UserId, now: int)
    requires Runs(t, actor) && u in t.requests && t.requests[u].status == Pending
    ensures var t' := Approve(t, actor, u, now).0; var source := t.requests[u].source;
      && u in t'.requests && t'.requests[u] == JoinRequest(Approved, source, Some(actor), Some(now))
      && Lookup(t'.members, u) == Some(if u in t.members then t.members[u] else Member)
      && (forall v :: v != u ==> Lookup(t'.requests, v) == Lookup(t.requests, v) && Lookup(t'.members, v) == Lookup(t.members, v))
      && t' == t.(requests := t'.requests, members := t'.members)
    ensures var t' := Reject(t, actor, u, now).0; var source := t.requests[u].source;
      && u in t'.requests && t'.requests[u] == JoinRequest(Rejected, source, Some(actor), Some(now))
      && (forall v :: v != u ==> Lookup(t'.requests, v) == Lookup(t.requests, v))
      && t' == t.(requests := t'.requests)
  {
  }

  /** An organizer lifts a ban that is there, and from then on the user is welcome. */
  lemma UnbanEffect(t: Tables, actor: UserId, u: UserId, later: int)
    ensures var (t', answer) := Unban(t, actor, u);
      && answer in {Forbidden, BanNotFound, Done}
      && (answer == Forbidden <==> !Runs(t, actor))
      && (answer == Done <==> Runs(t, actor) && u in t.bans)
      && (answer != Done ==> t' == t)
      && (answer == Done ==>
            && Welcome(t', u, later)
            && (forall v :: v != u ==> Lookup(t'.bans, v) == Lookup(t.bans, v))
            && t' == t.(bans := t'.bans))
  {
  }
}
