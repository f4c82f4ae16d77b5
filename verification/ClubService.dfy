/** The services of app/services/club_service.py on the rows of one club, each run as one whole request. */
module ClubService {
  import opened Common
  import opened ClubModel

  class ClubDatabase {
    const owner: UserId
    const users: set<UserId>
    var members: map<UserId, Role>
    var requests: map<UserId, JoinRequest>
    var bans: map<UserId, Ban>
    var events: map<EventId, int>
    var attendance: set<(EventId, UserId)>

    ghost function Rows(): Tables
      reads this
    {
      Tables(owner, users, members, requests, bans, events, attendance)
    }

    /** create_club_service: the creator becomes the first organizer. */
    constructor (creator: UserId, users: set<UserId>)
      ensures Rows() == Created(creator, users)
      ensures Consistent(Rows())
    {
      this.owner := creator;
      this.users := users;
      members := map[creator := Organizer];
      requests := map[];
      bans := map[];
      events := map[];
      attendance := {};
    }

    method CountOrganizers() returns (n: nat)
      ensures n == |Organizers(Rows())|
    {
      var organizers := set u | u in members && members[u] == Organizer;
      assert organizers == Organizers(Rows());
      n := |organizers|;
    }

    method RemoveMember(u: UserId, now: int)
      modifies this`members, this`attendance
      ensures Rows() == ClubModel.RemoveMember(old(Rows()), u, now)
      ensures u !in members && forall v :: v != u ==> Lookup(members, v) == Lookup(old(members), v)
      ensures forall e, v :: (e, v) in attendance <==>
        (e, v) in old(attendance) && !(v == u && e in events && events[e] > now)
    {
      members := members - {u};
      attendance := set a | a in attendance && !(a.1 == u && a.0 in events && events[a.0] > now);
    }

    method Leave(user: UserId, now: int) returns (outcome: Outcome)
      modifies this`members, this`attendance
      ensures (Rows(), outcome) == Serve(old(Rows()), user, Op.Leave, now)
      ensures outcome == Done ==> user !in members
      ensures old(Consistent(Rows())) ==> Consistent(Rows())
      ensures old(Organizers(Rows())) != {} ==> Organizers(Rows()) != {}
    {
      ServePromises(Rows(), user, Op.Leave, now);
      if owner == user {
        return OwnerCannotLeave;
      }
      if user !in members {
        return NotAMember;
      }
      if members[user] == Organizer {
        var n := CountOrganizers();
        if n <= 1 {
          return LastOrganizer;
        }
      }
      RemoveMember(user, now);
      return Done;
    }

    method Remove(user: UserId, actor: UserId, now: int) returns (outcome: Outcome)
      modifies this`members, this`attendance
      ensures (Rows(), outcome) == Serve(old(Rows()), actor, Op.Remove(user), now)
      ensures outcome == Done ==> user !in members
      ensures old(Consistent(Rows())) ==> Consistent(Rows())
      ensures old(Organizers(Rows())) != {} ==> Organizers(Rows()) != {}
    {
      ServePromises(Rows(), actor, Op.Remove(user), now);
      if actor !in members || members[actor] != Organizer {
        return Forbidden;
      }
      if user !in members {
        return MemberNotFound;
      }
      if owner == user {
        return CannotRemoveOwner;
      }
      if members[user] == Organizer {
        if user != actor && owner != actor {
          return OwnerOnly;
        }
        var n := CountOrganizers();
        if n <= 1 {
          return LastOrganizer;
        }
      }
      RemoveMember(user, now);
      return Done;
    }

    /** A user with any ban row, even an expired one, cannot be banned again: the insert fails and the whole
        transaction rolls back. */
    method BanMember(user: UserId, duration: Duration, actor: UserId, now: int) returns (outcome: Outcome)
      modifies this`members, this`attendance, this`bans
      ensures (Rows(), outcome) == Serve(old(Rows()), actor, Op.BanUser(user, duration), now)
      ensures old(Consistent(Rows())) ==> Consistent(Rows())
      ensures old(Organizers(Rows())) != {} ==> Organizers(Rows()) != {}
    {
      ServePromises(Rows(), actor, Op.BanUser(user, duration), now);
      if actor !in members || members[actor] != Organizer {
        return Forbidden;
      }
      if user !in users {
        return UserNotFound;
      }
      if owner == user {
        return CannotRemoveOwner;
      }
      if user == actor {
        return CannotBanSelf;
      }
      if user in members && members[user] == Organizer {
        if owner != actor {
          return OwnerOnly;
        }
        var n := CountOrganizers();
        if n <= 1 {
          return LastOrganizer;
        }
      }
      if user in bans {
        return IntegrityError;
      }
      assert user !in members ==> members - {user} == members;
      RemoveMember(user, now);
      bans := bans[user := Ban(actor, duration, Expiry(duration, now))];
      return Done;
    }

    method ChangeRole(user: UserId, role: Role, actor: UserId, now: int) returns (outcome: Outcome)
      modifies this`members
      ensures (Rows(), outcome) == Serve(old(Rows()), actor, SetRole(user, role), now)
      ensures members == if outcome == Done then old(members)[user := role] else old(members)
      ensures old(Consistent(Rows())) ==> Consistent(Rows())
      ensures old(Organizers(Rows())) != {} ==> Organizers(Rows()) != {}
    {
      ServePromises(Rows(), actor, SetRole(user, role), now);
      if actor !in members || members[actor] != Organizer {
        return Forbidden;
      }
      if user !in members {
        return MemberNotFound;
      }
      if members[user] == role {
        return Unchanged;
      }
      if role == Member {
        if owner == user {
          return CannotDemoteOwner;
        }
        if user != actor && owner != actor {
          return OwnerOnly;
        }
        var n := CountOrganizers();
        if n <= 1 {
          return LastOrganizer;
        }
      }
      members := members[user := role];
      return Done;
    }

    method RequestToJoin(user: UserId, source: Source, now: int) returns (outcome: Outcome)
      modifies this`requests
      ensures (Rows(), outcome) == RequestJoin(old(Rows()), user, source, now)
      ensures old(Consistent(Rows())) ==> Consistent(Rows())
    {
      if user in bans && (bans[user].expiresAt.None? || bans[user].expiresAt.value > now) {
        return ClubBanned;
      }
      if user in members {
        return if source == Manual then AlreadyMember else IsMember;
      }
      if user in requests {
        if requests[user].status == Pending {
          return AlreadyRequested;
        }
        if requests[user].status == Approved {
          return IsMember;
        }
      }
      requests := requests[user := JoinRequest(Pending, source, None, None)];
      return NowPending;
    }

    method ApproveRequest(user: UserId, actor: UserId, now: int) returns (outcome: Outcome)
      modifies this`requests, this`members
      ensures (Rows(), outcome) == Approve(old(Rows()), actor, user, now)
      ensures old(Consistent(Rows())) ==> Consistent(Rows())
    {
      if actor !in members || members[actor] != Organizer {
        return Forbidden;
      }
      if user !in requests || requests[user].status != Pending {
        return JoinRequestNotFound;
      }
      requests := requests[user := requests[user].(status := Approved, decidedBy := Some(actor), decidedAt := Some(now))];
      if user !in members {
        members := members[user := Member];
      }
      return Done;
    }

    method RejectRequest(user: UserId, actor: UserId, now: int) returns (outcome: Outcome)
      modifies this`requests
      ensures (Rows(), outcome) == Reject(old(Rows()), actor, user, now)
      ensures old(Consistent(Rows())) ==> Consistent(Rows())
    {
      if actor !in members || members[actor] != Organizer {
        return Forbidden;
      }
      if user !in requests || requests[user].status != Pending {
        return JoinRequestNotFound;
      }
      requests := requests[user := requests[user].(status := Rejected, decidedBy := Some(actor), decidedAt := Some(now))];
      return Done;
    }

    method UnbanUser(user: UserId, actor: UserId) returns (outcome: Outcome)
      modifies this`bans
      ensures (Rows(), outcome) == Unban(old(Rows()), actor, user)
      ensures old(Consistent(Rows())) ==> Consistent(Rows())
    {
      if actor !in members || members[actor] != Organizer {
        return Forbidden;
      }
      if user !in bans {
        return BanNotFound;
      }
      bans := bans - {user};
      return Done;
    }
  }

  lemma ServePromises(t: Tables, actor: UserId, op: Op, now: int)
    ensures Consistent(t) ==> Consistent(Serve(t, actor, op, now).0)
    ensures Organizers(t) != {} ==> Organizers(Serve(t, actor, op, now).0) != {}
  {
    if Guard(t, actor, op) == Proceed {
      if Consistent(t) { WriteKeepsConsistent(t, actor, op, now); }
      if Organizers(t) != {} { WriteKeepsOrganizer(t, actor, op, now, Target(actor, op) in t.members); }
    }
  }

}
