/** Club membership: the tables of one club, and each service of
    app/services/club_service.py as a function on those tables. */
module ClubModel {
  import opened Common

  type UserId = nat
  type EventId = nat

  datatype Role = Member | Organizer
  datatype Status = Pending | Approved | Rejected
  datatype Source = Manual | FromEvent
  datatype JoinRequest = JoinRequest(status: Status, source: Source, decidedBy: Option<UserId>, decidedAt: Option<int>)
  datatype Duration = OneDay | ThreeDays | FiveDays | Permanent
  datatype Ban = Ban(bannedBy: UserId, duration: Duration, expiresAt: Option<int>)

  /** The committed rows that concern one club. `events` maps the club's events to their dates. */
  datatype Tables = Tables(
    owner: UserId,
    users: set<UserId>,
    members: map<UserId, Role>,
    requests: map<UserId, JoinRequest>,
    bans: map<UserId, Ban>,
    events: map<EventId, int>,
    attendance: set<(EventId, UserId)>)

  datatype Outcome =
    | Done
    | Unchanged
    | NowPending
    | AlreadyRequested
    | IsMember
    | ClubNotFound
    | Forbidden
    | OwnerCannotLeave
    | NotAMember
    | LastOrganizer
    | MemberNotFound
    | CannotRemoveOwner
    | CannotDemoteOwner
    | OwnerOnly
    | UserNotFound
    | CannotBanSelf
    | IntegrityError
    | Aborted
    | ClubBanned
    | AlreadyMember
    | JoinRequestNotFound
    | BanNotFound

  /** The membership changes that run under the lock on the club row. */
  datatype Op =
    | Leave
    | Remove(user: UserId)
    | BanUser(user: UserId, duration: Duration)
    | SetRole(user: UserId, role: Role)

  function Target(actor: UserId, op: Op): UserId {
    if op.Leave? then actor else op.user
  }

  const DAY: int := 86_400

  function Expiry(d: Duration, now: int): Option<int> {
    match d
    case OneDay => Some(now + DAY)
    case ThreeDays => Some(now + 3 * DAY)
    case FiveDays => Some(now + 5 * DAY)
    case Permanent => None
  }

  // ----- what a guarded service checks, read by read -----

  predicate IsOrganizer(t: Tables, u: UserId) {
    u in t.members && t.members[u] == Organizer
  }

  function Organizers(t: Tables): set<UserId> {
    set u | u in t.members && t.members[u] == Organizer
  }

  datatype Verdict = Proceed | Stop(outcome: Outcome)

  /** The checks made right after the lock is taken. */
  function AfterLock(t: Tables, actor: UserId, op: Op): Verdict {
    if op.Leave? then
      if t.owner == actor then Stop(OwnerCannotLeave) else Proceed
    else
      if IsOrganizer(t, actor) then Proceed else Stop(Forbidden)
  }

  /** The checks made on the target's freshly read row `seen`. */
  function AfterTarget(t: Tables, actor: UserId, op: Op, seen: Option<Role>): Verdict {
    match op
    case Leave =>
      if seen.None? then Stop(NotAMember) else Proceed
    case Remove(user) =>
      if seen.None? then Stop(MemberNotFound)
      else if t.owner == user then Stop(CannotRemoveOwner)
      else if seen == Some(Organizer) && user != actor && t.owner != actor then Stop(OwnerOnly)
      else Proceed
    case BanUser(user, _) =>
      if user !in t.users then Stop(UserNotFound)
      else if t.owner == user then Stop(CannotRemoveOwner)
      else if user == actor then Stop(CannotBanSelf)
      else if seen == Some(Organizer) && t.owner != actor then Stop(OwnerOnly)
      else Proceed
    case SetRole(user, role) =>
      if seen.None? then Stop(MemberNotFound)
      else if seen == Some(role) then Stop(Unchanged)
      else if role == Member && t.owner == user then Stop(CannotDemoteOwner)
      else if role == Member && user != actor && t.owner != actor then Stop(OwnerOnly)
      else Proceed
  }

  /** Whether the organizers are counted before the change. */
  predicate NeedsCount(op: Op, seen: Option<Role>) {
    if op.SetRole? then op.role == Member else seen == Some(Organizer)
  }

  /** All the checks of a guarded service, made against one state of the tables. */
  function Guard(t: Tables, actor: UserId, op: Op): Verdict {
    var seen := Lookup(t.members, Target(actor, op));
    if AfterLock(t, actor, op).Stop? then AfterLock(t, actor, op)
    else if AfterTarget(t, actor, op, seen).Stop? then AfterTarget(t, actor, op, seen)
    else if NeedsCount(op, seen) && |Organizers(t)| <= 1 then Stop(LastOrganizer)
    else Proceed
  }

  // ----- what a guarded service writes -----

  /** The membership row and the user's attendance of future club events go; past attendance stays. */
  function RemoveMember(t: Tables, u: UserId, now: int): Tables {
    t.(members := t.members - {u},
       attendance := set a | a in t.attendance && !(a.1 == u && a.0 in t.events && t.events[a.0] > now))
  }

  /** The commit of a guarded change. `sawRow` says whether the DELETE statement saw a membership row.
      A second ban row for one user violates the unique key, and then nothing is committed. */
  function Write(t: Tables, actor: UserId, op: Op, now: int, sawRow: bool): (Tables, Outcome) {
    match op
    case Leave => (RemoveMember(t, actor, now), Done)
    case Remove(user) => (RemoveMember(t, user, now), Done)
    case BanUser(user, duration) =>
      if user in t.bans then (t, IntegrityError)
      else
        var gone := RemoveMember(t, user, now);
        var kept := if sawRow then gone else gone.(members := t.members);
        (kept.(bans := t.bans[user := Ban(actor, duration, Expiry(duration, now))]), Done)
    case SetRole(user, role) => (t.(members := t.members[user := role]), Done)
  }

  /** A guarded service run as one atomic step. */
  function Serve(t: Tables, actor: UserId, op: Op, now: int): (Tables, Outcome) {
    match Guard(t, actor, op)
    case Stop(outcome) => (t, outcome)
    case Proceed => Write(t, actor, op, now, Target(actor, op) in t.members)
  }

  // ----- join requests and unban: no lock -----

  predicate ActiveBan(t: Tables, u: UserId, now: int) {
    u in t.bans && (t.bans[u].expiresAt.None? || t.bans[u].expiresAt.value > now)
  }

  /** The user's request becomes pending, in a new row or in the old one. */
  function Ask(t: Tables, u: UserId, source: Source): Tables {
    t.(requests := t.requests[u := JoinRequest(Pending, source, None, None)])
  }

  function RequestJoin(t: Tables, u: UserId, source: Source, now: int): (Tables, Outcome) {
    var asked := Ask(t, u, source);
    if ActiveBan(t, u, now) then (t, ClubBanned)
    else if u in t.members then (t, if source == Manual then AlreadyMember else IsMember)
    else if u !in t.requests then (asked, NowPending)
    else match t.requests[u].status
      case Pending => (t, AlreadyRequested)
      case Approved => (t, IsMember)
      case Rejected => (asked, NowPending)
  }

  predicate HasPending(t: Tables, u: UserId) {
    u in t.requests && t.requests[u].status == Pending
  }

  function Decide(t: Tables, actor: UserId, u: UserId, status: Status, now: int): Tables
    requires u in t.requests
  {
    t.(requests := t.requests[u := t.requests[u].(status := status, decidedBy := Some(actor), decidedAt := Some(now))])
  }

  /** Inserts a plain membership row unless the user already has a row. */
  function AddMember(t: Tables, u: UserId): Tables {
    if u in t.members then t else t.(members := t.members[u := Member])
  }

  function Approve(t: Tables, actor: UserId, u: UserId, now: int): (Tables, Outcome) {
    if !IsOrganizer(t, actor) then (t, Forbidden)
    else if !HasPending(t, u) then (t, JoinRequestNotFound)
    else (AddMember(Decide(t, actor, u, Approved, now), u), Done)
  }

  function Reject(t: Tables, actor: UserId, u: UserId, now: int): (Tables, Outcome) {
    if !IsOrganizer(t, actor) then (t, Forbidden)
    else if !HasPending(t, u) then (t, JoinRequestNotFound)
    else (Decide(t, actor, u, Rejected, now), Done)
  }

  function Unban(t: Tables, actor: UserId, u: UserId): (Tables, Outcome) {
    if !IsOrganizer(t, actor) then (t, Forbidden)
    else if u !in t.bans then (t, BanNotFound)
    else (t.(bans := t.bans - {u}), Done)
  }

  /** The rows a club has right after it is created. */
  function Created(owner: UserId, users: set<UserId>): Tables {
    Tables(owner, users, map[owner := Organizer], map[], map[], map[], {})
  }

  // ----- properties of one guarded change -----

  /** May `actor` make this change, judged on the rows of `t` alone? */
  ghost predicate Authorized(t: Tables, actor: UserId, op: Op) {
    || (op.Leave? && actor != t.owner)
    || (!op.Leave?
        && IsOrganizer(t, actor)
        && (op == SetRole(op.user, Organizer) || op.user != t.owner)
        && (IsOrganizer(t, op.user) && op.user != actor && op != SetRole(op.user, Organizer) ==> t.owner == actor))
  }

  lemma GuardMeansAuthorized(t: Tables, actor: UserId, op: Op)
    requires Guard(t, actor, op) == Proceed
    ensures Authorized(t, actor, op)
  {
  }

  /** A change that passes its guard leaves an organizer, whether or not the owner has a membership row. */
  lemma WriteKeepsOrganizer(t: Tables, actor: UserId, op: Op, now: int, sawRow: bool)
    requires Guard(t, actor, op) == Proceed
    requires Organizers(t) != {}
    ensures Organizers(Write(t, actor, op, now, sawRow).0) != {}
  {
    var t' := Write(t, actor, op, now, sawRow).0;
    var target := Target(actor, op);
    assert Organizers(t) - {target} <= Organizers(t');
    if IsOrganizer(t, target) && !IsOrganizer(t', target) {
      assert |Organizers(t)| >= 2;
      assert |Organizers(t) - {target}| == |Organizers(t)| - 1;
      var u :| u in Organizers(t) - {target};
      assert u in Organizers(t');
    } else {
      var u :| u in Organizers(t);
      assert u in Organizers(t');
    }
  }

  // ----- one request at a time -----

  /** What holds of the tables when requests run one at a time. */
  ghost predicate Consistent(t: Tables) {
    && IsOrganizer(t, t.owner)
    && (forall u :: u in t.members && u != t.owner ==> u in t.requests && t.requests[u].status == Approved)
    && (forall u :: u in t.requests && t.requests[u].status != Approved ==> u !in t.members)
    && (forall u :: u in t.requests ==>
          && (t.requests[u].status == Pending <==> t.requests[u].decidedBy.None?)
          && (t.requests[u].status == Pending <==> t.requests[u].decidedAt.None?))
  }

  datatype Call =
    | Guarded(actor: UserId, op: Op)
    | Join(user: UserId, source: Source)
    | Accept(actor: UserId, user: UserId)
    | Refuse(actor: UserId, user: UserId)
    | LiftBan(actor: UserId, user: UserId)

  function Perform(t: Tables, call: Call, now: int): (Tables, Outcome) {
    match call
    case Guarded(actor, op) => Serve(t, actor, op, now)
    case Join(user, source) => RequestJoin(t, user, source, now)
    case Accept(actor, user) => Approve(t, actor, user, now)
    case Refuse(actor, user) => Reject(t, actor, user, now)
    case LiftBan(actor, user) => Unban(t, actor, user)
  }

  function PerformAll(t: Tables, calls: seq<(Call, int)>): Tables
    decreases |calls|
  {
    if calls == [] then t else PerformAll(Perform(t, calls[0].0, calls[0].1).0, calls[1..])
  }

  lemma WriteKeepsConsistent(t: Tables, actor: UserId, op: Op, now: int)
    requires Consistent(t) && Guard(t, actor, op) == Proceed
    ensures Consistent(Serve(t, actor, op, now).0)
  {
  }

  lemma CallKeepsConsistent(t: Tables, call: Call, now: int)
    requires Consistent(t)
    ensures Consistent(Perform(t, call, now).0)
  {
    match call
    case Guarded(actor, op) =>
      if Guard(t, actor, op) == Proceed { WriteKeepsConsistent(t, actor, op, now); }
    case _ =>
  }

  /** In every state reached from a new club by whole requests, the membership and request rows agree. */
  lemma {:induction false} SequentialRunsAreConsistent(t: Tables, calls: seq<(Call, int)>)
    requires Consistent(t)
    ensures Consistent(PerformAll(t, calls))
    decreases |calls|
  {
    if calls != [] {
      CallKeepsConsistent(t, calls[0].0, calls[0].1);
      SequentialRunsAreConsistent(Perform(t, calls[0].0, calls[0].1).0, calls[1..]);
    }
  }

  lemma NewClubRunsAreConsistent(owner: UserId, users: set<UserId>, calls: seq<(Call, int)>)
    ensures Consistent(PerformAll(Created(owner, users), calls))
  {
    SequentialRunsAreConsistent(Created(owner, users), calls);
  }

  // ----- who is told "member" -----

  predicate IsApproved(t: Tables, u: UserId) {
    u in t.requests && t.requests[u].status == Approved
  }

  /** `u` has a membership row at the start of the run or after some call of it. */
  ghost predicate EverMember(t: Tables, calls: seq<(Call, int)>, u: UserId)
    decreases |calls|
  {
    u in t.members || (calls != [] && EverMember(Perform(t, calls[0].0, calls[0].1).0, calls[1..], u))
  }

  /** A request is approved for good, and at the very call that adds the user's row. */
  lemma ApprovedWithRow(t: Tables, call: Call, now: int, u: UserId)
    requires Consistent(t) && u != t.owner
    ensures var t' := Perform(t, call, now).0;
      && t'.owner == t.owner
      && (IsApproved(t, u) ==> IsApproved(t', u))
      && (IsApproved(t', u) && !IsApproved(t, u) ==> u in t'.members)
  {
  }

  lemma {:induction false} ApprovedOnceMember(t: Tables, calls: seq<(Call, int)>, u: UserId)
    requires Consistent(t) && u != t.owner
    ensures IsApproved(PerformAll(t, calls), u) <==> IsApproved(t, u) || EverMember(t, calls, u)
    decreases |calls|
  {
    if calls != [] {
      CallKeepsConsistent(t, calls[0].0, calls[0].1);
      ApprovedWithRow(t, calls[0].0, calls[0].1, u);
      ApprovedOnceMember(Perform(t, calls[0].0, calls[0].1).0, calls[1..], u);
    }
  }

  /** The tables' owner never changes. */
  lemma {:induction false} SameOwner(t: Tables, calls: seq<(Call, int)>)
    ensures PerformAll(t, calls).owner == t.owner
    decreases |calls|
  {
    if calls != [] { SameOwner(Perform(t, calls[0].0, calls[0].1).0, calls[1..]); }
  }

  /** Exactly those who were members once, are none now and are not banned are told "member" without getting a
      row: whether they left, were removed, or were banned and unbanned again. */
  lemma ToldMemberWithoutRow(owner: UserId, users: set<UserId>, calls: seq<(Call, int)>, u: UserId, source: Source, now: int)
    ensures var t := PerformAll(Created(owner, users), calls);
      (RequestJoin(t, u, source, now).1 == IsMember && u !in RequestJoin(t, u, source, now).0.members)
        <==> EverMember(Created(owner, users), calls, u) && u !in t.members && !ActiveBan(t, u, now)
  {
    NewClubRunsAreConsistent(owner, users, calls);
    SameOwner(Created(owner, users), calls);
    if u != owner {
      ApprovedOnceMember(Created(owner, users), calls, u);
    }
  }
}
