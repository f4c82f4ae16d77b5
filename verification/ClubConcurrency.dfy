/** In-flight requests on one club, interleaved statement by statement under READ COMMITTED.
    Guarded requests and deletion hold the lock on the club row from AwaitLock to their end;
    join requests, approvals and rejections take no lock. */
module ClubConcurrency {
  import opened Common
  import opened ClubModel

  type RequestId = nat

  datatype Job = Mutate(op: Op) | Approval(user: UserId) | Rejection(user: UserId) | Joining(source: Source) | Deletion

  /** The next statement of a request. */
  datatype Phase =
    | CheckOrganizer
    | AwaitLock
    | Recheck
    | ReadTarget
    | Count
    | DeleteRow
    | Commit
    | ReadPending
    | ReadMembership
    | CommitDecision
    | RetryApproval
    | ReadBan
    | ReadOwnMembership
    | ReadOwnRequest
    | CommitJoin
    | Finished(outcome: Outcome)

  /** A request and its local variables: `seen` is the target's role as last read, `sawRow` whether its
      DELETE statement matched a row, `insert` whether an approval will add a membership row or a join request
      a request row. */
  datatype Request = Request(
    actor: UserId, job: Job, phase: Phase, seen: Option<Role>, sawRow: bool, insert: bool)

  /** `club` is the committed state, None once the club is deleted. */
  datatype World = World(club: Option<Tables>, lock: Option<RequestId>, requests: map<RequestId, Request>)

  /** A request may fail at any point; its transaction then rolls back. */
  datatype Action =
    | Arrive(id: RequestId, actor: UserId, job: Job)
    | Advance(id: RequestId, now: int)
    | Abort(id: RequestId)

  function FirstPhase(job: Job): Phase {
    if job == Mutate(Leave) then AwaitLock else if job.Joining? then ReadBan else CheckOrganizer
  }

  function Goto(w: World, id: RequestId, r: Request, phase: Phase): World {
    w.(requests := w.requests[id := r.(phase := phase)])
  }

  /** The request answers and its transaction ends, which frees the lock. */
  function Finish(w: World, id: RequestId, r: Request, outcome: Outcome): World {
    Goto(w, id, r, Finished(outcome)).(lock := if w.lock == Some(id) then None else w.lock)
  }

  function Continue(w: World, id: RequestId, r: Request, verdict: Verdict, phase: Phase): World {
    match verdict
    case Stop(outcome) => Finish(w, id, r, outcome)
    case Proceed => Goto(w, id, r, phase)
  }

  function WritePhase(op: Op): Phase {
    if op.SetRole? then Commit else DeleteRow
  }

  /** One statement of a lock-holding request on the committed tables `t`. */
  function StepMutation(w: World, t: Tables, id: RequestId, r: Request, now: int): World
    requires r.job.Mutate?
  {
    var op := r.job.op;
    var target := Target(r.actor, op);
    match r.phase
    case Recheck => Continue(w, id, r, AfterLock(t, r.actor, op), ReadTarget)
    case ReadTarget =>
      var seen := Lookup(t.members, target);
      Continue(w, id, r.(seen := seen), AfterTarget(t, r.actor, op, seen),
               if NeedsCount(op, seen) then Count else WritePhase(op))
    case Count =>
      Continue(w, id, r, if |Organizers(t)| <= 1 then Stop(LastOrganizer) else Proceed, WritePhase(op))
    case DeleteRow => Goto(w, id, r.(sawRow := target in t.members), Commit)
    case Commit =>
      var (t', outcome) := Write(t, r.actor, op, now, r.sawRow);
      Finish(w.(club := Some(t')), id, r, outcome)
    case _ => w
  }

  function StepDeletion(w: World, t: Tables, id: RequestId, r: Request): World {
    match r.phase
    case Recheck => Continue(w, id, r, if t.owner == r.actor then Proceed else Stop(OwnerOnly), Commit)
    case Commit => Finish(w.(club := None), id, r, Done)
    case _ => w
  }

  /** Approval and rejection re-read nothing before they commit. A membership row references the club row, so an
      approval's insert waits while another request holds the lock; an insert that meets an existing row rolls
      back and the decision is committed alone. */
  function Decision(t: Tables, locked: bool, r: Request, now: int): (Tables, Request)
    requires r.job.Approval? || r.job.Rejection?
  {
    var u := r.job.user;
    match r.phase
    case ReadPending =>
      if !HasPending(t, u) then (t, r.(phase := Finished(JoinRequestNotFound)))
      else (t, r.(phase := if r.job.Approval? then ReadMembership else CommitDecision))
    case ReadMembership => (t, r.(insert := u !in t.members, phase := CommitDecision))
    case CommitDecision =>
      if u !in t.requests then (t, r.(phase := Finished(IntegrityError)))
      else if r.job.Rejection? then (Decide(t, r.actor, u, Rejected, now), r.(phase := Finished(Done)))
      else if r.insert && u in t.members then (t, r.(phase := RetryApproval))
      else if r.insert && locked then (t, r)
      else
        var decided := Decide(t, r.actor, u, Approved, now);
        (if r.insert then AddMember(decided, u) else decided, r.(phase := Finished(Done)))
    case RetryApproval =>
      (if u in t.requests then Decide(t, r.actor, u, Approved, now) else t, r.(phase := Finished(Done)))
    case _ => (t, r)
  }

  /** A join request reads everything before it commits. Inserting its row also waits for the lock on the club
      row, and meeting an existing row means that the user has asked already. */
  function Asking(t: Tables, locked: bool, r: Request, now: int): (Tables, Request)
    requires r.job.Joining?
  {
    var u := r.actor;
    match r.phase
    case ReadBan => (t, r.(phase := if ActiveBan(t, u, now) then Finished(ClubBanned) else ReadOwnMembership))
    case ReadOwnMembership =>
      (t, r.(phase := if u !in t.members then ReadOwnRequest
                      else if r.job.source == Manual then Finished(AlreadyMember) else Finished(IsMember)))
    case ReadOwnRequest =>
      if u !in t.requests then (t, r.(insert := true, phase := CommitJoin))
      else (t, match t.requests[u].status
               case Pending => r.(phase := Finished(AlreadyRequested))
               case Approved => r.(phase := Finished(IsMember))
               case Rejected => r.(insert := false, phase := CommitJoin))
    case CommitJoin =>
      if r.insert && u in t.requests then (t, r.(phase := Finished(AlreadyRequested)))
      else if r.insert && locked then (t, r)
      else if !r.insert && u !in t.requests then (t, r.(phase := Finished(IntegrityError)))
      else (Ask(t, u, r.job.source), r.(phase := Finished(NowPending)))
    case _ => (t, r)
  }

  function Unguarded(t: Tables, locked: bool, r: Request, now: int): (Tables, Request)
    requires !Locking(r.job)
  {
    if r.job.Joining? then Asking(t, locked, r, now) else Decision(t, locked, r, now)
  }

  /** The statement of `id` that comes next. A request waits while another one holds the lock. */
  function Step(w: World, id: RequestId, now: int): World
    requires id in w.requests
  {
    var r := w.requests[id];
    match r.phase
    case Finished(_) => w
    case CheckOrganizer =>
      if w.club.None? || !IsOrganizer(w.club.value, r.actor) then Finish(w, id, r, Forbidden)
      else Goto(w, id, r, if r.job.Mutate? || r.job.Deletion? then AwaitLock else ReadPending)
    case AwaitLock =>
      if w.lock.Some? then w
      else if w.club.None? then Finish(w, id, r, ClubNotFound)
      else Goto(w, id, r, Recheck).(lock := Some(id))
    case _ =>
      if w.club.None? then Finish(w, id, r, ClubNotFound)
      else match r.job
        case Mutate(_) => StepMutation(w, w.club.value, id, r, now)
        case Deletion => StepDeletion(w, w.club.value, id, r)
        case _ =>
          var (t, r') := Unguarded(w.club.value, w.lock.Some?, r, now);
          w.(club := Some(t), requests := w.requests[id := r'])
  }

  function Apply(w: World, a: Action): World {
    match a
    case Arrive(id, actor, job) =>
      if id in w.requests then w
      else w.(requests := w.requests[id := Request(actor, job, FirstPhase(job), None, false, false)])
    case Advance(id, now) => if id in w.requests then Step(w, id, now) else w
    case Abort(id) =>
      if id in w.requests && !w.requests[id].phase.Finished? then Finish(w, id, w.requests[id], Aborted) else w
  }

  function Exec(w: World, actions: seq<Action>): World
    decreases |actions|
  {
    if actions == [] then w
    else Apply(Exec(w, actions[..|actions| - 1]), actions[|actions| - 1])
  }

  function Quiet(t: Tables): World {
    World(Some(t), None, map[])
  }

  // ----- the inductive invariant -----

  predicate Locking(job: Job) {
    job.Mutate? || job.Deletion?
  }

  predicate InLockedPhase(r: Request) {
    r.phase.Recheck? || r.phase.ReadTarget? || r.phase.Count? || r.phase.DeleteRow? || r.phase.Commit?
  }

  /** What the lock holder has read is still true of the committed rows. */
  ghost predicate HolderFacts(t: Tables, r: Request) {
    match r.job
    case Deletion => r.phase.Recheck? || (r.phase.Commit? && t.owner == r.actor)
    case Mutate(op) =>
      var now := Lookup(t.members, Target(r.actor, op));
      (match r.phase
       case Recheck => true
       case ReadTarget => AfterLock(t, r.actor, op) == Proceed
       case Count =>
         && AfterLock(t, r.actor, op) == Proceed
         && AfterTarget(t, r.actor, op, now) == Proceed
         && r.seen == now
         && NeedsCount(op, now)
       case DeleteRow => Guard(t, r.actor, op) == Proceed && !op.SetRole?
       case Commit =>
         && Guard(t, r.actor, op) == Proceed
         && (!op.SetRole? ==> r.sawRow == now.Some?)
       case _ => false)
    case _ => false
  }

  ghost predicate Inv(w: World) {
    && (w.club.None? ==> w.lock.None?)
    && (w.lock.Some? ==>
          && w.lock.value in w.requests
          && InLockedPhase(w.requests[w.lock.value])
          && HolderFacts(w.club.value, w.requests[w.lock.value]))
    && (forall id :: id in w.requests && InLockedPhase(w.requests[id]) ==> w.lock == Some(id))
    && (forall id :: id in w.requests && w.requests[id].phase.AwaitLock? ==> Locking(w.requests[id].job))
  }

  /** How rows change without the lock: join requests made and decided, and plain members added. */
  ghost predicate Unlocked(t: Tables, t': Tables) {
    && t'.owner == t.owner && t'.users == t.users
    && t.members.Keys <= t'.members.Keys
    && (forall u :: u in t.members ==> t'.members[u] == t.members[u])
    && (forall u :: u in t'.members && u !in t.members ==> t'.members[u] == Member)
  }

  /** How they change while someone else holds it: join requests alone. */
  ghost predicate OnlyRequests(t: Tables, t': Tables) {
    t' == t.(requests := t'.requests)
  }

  lemma HolderUndisturbed(t: Tables, t': Tables, r: Request)
    requires OnlyRequests(t, t') && HolderFacts(t, r)
    ensures HolderFacts(t', r)
  {
    assert Organizers(t') == Organizers(t);
  }

  /** A step that changes nothing but request `id`, which is not the lock holder, and rows as far as the lock allows. */
  lemma OthersKeepInv(w: World, w': World, id: RequestId)
    requires Inv(w)
    requires w'.lock == w.lock && w.lock != Some(id)
    requires w'.requests.Keys == w.requests.Keys + {id}
    requires forall i :: i in w.requests && i != id ==> w'.requests[i] == w.requests[i]
    requires !InLockedPhase(w'.requests[id])
    requires w'.requests[id].phase.AwaitLock? ==> Locking(w'.requests[id].job)
    requires w.club.None? ==> w'.club.None?
    requires w.club.Some? ==> w'.club.Some?
    requires w.club.Some? && w.lock.Some? ==> OnlyRequests(w.club.value, w'.club.value)
    ensures Inv(w')
  {
    if w.lock.Some? {
      HolderUndisturbed(w.club.value, w'.club.value, w.requests[w.lock.value]);
    }
  }

  /** A step of the lock holder that keeps the lock and the rows. */
  lemma HolderKeepsInv(w: World, w': World, id: RequestId)
    requires Inv(w) && w.lock == Some(id)
    requires w'.club == w.club && w'.lock == w.lock
    requires id in w'.requests && w'.requests == w.requests[id := w'.requests[id]]
    requires InLockedPhase(w'.requests[id]) && HolderFacts(w.club.value, w'.requests[id])
    ensures Inv(w')
  {
  }

  /** The lock holder ends: any rows may result, since nobody else relies on them. */
  lemma HolderEnds(w: World, club: Option<Tables>, id: RequestId, r: Request, outcome: Outcome)
    requires Inv(w) && w.lock == Some(id)
    ensures Inv(Finish(w.(club := club), id, r, outcome))
  {
  }

  lemma MutationKeepsInv(w: World, id: RequestId, now: int)
    requires Inv(w) && id in w.requests && w.lock == Some(id) && w.requests[id].job.Mutate?
    ensures Inv(Step(w, id, now))
  {
    var r := w.requests[id];
    var t := w.club.value;
    var w' := Step(w, id, now);
    if w'.requests[id].phase.Finished? {
      HolderEnds(w, w'.club, id, r.(seen := w'.requests[id].seen), w'.requests[id].phase.outcome);
    } else {
      HolderKeepsInv(w, w', id);
    }
  }

  lemma DeletionKeepsInv(w: World, id: RequestId, now: int)
    requires Inv(w) && id in w.requests && w.lock == Some(id) && w.requests[id].job.Deletion?
    ensures Inv(Step(w, id, now))
  {
  }

  lemma LockTakenKeepsInv(w: World, id: RequestId)
    requires Inv(w) && w.lock.None? && w.club.Some? && id in w.requests && w.requests[id].phase.AwaitLock?
    ensures Inv(Goto(w, id, w.requests[id], Recheck).(lock := Some(id)))
  {
  }

  /** `id` makes or decides a join request, or is done. */
  ghost predicate Deciding(w: World, id: RequestId) {
    && id in w.requests && w.club.Some? && w.lock != Some(id)
    && !Locking(w.requests[id].job) && !InLockedPhase(w.requests[id])
    && !w.requests[id].phase.AwaitLock? && !w.requests[id].phase.CheckOrganizer?
  }

  ghost predicate StaysUnlocked(r: Request, r': Request) {
    r'.job == r.job && !InLockedPhase(r') && !r'.phase.AwaitLock?
  }

  lemma AskingPhase(t: Tables, locked: bool, r: Request, now: int)
    requires r.job.Joining? && StaysUnlocked(r, r)
    ensures StaysUnlocked(r, Asking(t, locked, r, now).1)
  {
  }

  lemma DecisionPhase(t: Tables, locked: bool, r: Request, now: int)
    requires (r.job.Approval? || r.job.Rejection?) && StaysUnlocked(r, r)
    ensures StaysUnlocked(r, Decision(t, locked, r, now).1)
  {
  }

  lemma OutsiderKeepsInv(w: World, id: RequestId, now: int)
    requires Inv(w) && id in w.requests && w.lock != Some(id)
    ensures Inv(Step(w, id, now))
  {
    var r := w.requests[id];
    var w' := Step(w, id, now);
    if r.phase.AwaitLock? && w.lock.None? && w.club.Some? {
      LockTakenKeepsInv(w, id);
    } else if w' != w {
      if r.phase.AwaitLock? || r.phase.CheckOrganizer? || w.club.None? {
        assert w'.club == w.club;
      } else {
        if r.job.Joining? { AskingPhase(w.club.value, w.lock.Some?, r, now); }
        else { DecisionPhase(w.club.value, w.lock.Some?, r, now); }
      }
      OthersKeepInv(w, w', id);
    }
  }

  lemma ApplyKeepsInv(w: World, a: Action)
    requires Inv(w)
    ensures Inv(Apply(w, a))
  {
    if a.id in w.requests && a.Advance? {
      if w.lock == Some(a.id) {
        if w.requests[a.id].job.Mutate? { MutationKeepsInv(w, a.id, a.now); }
        else { DeletionKeepsInv(w, a.id, a.now); }
      } else {
        OutsiderKeepsInv(w, a.id, a.now);
      }
    } else if a.id in w.requests && a.Abort? && w.lock == Some(a.id) {
      HolderEnds(w, w.club, a.id, w.requests[a.id], Aborted);
    } else if Apply(w, a) != w {
      OthersKeepInv(w, Apply(w, a), a.id);
    }
  }

  lemma {:induction false} ExecKeepsInv(t: Tables, actions: seq<Action>)
    ensures Inv(Exec(Quiet(t), actions))
    decreases |actions|
  {
    if actions != [] {
      ExecKeepsInv(t, actions[..|actions| - 1]);
      ApplyKeepsInv(Exec(Quiet(t), actions[..|actions| - 1]), actions[|actions| - 1]);
    }
  }

  // ----- what every interleaving guarantees -----

  /** The membership or ban row of `u` is removed or altered, or a ban row for `u` appears. */
  ghost predicate Touched(t: Tables, t': Tables, u: UserId) {
    || (u in t.members && Lookup(t'.members, u) != Lookup(t.members, u))
    || Lookup(t'.bans, u) != Lookup(t.bans, u)
  }

  /** Request `id` of `w` commits the guarded change `op` with its next statement. */
  ghost predicate Commits(w: World, id: RequestId, op: Op) {
    id in w.requests && w.requests[id].job == Mutate(op) && w.requests[id].phase == Commit
  }

  /** Request `r` commits its guarded change against rows that pass every check of the service. */
  ghost predicate CommitEffect(t: Tables, t': Tables, r: Request, now: int) {
    && r.job.Mutate? && r.phase == Commit
    && Guard(t, r.actor, r.job.op) == Proceed
    && t' == Write(t, r.actor, r.job.op, now, r.sawRow).0
  }

  /** A request without the lock changes join requests, and an approval may add its user's row. */
  ghost predicate DecisionEffect(t: Tables, t': Tables, r: Request) {
    && !Locking(r.job)
    && Unlocked(t, t') && t'.bans == t.bans
    && (!r.job.Approval? ==> OnlyRequests(t, t'))
    && (r.job.Approval? ==> t'.members.Keys <= t.members.Keys + {r.job.user})
  }

  /** Everything one statement can do to the committed rows. */
  ghost predicate Accounted(w: World, w': World, a: Action) {
    w'.club != w.club ==>
      && a.Advance? && a.id in w.requests && w.club.Some?
      && var r, t := w.requests[a.id], w.club.value;
      if w'.club.None? then r.job.Deletion? && r.actor == t.owner
      else CommitEffect(t, w'.club.value, r, a.now) || DecisionEffect(t, w'.club.value, r)
  }

  lemma ActionIsAccounted(w: World, a: Action)
    requires Inv(w)
    ensures Accounted(w, Apply(w, a), a)
  {
    if a.Advance? && a.id in w.requests && w.club.Some? {
      var r := w.requests[a.id];
      if Locking(r.job) {
        assert InLockedPhase(r) ==> w.lock == Some(a.id);
      } else if !r.phase.CheckOrganizer? && !r.phase.AwaitLock? && !InLockedPhase(r) {
        assert Apply(w, a).club == Step(w, a.id, a.now).club;
      }
    }
  }

  lemma AccountedKeepsOrganizer(w: World, w': World, a: Action)
    requires Accounted(w, w', a) && w.club.Some? && w'.club.Some?
    requires Organizers(w.club.value) != {}
    ensures Organizers(w'.club.value) != {}
  {
    if w'.club != w.club {
      var r := w.requests[a.id];
      if r.job.Mutate? {
        WriteKeepsOrganizer(w.club.value, r.actor, r.job.op, a.now, r.sawRow);
      }
    }
  }

  lemma DeletedStaysDeleted(w: World, a: Action)
    requires w.club.None?
    ensures Apply(w, a).club.None?
  {
  }

  /** A club that has an organizer keeps one until it is deleted, under every interleaving. */
  lemma {:induction false} LastOrganizerKept(t: Tables, actions: seq<Action>)
    requires Organizers(t) != {}
    ensures var w := Exec(Quiet(t), actions);
      w.club.Some? ==> Organizers(w.club.value) != {}
    decreases |actions|
  {
    if actions != [] {
      var before, a := actions[..|actions| - 1], actions[|actions| - 1];
      var w := Exec(Quiet(t), before);
      LastOrganizerKept(t, before);
      ExecKeepsInv(t, before);
      ActionIsAccounted(w, a);
      if w.club.None? {
        DeletedStaysDeleted(w, a);
      } else if Apply(w, a).club.Some? {
        AccountedKeepsOrganizer(w, Apply(w, a), a);
      }
    }
  }

  lemma TouchedByRight(w: World, a: Action, u: UserId)
    requires Inv(w) && w.club.Some? && Apply(w, a).club.Some? && Touched(w.club.value, Apply(w, a).club.value, u)
    ensures a.Advance? && a.id in w.requests && w.requests[a.id].job.Mutate?
    ensures var r := w.requests[a.id]; Target(r.actor, r.job.op) == u && Authorized(w.club.value, r.actor, r.job.op)
  {
    ActionIsAccounted(w, a);
    var r, t := w.requests[a.id], w.club.value;
    if r.job.Mutate? {
      GuardMeansAuthorized(t, r.actor, r.job.op);
      WriteTouchesTarget(t, r.actor, r.job.op, a.now, r.sawRow, u);
    }
  }

  lemma WriteTouchesTarget(t: Tables, actor: UserId, op: Op, now: int, sawRow: bool, u: UserId)
    requires Touched(t, Write(t, actor, op, now, sawRow).0, u)
    ensures u == Target(actor, op)
  {
  }

  /** Whoever alters a membership or ban row has the right to do so in the committed state just before. */
  lemma NoStaleAuthority(t0: Tables, actions: seq<Action>, a: Action, u: UserId)
    requires var w := Exec(Quiet(t0), actions);
      && w.club.Some? && Apply(w, a).club.Some?
      && Touched(w.club.value, Apply(w, a).club.value, u)
    ensures var w := Exec(Quiet(t0), actions);
      && a.Advance? && a.id in w.requests && w.requests[a.id].job.Mutate?
      && var r := w.requests[a.id];
      && Target(r.actor, r.job.op) == u
      && Authorized(w.club.value, r.actor, r.job.op)
  {
    ExecKeepsInv(t0, actions);
    TouchedByRight(Exec(Quiet(t0), actions), a, u);
  }

  /** A user gains a membership row only from an approval of that very user; only the owner deletes the club. */
  lemma GrowthAndDeletion(t0: Tables, actions: seq<Action>, a: Action)
    ensures var w := Exec(Quiet(t0), actions);
      var w' := Apply(w, a);
      && (w.club.Some? && w'.club.None? ==>
            a.id in w.requests && w.requests[a.id].job.Deletion? && w.requests[a.id].actor == w.club.value.owner)
      && (w.club.Some? && w'.club.Some? ==> forall u :: u in w'.club.value.members && u !in w.club.value.members ==>
            && a.id in w.requests && w.requests[a.id].job == Approval(u) && w'.club.value.members[u] == Member)
  {
    ExecKeepsInv(t0, actions);
    ActionIsAccounted(Exec(Quiet(t0), actions), a);
  }

  /** A commit of request `r` is the whole service run at that instant. */
  ghost predicate AtomicCommit(t: Tables, r: Request, op: Op, now: int, t': Tables, outcome: Outcome) {
    (t', outcome) == Serve(t, r.actor, op, now)
  }

  lemma CommitStep(w: World, id: RequestId, op: Op, now: int)
    requires Inv(w) && Commits(w, id, op)
    ensures var w' := Step(w, id, now);
      && w.club.Some? && w'.club.Some? && w'.lock.None?
      && w'.requests[id].phase.Finished?
      && AtomicCommit(w.club.value, w.requests[id], op, now, w'.club.value, w'.requests[id].phase.outcome)
  {
    assert w.lock == Some(id);
    var r := w.requests[id];
    assert HolderFacts(w.club.value, r);
  }

  /** The lock protocol refines the atomic services, in every interleaving. */
  lemma CommitIsAtomic(t0: Tables, actions: seq<Action>, id: RequestId, op: Op, now: int)
    requires Commits(Exec(Quiet(t0), actions), id, op)
    ensures var w := Exec(Quiet(t0), actions);
      var w' := Step(w, id, now);
      && w.club.Some? && w'.club.Some? && w'.requests[id].phase.Finished?
      && AtomicCommit(w.club.value, w.requests[id], op, now, w'.club.value, w'.requests[id].phase.outcome)
  {
    ExecKeepsInv(t0, actions);
    CommitStep(Exec(Quiet(t0), actions), id, op, now);
  }

  // ----- a request that meets nobody else is the atomic service -----

  function Alone(w: World, id: RequestId, now: int, n: nat): World
    requires id in w.requests
    decreases n
  {
    if n == 0 then w else Alone(Step(w, id, now), id, now, n - 1)
  }

  lemma {:induction false} FinishedStays(w: World, id: RequestId, now: int, n: nat)
    requires id in w.requests && w.requests[id].phase.Finished?
    ensures Alone(w, id, now, n) == w
    decreases n
  {
    if n > 0 { FinishedStays(w, id, now, n - 1); }
  }

  /** From `w`, at most `n` further statements of `id` finish the service as `Serve` does on `t`. */
  ghost predicate EndsAsServed(w: World, t: Tables, id: RequestId, actor: UserId, op: Op, now: int, n: nat) {
    && id in w.requests
    && var w' := Alone(w, id, now, n);
    && id in w'.requests
    && w'.club == Some(Serve(t, actor, op, now).0)
    && w'.requests[id].phase == Finished(Serve(t, actor, op, now).1)
    && w'.lock.None?
  }

  ghost predicate Holds(w: World, t: Tables, id: RequestId, actor: UserId, op: Op) {
    && id in w.requests && w.lock == Some(id) && w.club == Some(t)
    && w.requests[id].actor == actor && w.requests[id].job == Mutate(op)
  }

  lemma SoloFinish(w: World, t: Tables, id: RequestId, r: Request, actor: UserId, op: Op, now: int, n: nat)
    requires w.club == Some(t) && w.lock == None && id in w.requests
    requires w.requests[id].phase == Finished(Serve(t, actor, op, now).1) && Serve(t, actor, op, now).0 == t
    ensures EndsAsServed(w, t, id, actor, op, now, n)
  {
    FinishedStays(w, id, now, n);
  }

  lemma SoloCommit(w: World, t: Tables, id: RequestId, actor: UserId, op: Op, now: int, n: nat)
    requires Holds(w, t, id, actor, op) && Guard(t, actor, op) == Proceed && n >= 1
    requires w.requests[id].phase == Commit
    requires !op.SetRole? ==> w.requests[id].sawRow == (Target(actor, op) in t.members)
    ensures EndsAsServed(w, t, id, actor, op, now, n)
  {
    var w' := Step(w, id, now);
    FinishedStays(w', id, now, n - 1);
  }

  lemma SoloWrite(w: World, t: Tables, id: RequestId, actor: UserId, op: Op, now: int, n: nat)
    requires Holds(w, t, id, actor, op) && Guard(t, actor, op) == Proceed && n >= 2
    requires w.requests[id].phase == WritePhase(op)
    ensures EndsAsServed(w, t, id, actor, op, now, n)
  {
    if op.SetRole? { SoloCommit(w, t, id, actor, op, now, n); }
    else { SoloCommit(Step(w, id, now), t, id, actor, op, now, n - 1); }
  }

  lemma SoloCount(w: World, t: Tables, id: RequestId, actor: UserId, op: Op, now: int, n: nat)
    requires Holds(w, t, id, actor, op) && n >= 3 && w.requests[id].phase == Count
    requires AfterLock(t, actor, op) == Proceed
    requires AfterTarget(t, actor, op, Lookup(t.members, Target(actor, op))) == Proceed
    requires NeedsCount(op, Lookup(t.members, Target(actor, op)))
    ensures EndsAsServed(w, t, id, actor, op, now, n)
  {
    var w' := Step(w, id, now);
    if |Organizers(t)| <= 1 { SoloFinish(w', t, id, w.requests[id], actor, op, now, n - 1); }
    else { SoloWrite(w', t, id, actor, op, now, n - 1); }
  }

  lemma SoloRead(w: World, t: Tables, id: RequestId, actor: UserId, op: Op, now: int, n: nat)
    requires Holds(w, t, id, actor, op) && n >= 4 && w.requests[id].phase == ReadTarget
    requires AfterLock(t, actor, op) == Proceed
    ensures EndsAsServed(w, t, id, actor, op, now, n)
  {
    var w' := Step(w, id, now);
    var seen := Lookup(t.members, Target(actor, op));
    if AfterTarget(t, actor, op, seen).Stop? { SoloFinish(w', t, id, w.requests[id], actor, op, now, n - 1); }
    else if NeedsCount(op, seen) { SoloCount(w', t, id, actor, op, now, n - 1); }
    else { SoloWrite(w', t, id, actor, op, now, n - 1); }
  }

  lemma SoloRecheck(w: World, t: Tables, id: RequestId, actor: UserId, op: Op, now: int, n: nat)
    requires Holds(w, t, id, actor, op) && n >= 5 && w.requests[id].phase == Recheck
    ensures EndsAsServed(w, t, id, actor, op, now, n)
  {
    var w' := Step(w, id, now);
    if AfterLock(t, actor, op).Stop? { SoloFinish(w', t, id, w.requests[id], actor, op, now, n - 1); }
    else { SoloRead(w', t, id, actor, op, now, n - 1); }
  }

  /** A guarded request that runs with no other statement in between is the atomic service. */
  lemma SoloMutationIsService(w: World, id: RequestId, actor: UserId, op: Op, now: int)
    requires w.club.Some? && w.lock.None? && id !in w.requests
    ensures EndsAsServed(Apply(w, Arrive(id, actor, Mutate(op))), w.club.value, id, actor, op, now, 7)
  {
    var t := w.club.value;
    var w0 := Apply(w, Arrive(id, actor, Mutate(op)));
    var w1 := Step(w0, id, now);
    if op.Leave? {
      SoloRecheck(w1, t, id, actor, op, now, 6);
    } else if !IsOrganizer(t, actor) {
      SoloFinish(w1, t, id, w0.requests[id], actor, op, now, 6);
    } else {
      var w2 := Step(w1, id, now);
      assert Alone(w1, id, now, 6) == Alone(w2, id, now, 5);
      SoloRecheck(w2, t, id, actor, op, now, 5);
    }
  }

  /** From `w`, at most `n` further statements of `id` leave `club` and answer `outcome`. */
  ghost predicate EndsWith(w: World, id: RequestId, club: Option<Tables>, outcome: Outcome, now: int, n: nat) {
    && id in w.requests
    && var w' := Alone(w, id, now, n);
    w'.club == club && id in w'.requests && w'.requests[id].phase == Finished(outcome) && w'.lock.None?
  }

  lemma EndsHere(w: World, id: RequestId, club: Option<Tables>, outcome: Outcome, now: int, n: nat)
    requires id in w.requests && w.club == club && w.requests[id].phase == Finished(outcome) && w.lock.None?
    ensures EndsWith(w, id, club, outcome, now, n)
  {
    FinishedStays(w, id, now, n);
  }

  /** A decision that runs with no other statement in between is the whole service. */
  lemma SoloDecisionIsService(w: World, id: RequestId, actor: UserId, u: UserId, approve: bool, now: int)
    requires w.club.Some? && w.lock.None? && id !in w.requests
    ensures var t := w.club.value;
      var served := if approve then Approve(t, actor, u, now) else Reject(t, actor, u, now);
      EndsWith(Apply(w, Arrive(id, actor, if approve then Approval(u) else Rejection(u))), id, Some(served.0), served.1, now, 4)
  {
    var t := w.club.value;
    var w0 := Apply(w, Arrive(id, actor, if approve then Approval(u) else Rejection(u)));
    var w1 := Step(w0, id, now);
    if !IsOrganizer(t, actor) {
      EndsHere(w1, id, Some(t), Forbidden, now, 3);
    } else {
      var w2 := Step(w1, id, now);
      if !HasPending(t, u) {
        EndsHere(w2, id, Some(t), JoinRequestNotFound, now, 2);
      } else if approve {
        var w3 := Step(w2, id, now);
        var w4 := Step(w3, id, now);
        EndsHere(w4, id, Some(Approve(t, actor, u, now).0), Done, now, 0);
        assert Alone(w3, id, now, 1) == w4;
        assert Alone(w2, id, now, 2) == w4;
      } else {
        var w3 := Step(w2, id, now);
        EndsHere(w3, id, Some(Reject(t, actor, u, now).0), Done, now, 1);
        assert Alone(w2, id, now, 2) == Alone(w3, id, now, 1);
      }
      assert Alone(w1, id, now, 3) == Alone(w2, id, now, 2);
    }
  }

  lemma SoloJoinIsService(w: World, id: RequestId, u: UserId, source: Source, now: int)
    requires w.club.Some? && w.lock.None? && id !in w.requests
    ensures var served := RequestJoin(w.club.value, u, source, now);
      EndsWith(Apply(w, Arrive(id, u, Joining(source))), id, Some(served.0), served.1, now, 4)
  {
    var t, served := w.club.value, RequestJoin(w.club.value, u, source, now);
    var w0 := Apply(w, Arrive(id, u, Joining(source)));
    var w1 := Step(w0, id, now);
    if ActiveBan(t, u, now) {
      EndsHere(w1, id, Some(t), ClubBanned, now, 3);
    } else {
      var w2 := Step(w1, id, now);
      if u in t.members {
        EndsHere(w2, id, Some(t), served.1, now, 2);
      } else {
        var w3 := Step(w2, id, now);
        if served.1 != NowPending {
          EndsHere(w3, id, Some(t), served.1, now, 1);
        } else {
          EndsHere(Step(w3, id, now), id, Some(served.0), NowPending, now, 0);
        }
        assert Alone(w2, id, now, 2) == Alone(w3, id, now, 1);
      }
      assert Alone(w1, id, now, 3) == Alone(w2, id, now, 2);
    }
  }

  /** Only an organizer who owns the club deletes it. */
  lemma SoloDeletion(w: World, id: RequestId, actor: UserId, now: int)
    requires w.club.Some? && w.lock.None? && id !in w.requests
    ensures var t := w.club.value;
      var answer := if !IsOrganizer(t, actor) then Forbidden else if actor != t.owner then OwnerOnly else Done;
      EndsWith(Apply(w, Arrive(id, actor, Deletion)), id, if answer == Done then None else Some(t), answer, now, 4)
  {
    var t := w.club.value;
    var w0 := Apply(w, Arrive(id, actor, Deletion));
    var w1 := Step(w0, id, now);
    if !IsOrganizer(t, actor) {
      EndsHere(w1, id, Some(t), Forbidden, now, 3);
    } else {
      var w2 := Step(w1, id, now);
      var w3 := Step(w2, id, now);
      if actor != t.owner {
        EndsHere(w3, id, Some(t), OwnerOnly, now, 1);
      } else {
        EndsHere(Step(w3, id, now), id, None, Done, now, 0);
      }
      assert Alone(w2, id, now, 2) == Alone(w3, id, now, 1);
      assert Alone(w1, id, now, 3) == Alone(w2, id, now, 2);
    }
  }

  // ----- where interleaving matters -----

  /** The statement of `r` rejects someone who is a member by then. */
  ghost predicate RejectsMember(t: Tables, r: Request) {
    && r.job.Rejection? && r.phase == CommitDecision
    && r.job.user in t.requests && r.job.user in t.members
  }

  /** The statement of `r` makes the request of someone pending who is a member by then. */
  ghost predicate AsksForMember(t: Tables, locked: bool, r: Request) {
    && r.job.Joining? && r.phase == CommitJoin && r.actor in t.members
    && (if r.insert then r.actor !in t.requests && !locked else r.actor in t.requests)
  }

  ghost predicate BreaksAgreement(w: World, a: Action) {
    && a.Advance? && a.id in w.requests && w.club.Some?
    && (RejectsMember(w.club.value, w.requests[a.id]) || AsksForMember(w.club.value, w.lock.Some?, w.requests[a.id]))
  }

  ghost predicate RowsAgree(w: World) {
    w.club.Some? ==> Consistent(w.club.value)
  }

  lemma WriteAgrees(t: Tables, actor: UserId, op: Op, now: int)
    requires Consistent(t)
    ensures Consistent(Serve(t, actor, op, now).0)
  {
    if Guard(t, actor, op) == Proceed { WriteKeepsConsistent(t, actor, op, now); }
  }

  /** What a commit does to the agreement of the rows: a decision breaks it exactly when it rejects a member. */
  lemma DecideAgrees(t: Tables, actor: UserId, u: UserId, now: int)
    requires Consistent(t) && u in t.requests
    ensures Consistent(Decide(t, actor, u, Rejected, now)) <==> u !in t.members
    ensures Consistent(Decide(t, actor, u, Approved, now))
    ensures Consistent(AddMember(Decide(t, actor, u, Approved, now), u))
  {
    var t' := Decide(t, actor, u, Rejected, now);
    if u in t.members {
      assert u in t'.requests && t'.requests[u].status != Approved && u in t'.members;
    }
  }

  lemma AskAgrees(t: Tables, u: UserId, source: Source)
    requires Consistent(t)
    ensures Consistent(Ask(t, u, source)) <==> u !in t.members
  {
    var t' := Ask(t, u, source);
    assert u in t'.requests && t'.requests[u].status == Pending;
  }

  lemma UnguardedAgrees(t: Tables, locked: bool, r: Request, now: int)
    requires Consistent(t) && !Locking(r.job)
    ensures Consistent(Unguarded(t, locked, r, now).0) <==> !RejectsMember(t, r) && !AsksForMember(t, locked, r)
  {
    if r.job.Joining? {
      AskAgrees(t, r.actor, r.job.source);
    } else if r.job.user in t.requests {
      DecideAgrees(t, r.actor, r.job.user, now);
    }
  }

  /** One statement breaks the agreement of the rows exactly when it rejects a member or makes the request of a
      member pending. */
  lemma AgreementBreaksExactly(w: World, a: Action)
    requires Inv(w) && RowsAgree(w)
    ensures RowsAgree(Apply(w, a)) <==> !BreaksAgreement(w, a)
  {
    if a.Advance? && a.id in w.requests && w.club.Some? {
      var r, t := w.requests[a.id], w.club.value;
      if !Locking(r.job) {
        UnguardedAgrees(t, w.lock.Some?, r, a.now);
      } else if r.job.Mutate? && Apply(w, a).club != w.club {
        ActionIsAccounted(w, a);
        CommitStep(w, a.id, r.job.op, a.now);
        WriteAgrees(t, r.actor, r.job.op, a.now);
      }
    }
  }

  /** The rows agree after every one of the actions. */
  ghost predicate AgreesThroughout(t: Tables, actions: seq<Action>)
    decreases |actions|
  {
    RowsAgree(Exec(Quiet(t), actions)) && (actions != [] ==> AgreesThroughout(t, actions[..|actions| - 1]))
  }

  ghost predicate NeverBreaks(t: Tables, actions: seq<Action>)
    decreases |actions|
  {
    actions != [] ==>
      var n := |actions| - 1;
      NeverBreaks(t, actions[..n]) && !BreaksAgreement(Exec(Quiet(t), actions[..n]), actions[n])
  }

  /** The rows agree all through an interleaving exactly when no statement in it rejects a member or makes a
      member's request pending. */
  lemma {:induction false} AgreementOverRuns(t: Tables, actions: seq<Action>)
    requires Consistent(t)
    ensures AgreesThroughout(t, actions) <==> NeverBreaks(t, actions)
    decreases |actions|
  {
    if actions != [] {
      var n := |actions| - 1;
      var w := Exec(Quiet(t), actions[..n]);
      AgreementOverRuns(t, actions[..n]);
      ExecKeepsInv(t, actions[..n]);
      if RowsAgree(w) {
        AgreementBreaksExactly(w, actions[n]);
      }
    }
  }

  /** The member is in, yet the request reads rejected. */
  ghost predicate Disagree(t: Tables, u: UserId) {
    u in t.members && u in t.requests && t.requests[u].status == Rejected
  }

  /** An approval and a rejection of one pending request can both commit, each having read it pending. So
      `Consistent` is kept by whole requests but not by interleaved decisions. */
  lemma RacingDecisionsDisagree(t: Tables, organizer: UserId, u: UserId, now: int)
    returns (actions: seq<Action>)
    requires Consistent(t) && IsOrganizer(t, organizer) && HasPending(t, u)
    ensures var w := Exec(Quiet(t), actions);
      w.club.Some? && Disagree(w.club.value, u) && !Consistent(w.club.value)
  {
    var w1 := RaceReads(t, organizer, u, now);
    actions := RaceActions(organizer, u, now);
    var (w2, w3) := (Step(w1, 0, now), Step(Step(w1, 0, now), 1, now));
    assert w2.club == Some(AddMember(Decide(t, organizer, u, Approved, now), u));
    assert w3.club == Some(Decide(w2.club.value, organizer, u, Rejected, now));
  }

  function RaceReadActions(organizer: UserId, u: UserId, now: int): seq<Action> {
    [Arrive(0, organizer, Approval(u)), Arrive(1, organizer, Rejection(u)), Advance(1, now), Advance(1, now),
     Advance(0, now), Advance(0, now), Advance(0, now)]
  }

  function RaceActions(organizer: UserId, u: UserId, now: int): seq<Action> {
    RaceReadActions(organizer, u, now) + [Advance(0, now)] + [Advance(1, now)]
  }

  function ApprovalAt(organizer: UserId, u: UserId, n: nat): Request {
    Request(organizer, Approval(u),
      if n <= 4 then CheckOrganizer else if n == 5 then ReadPending else if n == 6 then ReadMembership else CommitDecision,
      None, false, n >= 7)
  }

  function RejectionAt(organizer: UserId, u: UserId, n: nat): Request {
    Request(organizer, Rejection(u),
      if n <= 2 then CheckOrganizer else if n == 3 then ReadPending else CommitDecision, None, false, false)
  }

  /** The world after the first `n` actions of the race. */
  function RaceWorld(t: Tables, organizer: UserId, u: UserId, n: nat): World {
    var first, second := ApprovalAt(organizer, u, n), RejectionAt(organizer, u, n);
    World(Some(t), None, if n == 0 then map[] else if n == 1 then map[0 := first] else map[0 := first, 1 := second])
  }

  lemma RaceArrives(t: Tables, organizer: UserId, u: UserId, now: int, n: nat)
    requires n < 2
    ensures Apply(RaceWorld(t, organizer, u, n), RaceReadActions(organizer, u, now)[n]) == RaceWorld(t, organizer, u, n + 1)
  {
  }

  lemma RaceAdvances(t: Tables, organizer: UserId, u: UserId, now: int, n: nat)
    requires Consistent(t) && IsOrganizer(t, organizer) && HasPending(t, u) && 2 <= n < 7
    ensures Step(RaceWorld(t, organizer, u, n), if n < 4 then 1 else 0, now) == RaceWorld(t, organizer, u, n + 1)
  {
    var id := if n < 4 then 1 else 0;
    var w, w' := RaceWorld(t, organizer, u, n), RaceWorld(t, organizer, u, n + 1);
    assert u !in t.members;
    assert w.requests[id := w'.requests[id]] == w'.requests;
  }

  lemma RaceStep(t: Tables, organizer: UserId, u: UserId, now: int, n: nat)
    requires Consistent(t) && IsOrganizer(t, organizer) && HasPending(t, u) && n < 7
    ensures Apply(RaceWorld(t, organizer, u, n), RaceReadActions(organizer, u, now)[n]) == RaceWorld(t, organizer, u, n + 1)
  {
    if n < 2 {
      RaceArrives(t, organizer, u, now, n);
    } else {
      RaceAdvances(t, organizer, u, now, n);
      assert RaceReadActions(organizer, u, now)[n] == Advance(if n < 4 then 1 else 0, now);
    }
  }

  lemma RaceReads(t: Tables, organizer: UserId, u: UserId, now: int) returns (w: World)
    requires Consistent(t) && IsOrganizer(t, organizer) && HasPending(t, u)
    ensures w == Exec(Quiet(t), RaceReadActions(organizer, u, now))
    ensures w == RaceWorld(t, organizer, u, 7)
  {
    var all := RaceReadActions(organizer, u, now);
    w := Quiet(t);
    for n := 0 to |all|
      invariant w == Exec(Quiet(t), all[..n]) && w == RaceWorld(t, organizer, u, n)
    {
      RaceStep(t, organizer, u, now, n);
      assert all[..n] + [all[n]] == all[..n + 1];
      w := Apply(w, all[n]);
    }
    assert all[..|all|] == all;
  }

  // ----- requests that meet another one, fail, or come too late -----

  /** An approval whose insert meets a membership row that came meanwhile still decides the request: its next two
      statements approve it and change no membership. */
  lemma ApprovalSurvivesRace(w: World, id: RequestId, now: int, later: int)
    requires w.club.Some? && id in w.requests
    requires var r, t := w.requests[id], w.club.value;
      r.job.Approval? && r.phase == CommitDecision && r.insert && r.job.user in t.members && r.job.user in t.requests
    ensures var w' := Apply(Apply(w, Advance(id, now)), Advance(id, later));
      var u, t := w.requests[id].job.user, w.club.value;
      && id in w'.requests && w'.requests[id].phase == Finished(Done) && w'.lock == w.lock
      && w'.club.Some? && w'.club.value == t.(requests := w'.club.value.requests)
      && u in w'.club.value.requests
      && w'.club.value.requests[u].status == Approved
      && w'.club.value.requests[u].source == t.requests[u].source
      && w'.club.value.requests[u].decidedBy == Some(w.requests[id].actor)
      && (forall v :: v != u ==> Lookup(w'.club.value.requests, v) == Lookup(t.requests, v))
  {
    var w1 := Apply(w, Advance(id, now));
    assert w1.requests[id].phase == RetryApproval && w1.club == w.club;
  }

  /** A request that fails leaves no trace but its end, and frees the lock if it held it. */
  lemma AbortRollsBack(w: World, id: RequestId)
    requires id in w.requests && !w.requests[id].phase.Finished?
    ensures var w' := Apply(w, Abort(id));
      && w'.club == w.club
      && w'.lock == (if w.lock == Some(id) then None else w.lock)
      && w'.requests.Keys == w.requests.Keys && w'.requests[id].phase == Finished(Aborted)
      && (forall other :: other in w.requests && other != id ==> w'.requests[other] == w.requests[other])
  {
  }

  /** A request whose club is gone ends at its next statement, refused. */
  lemma DeletedClubEnds(w: World, id: RequestId, now: int)
    requires Inv(w) && w.club.None? && id in w.requests && !w.requests[id].phase.Finished?
    ensures var w' := Apply(w, Advance(id, now));
      && w'.club.None? && id in w'.requests
      && w'.requests[id].phase == Finished(if w.requests[id].phase == CheckOrganizer then Forbidden else ClubNotFound)
  {
  }
}
