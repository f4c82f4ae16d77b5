/** Voting requests in flight, interleaved statement by statement under READ COMMITTED. The services take no lock,
    so what a request has read may be stale when it commits; only keys and foreign keys are checked then. */
module BookVotingConcurrency {
  import opened Common
  import opened BookVoting

  type RequestId = nat
  type VoteId = nat

  /** The committed rows; vote rows have ids. */
  datatype Db = Db(rounds: map<RoundId, Round>, options: seq<Choice>, rows: map<VoteId, Vote>)

  ghost function Votes(rows: map<VoteId, Vote>): set<Vote> {
    set id | id in rows :: rows[id]
  }

  ghost function Rows(db: Db): Store {
    Store(db.rounds, db.options, Votes(db.rows))
  }

  /** The next statement of a request; `Done(None)` is a failed commit, which changed nothing. */
  datatype Phase =
    | ReadOption | ReadRound | ReadOptions | ReadCounts | CountVotes | ReadVote | Commit
    | Done(answer: Option<Outcome>)

  /** A request and its local variables: the round it found, the options a close has listed and the winner it has
      picked, the user's vote row a vote has found. `voteId` is the id of the row a vote inserts. */
  datatype Request = Request(
    call: Call, voteId: VoteId, phase: Phase, round: RoundId,
    listed: seq<Choice>, winner: Option<OptionId>, existing: Option<VoteId>)

  /** Where an option id comes from: its round, and the request that adds it. */
  datatype Origin = Origin(round: RoundId, adder: RequestId)

  /** What the vote row of an id says. */
  datatype Ballot = Ballot(option: OptionId, user: UserId)

  /** `home` and `ballots` record every option id and vote id handed out so far; ids never repeat. */
  datatype World = World(
    db: Db, requests: map<RequestId, Request>, home: map<OptionId, Origin>, ballots: map<VoteId, Ballot>)

  datatype Action =
    | Arrive(id: RequestId, call: Call, voteId: VoteId)
    | Advance(id: RequestId)
    | Abort(id: RequestId)

  predicate Permitted(c: Call) {
    match c
    case Cast(_, role, _, _) => role.Some?
    case TakeBack(_, role, _, _) => role.Some?
    case _ => c.role == Some(Organizer)
  }

  function NewRequest(call: Call, voteId: VoteId): Request {
    var phase :=
      if !Permitted(call) then Done(Some(Forbidden))
      else match call
        case Create(_, _, _) => Commit
        case Add(_, _, _, _) => ReadRound
        case Close(_, _, _) => ReadRound
        case _ => ReadOption;
    Request(call, voteId, phase, if call.Add? || call.Close? then call.round else 0, [], None, None)
  }

  function End(r: Request, answer: Option<Outcome>): Request {
    r.(phase := Done(answer))
  }

  // ----- one statement -----

  function AfterRound(db: Db, r: Request): Request {
    if r.round !in db.rounds || db.rounds[r.round].club != r.call.club then End(r, Some(RoundNotFound))
    else if r.call.TakeBack? then r.(phase := ReadVote)
    else if r.call.Close? then
      if db.rounds[r.round].open then r.(phase := ReadOptions) else End(r, Some(Answered))
    else if !db.rounds[r.round].open then End(r, Some(RoundClosed))
    else r.(phase := if r.call.Add? then Commit else if r.call.Remove? then CountVotes else ReadVote)
  }

  ghost function UserRows(rows: map<VoteId, Vote>, round: RoundId, u: UserId): set<VoteId> {
    set id | id in rows && rows[id].round == round && rows[id].user == u
  }

  ghost function UserRow(rows: map<VoteId, Vote>, round: RoundId, u: UserId): (r: Option<VoteId>)
    ensures r.Some? ==> r.value in UserRows(rows, round, u)
    ensures r.None? ==> UserRows(rows, round, u) == {}
  {
    if UserRows(rows, round, u) == {} then None
    else
      var id :| id in UserRows(rows, round, u);
      Some(id)
  }

  /** The user's row as read decides whether a vote or its withdrawal has anything to commit. */
  ghost function AfterVote(db: Db, r: Request): Request
    requires r.call.Cast? || r.call.TakeBack?
  {
    var found := UserRow(db.rows, r.round, r.call.user);
    var same := found.Some? && db.rows[found.value].option == r.call.option;
    if same == r.call.Cast? then End(r, Some(Answered)) else r.(existing := found, phase := Commit)
  }

  ghost function Read(db: Db, r: Request): Request {
    match r.phase
    case ReadOption =>
      if !(r.call.Remove? || r.call.Cast? || r.call.TakeBack?) then r
      else (match FindOption(db.options, r.call.option)
            case None => End(r, Some(OptionNotFound))
            case Some(c) => r.(round := c.round, phase := ReadRound))
    case ReadRound => AfterRound(db, r)
    case ReadOptions => r.(listed := OptionsOf(db.options, r.round), phase := ReadCounts)
    case ReadCounts =>
      r.(winner := if r.listed == [] then None else Some(Winner(Votes(db.rows), r.round, r.listed).id), phase := Commit)
    case CountVotes =>
      if r.call.Remove? && exists id :: id in db.rows && db.rows[id].option == r.call.option then End(r, Some(OptionHasVotes))
      else r.(phase := Commit)
    case ReadVote => if r.call.Cast? || r.call.TakeBack? then AfterVote(db, r) else r
    case _ => r
  }

  predicate HasOption(options: seq<Choice>, o: OptionId) {
    exists i :: 0 <= i < |options| && options[i].id == o
  }

  function Without(rows: map<VoteId, Vote>, id: Option<VoteId>): map<VoteId, Vote> {
    if id.Some? then rows - {id.value} else rows
  }

  /** The commit of a vote: the row read goes, if it is still there, and a new one comes. A missing option and a
      second row for the user are refused by the database. */
  function CommitVote(db: Db, r: Request): Option<Db>
    requires r.call.Cast?
  {
    var rest := Without(db.rows, r.existing);
    if r.voteId in rest || !HasOption(db.options, r.call.option)
       || (exists id :: id in rest && rest[id].round == r.round && rest[id].user == r.call.user) then None
    else Some(db.(rows := rest[r.voteId := Vote(r.round, r.call.option, r.call.user)]))
  }

  /** The UPDATE of a close writes the columns that differ from the open round it read: the status, and the winner
      if it has one. */
  function CommitClose(db: Db, r: Request): Option<Db> {
    if r.round !in db.rounds then None
    else
      var row := db.rounds[r.round];
      Some(db.(rounds := db.rounds[r.round := Round(row.club, false, if r.winner.Some? then r.winner else row.winner)]))
  }

  /** The rows after the commit, or None when a key or foreign key refuses it. */
  function Committed(db: Db, r: Request): Option<Db> {
    match r.call
    case Create(club, _, id) =>
      if id in db.rounds then None else Some(db.(rounds := db.rounds[id := Round(club, true, None)]))
    case Add(_, _, round, choice) =>
      if HasOption(db.options, choice.id) || round !in db.rounds then None
      else Some(db.(options := db.options + [choice.(round := round)]))
    case Remove(_, _, o) =>
      if exists id :: id in db.rows && db.rows[id].option == o then None
      else Some(db.(options := DropOption(db.options, o)))
    case Cast(_, _, _, _) => CommitVote(db, r)
    case TakeBack(_, _, _, _) => Some(db.(rows := Without(db.rows, r.existing)))
    case Close(_, _, _) => CommitClose(db, r)
  }

  ghost function Step(w: World, id: RequestId): World
    requires id in w.requests
  {
    var r := w.requests[id];
    if r.phase == Commit then
      match Committed(w.db, r)
      case None => w.(requests := w.requests[id := End(r, None)])
      case Some(db) => w.(db := db, requests := w.requests[id := End(r, Some(Answered))])
    else w.(requests := w.requests[id := Read(w.db, r)])
  }

  ghost function Apply(w: World, a: Action): World {
    match a
    case Arrive(id, call, voteId) =>
      if id in w.requests || (call.Add? && call.choice.id in w.home) || (call.Cast? && voteId in w.ballots) then w
      else w.(requests := w.requests[id := NewRequest(call, voteId)],
              home := if call.Add? then w.home[call.choice.id := Origin(call.round, id)] else w.home,
              ballots := if call.Cast? then w.ballots[voteId := Ballot(call.option, call.user)] else w.ballots)
    case Advance(id) => if id in w.requests then Step(w, id) else w
    case Abort(id) =>
      if id in w.requests && !w.requests[id].phase.Done? then w.(requests := w.requests[id := End(w.requests[id], None)])
      else w
  }

  ghost function Exec(w: World, actions: seq<Action>): World
    decreases |actions|
  {
    if actions == [] then w else Apply(Exec(w, actions[..|actions| - 1]), actions[|actions| - 1])
  }

  const START: World := World(Db(map[], [], map[]), map[], map[], map[])

  // ----- what every interleaving keeps -----

  ghost predicate UniqueVoters(rows: map<VoteId, Vote>) {
    forall i, j :: i in rows && j in rows && rows[i].round == rows[j].round && rows[i].user == rows[j].user ==> i == j
  }

  ghost predicate DbOk(db: Db) {
    RowsOk(Rows(db)) && UniqueVoters(db.rows)
  }

  /** What a request has found out about the option and round it is about stays true. */
  ghost predicate RequestOk(w: World, r: Request) {
    && (r.call.Add? ==> r.round == r.call.round && r.call.choice.id in w.home && w.home[r.call.choice.id].round == r.round)
    && (r.call.Close? ==> r.round == r.call.round)
    && ((r.call.Remove? || r.call.Cast? || r.call.TakeBack?) && !r.phase.ReadOption? && !r.phase.Done? ==>
          r.call.option in w.home && w.home[r.call.option].round == r.round)
  }

  ghost predicate AtHome(w: World) {
    forall c :: c in w.db.options ==> c.id in w.home && w.home[c.id].round == c.round
  }

  ghost predicate WorldOk(w: World) {
    && DbOk(w.db) && AtHome(w)
    && (forall id :: id in w.requests ==> RequestOk(w, w.requests[id]))
  }

  lemma ReadKeepsInv(w: World, id: RequestId)
    requires WorldOk(w) && id in w.requests && w.requests[id].phase != Commit
    ensures WorldOk(Step(w, id))
  {
    var r := w.requests[id];
    if r.phase.ReadOption? && (r.call.Remove? || r.call.Cast? || r.call.TakeBack?) {
      var found := FindOption(w.db.options, r.call.option);
      if found.Some? { assert found.value in w.db.options; }
    }
    assert RequestOk(w, Read(w.db, r));
  }

  lemma HasOptionIs(options: seq<Choice>, o: OptionId)
    ensures HasOption(options, o) <==> exists c :: c in options && c.id == o
  {
    if c :| c in options && c.id == o {
      var i :| 0 <= i < |options| && options[i] == c;
    }
  }

  /** Rows kept from rows that were fine are fine, with the same options and rounds. */
  lemma FewerRows(db: Db, rows: map<VoteId, Vote>)
    requires DbOk(db) && rows.Keys <= db.rows.Keys && forall id :: id in rows ==> rows[id] == db.rows[id]
    ensures DbOk(db.(rows := rows))
  {
    assert Votes(rows) <= Votes(db.rows);
  }

  lemma VotesPlus(rows: map<VoteId, Vote>, id: VoteId, v: Vote)
    requires id !in rows
    ensures Votes(rows[id := v]) == Votes(rows) + {v}
  {
    forall x ensures x in Votes(rows[id := v]) <==> x in Votes(rows) + {v} {
      if x in Votes(rows) {
        var i :| i in rows && rows[i] == x;
        assert rows[id := v][i] == x;
      }
      assert rows[id := v][id] == v;
    }
  }

  lemma OneMoreRow(db: Db, id: VoteId, v: Vote)
    requires DbOk(db) && id !in db.rows && OptionOf(Rows(db), v.option, v.round)
    requires forall i :: i in db.rows ==> !(db.rows[i].round == v.round && db.rows[i].user == v.user)
    ensures DbOk(db.(rows := db.rows[id := v]))
  {
    VotesPlus(db.rows, id, v);
    assert Rows(db.(rows := db.rows[id := v])) == Rows(db).(votes := Votes(db.rows) + {v});
  }

  lemma VoteKeepsDb(w: World, r: Request)
    requires WorldOk(w) && RequestOk(w, r) && r.call.Cast? && r.phase == Commit && CommitVote(w.db, r).Some?
    ensures DbOk(CommitVote(w.db, r).value)
  {
    var rest := Without(w.db.rows, r.existing);
    FewerRows(w.db, rest);
    HasOptionIs(w.db.options, r.call.option);
    var c :| c in w.db.options && c.id == r.call.option;
    assert OptionOf(Rows(w.db.(rows := rest)), c.id, r.round);
    OneMoreRow(w.db.(rows := rest), r.voteId, Vote(r.round, r.call.option, r.call.user));
  }

  lemma AddKeepsDb(db: Db, c: Choice)
    requires DbOk(db) && !HasOption(db.options, c.id) && c.round in db.rounds
    ensures DbOk(db.(options := db.options + [c]))
  {
    var s, s' := Rows(db), Rows(db.(options := db.options + [c]));
    forall o, r | OptionOf(s, o, r) ensures OptionOf(s', o, r) {
      var i :| 0 <= i < |s.options| && s.options[i].id == o && s.options[i].round == r;
      assert s'.options[i] == s.options[i];
    }
  }

  lemma RemoveKeepsDb(db: Db, o: OptionId)
    requires DbOk(db) && forall id :: id in db.rows ==> db.rows[id].option != o
    ensures DbOk(db.(options := DropOption(db.options, o)))
  {
    var s, s' := Rows(db), Rows(db.(options := DropOption(db.options, o)));
    Dropped(db.options, o);
    forall p, r | p != o ensures OptionOf(s', p, r) <==> OptionOf(s, p, r) {
      DroppedOthers(s, o, p, r);
    }
  }

  lemma DroppedOthers(s: Store, o: OptionId, p: OptionId, r: RoundId)
    requires DistinctIds(s.options) && p != o
    ensures OptionOf(s.(options := DropOption(s.options, o)), p, r) <==> OptionOf(s, p, r)
  {
    var s' := s.(options := DropOption(s.options, o));
    Dropped(s.options, o);
    if OptionOf(s, p, r) {
      var i :| 0 <= i < |s.options| && s.options[i].id == p && s.options[i].round == r;
      assert s.options[i] in s'.options;
    }
    if OptionOf(s', p, r) {
      var i :| 0 <= i < |s'.options| && s'.options[i].id == p && s'.options[i].round == r;
      assert s'.options[i] in s.options;
    }
  }

  lemma CommitKeepsDb(w: World, r: Request)
    requires WorldOk(w) && RequestOk(w, r) && r.phase == Commit && Committed(w.db, r).Some?
    ensures DbOk(Committed(w.db, r).value)
  {
    var db' := Committed(w.db, r).value;
    match r.call
    case Add(_, _, round, choice) => AddKeepsDb(w.db, choice.(round := round));
    case Remove(_, _, o) => RemoveKeepsDb(w.db, o);
    case Cast(_, _, _, _) => VoteKeepsDb(w, r);
    case TakeBack(_, _, _, _) => FewerRows(w.db, db'.rows);
    case _ =>
  }

  lemma CommitKeepsHome(w: World, r: Request)
    requires WorldOk(w) && RequestOk(w, r) && Committed(w.db, r).Some?
    ensures forall c :: c in Committed(w.db, r).value.options ==> c.id in w.home && w.home[c.id].round == c.round
  {
    if r.call.Remove? { Dropped(w.db.options, r.call.option); }
  }

  lemma StepKeepsInv(w: World, id: RequestId)
    requires WorldOk(w) && id in w.requests
    ensures WorldOk(Step(w, id))
  {
    var r := w.requests[id];
    assert RequestOk(w, r);
    if r.phase != Commit {
      ReadKeepsInv(w, id);
    } else if Committed(w.db, r).Some? {
      CommitKeepsDb(w, r);
      CommitKeepsHome(w, r);
    }
  }

  lemma ApplyKeepsInv(w: World, a: Action)
    requires WorldOk(w)
    ensures WorldOk(Apply(w, a))
  {
    if a.Advance? && a.id in w.requests { StepKeepsInv(w, a.id); }
  }

  lemma {:induction false} ExecKeepsInv(w: World, actions: seq<Action>)
    requires WorldOk(w)
    ensures WorldOk(Exec(w, actions))
    decreases |actions|
  {
    if actions != [] {
      ExecKeepsInv(w, actions[..|actions| - 1]);
      ApplyKeepsInv(Exec(w, actions[..|actions| - 1]), actions[|actions| - 1]);
    }
  }

  /** In every interleaving a user has at most one vote in a round, and each vote is for an option of its round. */
  lemma VotesStayInOrder(actions: seq<Action>)
    ensures WorldOk(Exec(START, actions))
  {
    ExecKeepsInv(START, actions);
  }

  /** So the total of a round is the sum over its options at every moment of every interleaving. */
  lemma TotalIsAlwaysSum(actions: seq<Action>, round: RoundId)
    ensures var s := Rows(Exec(START, actions).db);
      TotalVotes(s.votes, round) == SumCounts(s.votes, round, OptionsOf(s.options, round))
  {
    VotesStayInOrder(actions);
    TotalIsSum(Rows(Exec(START, actions).db), round);
  }

  // ----- what becomes of a closed round -----

  /** Action `a` commits a close of `round` that picked another winner than the one stored. */
  ghost predicate Replaces(w: World, a: Action, round: RoundId) {
    && a.Advance? && a.id in w.requests && w.requests[a.id].phase == Commit
    && w.requests[a.id].call.Close? && w.requests[a.id].call.round == round
    && round in w.db.rounds
    && w.requests[a.id].winner.Some? && w.requests[a.id].winner != w.db.rounds[round].winner
  }

  /** A closed round stays closed, and its winner changes exactly when another close, having read the round open,
      commits a different one. */
  lemma WinnerReplacedExactly(w: World, a: Action, round: RoundId)
    requires WorldOk(w) && round in w.db.rounds && !w.db.rounds[round].open
    ensures var db := Apply(w, a).db;
      && round in db.rounds && !db.rounds[round].open && db.rounds[round].club == w.db.rounds[round].club
      && (db.rounds[round].winner != w.db.rounds[round].winner <==> Replaces(w, a, round))
  {
    if a.Advance? && a.id in w.requests {
      assert RequestOk(w, w.requests[a.id]);
    }
  }

  /** No close commits on a round that another one has closed with a different winner. */
  ghost predicate NeverReplaces(w: World, actions: seq<Action>, round: RoundId)
    decreases |actions|
  {
    actions != [] ==>
      var n := |actions| - 1;
      NeverReplaces(w, actions[..n], round) && !Replaces(Exec(w, actions[..n]), actions[n], round)
  }

  ghost predicate KeepsResult(w: World, actions: seq<Action>, round: RoundId)
    requires round in w.db.rounds
    decreases |actions|
  {
    && Lookup(Exec(w, actions).db.rounds, round) == Some(w.db.rounds[round])
    && (actions != [] ==> KeepsResult(w, actions[..|actions| - 1], round))
  }

  /** From any moment at which a round is closed, its result is kept all through an interleaving exactly when no
      such close is in it. */
  lemma {:induction false} ResultOverRuns(w: World, actions: seq<Action>, round: RoundId)
    requires WorldOk(w) && round in w.db.rounds && !w.db.rounds[round].open
    ensures KeepsResult(w, actions, round) <==> NeverReplaces(w, actions, round)
    decreases |actions|
  {
    if actions != [] {
      var n := |actions| - 1;
      var before := Exec(w, actions[..n]);
      ResultOverRuns(w, actions[..n], round);
      ExecKeepsInv(w, actions[..n]);
      if Lookup(before.db.rounds, round) == Some(w.db.rounds[round]) {
        WinnerReplacedExactly(before, actions[n], round);
      }
    }
  }

  /** Action `a` commits the removal of an option without votes that a round has as its winner, or a close whose
      winner has been removed since it was read. */
  ghost predicate LosesWinner(w: World, a: Action) {
    && a.Advance? && a.id in w.requests && w.requests[a.id].phase == Commit
    && var r := w.requests[a.id];
    match r.call
    case Remove(_, _, o) =>
      && (forall id :: id in w.db.rows ==> w.db.rows[id].option != o)
      && (exists k :: k in w.db.rounds && w.db.rounds[k].winner == Some(o))
    case Close(_, _, _) => r.round in w.db.rounds && r.winner.Some? && !OptionOf(Rows(w.db), r.winner.value, r.round)
    case _ => false
  }

  lemma RemoveLoses(db: Db, o: OptionId)
    requires DbOk(db) && WinnersListed(Rows(db))
    ensures WinnersListed(Rows(db.(options := DropOption(db.options, o)))) <==>
      forall k :: k in db.rounds ==> db.rounds[k].winner != Some(o)
  {
    var s, s' := Rows(db), Rows(db.(options := DropOption(db.options, o)));
    Dropped(db.options, o);
    forall p, r | p != o ensures OptionOf(s', p, r) <==> OptionOf(s, p, r) {
      DroppedOthers(s, o, p, r);
    }
    assert forall i :: 0 <= i < |s'.options| ==> s'.options[i] in s'.options && s'.options[i].id != o;
  }

  lemma CloseLoses(w: World, r: Request)
    requires DbOk(w.db) && WinnersListed(Rows(w.db)) && r.call.Close? && r.round in w.db.rounds
    ensures WinnersListed(Rows(CommitClose(w.db, r).value)) <==>
      (r.winner.Some? ==> OptionOf(Rows(w.db), r.winner.value, r.round))
  {
    var s, s' := Rows(w.db), Rows(CommitClose(w.db, r).value);
    assert s'.rounds[r.round].winner == if r.winner.Some? then r.winner else s.rounds[r.round].winner;
  }

  lemma AddLoses(db: Db, c: Choice)
    requires WinnersListed(Rows(db))
    ensures WinnersListed(Rows(db.(options := db.options + [c])))
  {
    var s, s' := Rows(db), Rows(db.(options := db.options + [c]));
    forall o, r | OptionOf(s, o, r) ensures OptionOf(s', o, r) {
      var i :| 0 <= i < |s.options| && s.options[i].id == o && s.options[i].round == r;
      assert s'.options[i] == s.options[i];
    }
  }

  /** Winners stay options of their rounds through an action exactly when it is not such a commit. */
  lemma WinnerLostExactly(w: World, a: Action)
    requires WorldOk(w) && WinnersListed(Rows(w.db))
    ensures WinnersListed(Rows(Apply(w, a).db)) <==> !LosesWinner(w, a)
  {
    if a.Advance? && a.id in w.requests && w.requests[a.id].phase == Commit {
      var r := w.requests[a.id];
      match r.call
      case Remove(_, _, o) => RemoveLoses(w.db, o);
      case Close(_, _, _) => if r.round in w.db.rounds { CloseLoses(w, r); }
      case Add(_, _, round, choice) => AddLoses(w.db, choice.(round := round));
      case _ =>
    }
  }

  ghost predicate ListedThroughout(actions: seq<Action>)
    decreases |actions|
  {
    WinnersListed(Rows(Exec(START, actions).db)) && (actions != [] ==> ListedThroughout(actions[..|actions| - 1]))
  }

  ghost predicate NeverLoses(actions: seq<Action>)
    decreases |actions|
  {
    actions != [] ==>
      var n := |actions| - 1;
      NeverLoses(actions[..n]) && !LosesWinner(Exec(START, actions[..n]), actions[n])
  }

  /** Winners are options of their rounds all through an interleaving exactly when no such commit is in it. */
  lemma {:induction false} WinnersOverRuns(actions: seq<Action>)
    ensures ListedThroughout(actions) <==> NeverLoses(actions)
    decreases |actions|
  {
    if actions != [] {
      var n := |actions| - 1;
      WinnersOverRuns(actions[..n]);
      VotesStayInOrder(actions[..n]);
      if WinnersListed(Rows(Exec(START, actions[..n]).db)) {
        WinnerLostExactly(Exec(START, actions[..n]), actions[n]);
      }
    }
  }

  // ----- a request that meets nobody else is the whole service -----

  ghost function Alone(w: World, id: RequestId, n: nat): World
    requires id in w.requests
    decreases n
  {
    if n == 0 then w else Alone(Step(w, id), id, n - 1)
  }

  lemma {:induction false} DoneStays(w: World, id: RequestId, n: nat)
    requires id in w.requests && w.requests[id].phase.Done?
    ensures Alone(w, id, n) == w
    decreases n
  {
    if n > 0 {
      assert Step(w, id) == w;
      DoneStays(w, id, n - 1);
    }
  }

  /** From `w`, at most `n` statements of `id` leave the rows and the answer that `call` has on `s`. */
  ghost predicate EndsAsServed(w: World, id: RequestId, s: Store, call: Call, n: nat) {
    && id in w.requests
    && var w' := Alone(w, id, n);
    && id in w'.requests
    && Rows(w'.db) == Perform(s, call)
    && w'.requests[id].phase == Done(Some(Answer(s, call)))
  }

  lemma EndsNow(w: World, id: RequestId, s: Store, call: Call, n: nat)
    requires id in w.requests && w.requests[id].phase == Done(Some(Answer(s, call))) && Rows(w.db) == Perform(s, call)
    ensures EndsAsServed(w, id, s, call, n)
  {
    DoneStays(w, id, n);
  }

  lemma CommitEnds(w: World, id: RequestId, s: Store, call: Call, n: nat)
    requires id in w.requests && w.requests[id].phase == Commit && n >= 1
    requires Committed(w.db, w.requests[id]).Some? && Rows(Committed(w.db, w.requests[id]).value) == Perform(s, call)
    requires Answer(s, call) == Answered
    ensures EndsAsServed(w, id, s, call, n)
  {
    EndsNow(Step(w, id), id, s, call, n - 1);
  }

  lemma UserRowIs(db: Db, round: RoundId, u: UserId)
    requires UniqueVoters(db.rows)
    ensures var found := UserRow(db.rows, round, u);
      && Votes(Without(db.rows, found)) == (set v | v in Votes(db.rows) && !(v.round == round && v.user == u))
      && (found.None? ==> forall v :: v in Votes(db.rows) ==> !(v.round == round && v.user == u))
      && (found.Some? ==> forall v :: v in Votes(db.rows) && v.round == round && v.user == u ==> v == db.rows[found.value])
  {
    var found := UserRow(db.rows, round, u);
    forall i | i in db.rows && db.rows[i].round == round && db.rows[i].user == u ensures found == Some(i) {
      assert i in UserRows(db.rows, round, u);
    }
    var rest := Without(db.rows, found);
    forall v ensures v in Votes(rest) <==> v in Votes(db.rows) && !(v.round == round && v.user == u) {
      if v in Votes(db.rows) && !(v.round == round && v.user == u) {
        var i :| i in db.rows && db.rows[i] == v;
        assert i in rest && rest[i] == v;
      }
      if v in Votes(rest) {
        var i :| i in rest && rest[i] == v;
        assert i in db.rows && db.rows[i] == v;
      }
    }
  }

  lemma CastCommits(db: Db, r: Request)
    requires DbOk(db) && r.call.Cast? && r.existing == UserRow(db.rows, r.round, r.call.user)
    requires r.voteId !in db.rows && HasOption(db.options, r.call.option)
    ensures CommitVote(db, r).Some?
    ensures var others := set v | v in Votes(db.rows) && !(v.round == r.round && v.user == r.call.user);
      Rows(CommitVote(db, r).value) == Rows(db).(votes := others + {Vote(r.round, r.call.option, r.call.user)})
  {
    var rest := Without(db.rows, r.existing);
    UserRowIs(db, r.round, r.call.user);
    forall id | id in rest ensures !(rest[id].round == r.round && rest[id].user == r.call.user) {
      assert rest[id] in Votes(rest);
    }
    VotesPlus(rest, r.voteId, Vote(r.round, r.call.option, r.call.user));
  }

  /** A vote or a withdrawal that is about to read the user's row, as its round is found. */
  ghost predicate AtVote(w: World, id: RequestId, s: Store, call: Call) {
    && DbOk(w.db) && s == Rows(w.db) && id in w.requests
    && (call.Cast? || call.TakeBack?)
    && var r := w.requests[id];
    && r.call == call && r.phase == ReadVote && r.voteId !in w.db.rows && call.role.Some?
    && RoundOfOption(s, call.club, call.option) == (Answered, r.round)
  }

  lemma SoloCastRead(w: World, id: RequestId, s: Store, call: Call)
    requires AtVote(w, id, s, call) && call.Cast? && s.rounds[w.requests[id].round].open
    ensures EndsAsServed(w, id, s, call, 2)
  {
    var r, w' := w.requests[id], Step(w, id);
    UserRowIs(w.db, r.round, call.user);
    var found := UserRow(w.db.rows, r.round, call.user);
    if w'.requests[id].phase.Done? {
      assert w.db.rows[found.value] in s.votes;
      assert Perform(s, call).votes == s.votes;
      EndsNow(w', id, s, call, 1);
    } else {
      CastCommits(w.db, w'.requests[id]);
      CommitEnds(w', id, s, call, 1);
    }
  }

  lemma SoloBackRead(w: World, id: RequestId, s: Store, call: Call)
    requires AtVote(w, id, s, call) && call.TakeBack?
    ensures EndsAsServed(w, id, s, call, 2)
  {
    var r, w' := w.requests[id], Step(w, id);
    UserRowIs(w.db, r.round, call.user);
    var found := UserRow(w.db.rows, r.round, call.user);
    assert found.Some? ==> w.db.rows[found.value] in s.votes;
    if w'.requests[id].phase.Done? {
      assert Perform(s, call).votes == s.votes;
      EndsNow(w', id, s, call, 1);
    } else {
      assert Votes(Without(w.db.rows, found)) == s.votes - {Vote(r.round, call.option, call.user)};
      CommitEnds(w', id, s, call, 1);
    }
  }

  lemma SoloVote(w: World, id: RequestId, s: Store, call: Call)
    requires DbOk(w.db) && s == Rows(w.db) && id in w.requests
    requires (call.Cast? || call.TakeBack?) && call.role.Some?
    requires w.requests[id] == NewRequest(call, w.requests[id].voteId) && w.requests[id].voteId !in w.db.rows
    ensures EndsAsServed(w, id, s, call, 4)
  {
    var w1 := Step(w, id);
    if FindOption(w.db.options, call.option).None? {
      EndsNow(w1, id, s, call, 3);
    } else {
      var w2 := Step(w1, id);
      if w2.requests[id].phase.Done? {
        EndsNow(w2, id, s, call, 2);
      } else {
        if call.Cast? { SoloCastRead(w2, id, s, call); } else { SoloBackRead(w2, id, s, call); }
      }
    }
  }

  lemma SoloRemoveCount(w: World, id: RequestId, s: Store, call: Call)
    requires DbOk(w.db) && s == Rows(w.db) && id in w.requests && call.Remove? && Permitted(call)
    requires w.requests[id].call == call && w.requests[id].phase == CountVotes
    requires RoundOfOption(s, call.club, call.option).0 == Answered
    requires s.rounds[RoundOfOption(s, call.club, call.option).1].open
    ensures EndsAsServed(w, id, s, call, 2)
  {
    var w' := Step(w, id);
    if w'.requests[id].phase.Done? {
      EndsNow(w', id, s, call, 1);
    } else {
      CommitEnds(w', id, s, call, 1);
    }
  }

  lemma SoloRemove(w: World, id: RequestId, s: Store, call: Call)
    requires DbOk(w.db) && s == Rows(w.db) && id in w.requests && call.Remove? && Permitted(call)
    requires w.requests[id] == NewRequest(call, w.requests[id].voteId)
    ensures EndsAsServed(w, id, s, call, 4)
  {
    var w1 := Step(w, id);
    if FindOption(w.db.options, call.option).None? {
      EndsNow(w1, id, s, call, 3);
    } else {
      var w2 := Step(w1, id);
      if w2.requests[id].phase.Done? {
        EndsNow(w2, id, s, call, 2);
      } else {
        SoloRemoveCount(w2, id, s, call);
      }
    }
  }

  lemma SoloClose(w: World, id: RequestId, s: Store, call: Call)
    requires DbOk(w.db) && s == Rows(w.db) && id in w.requests && call.Close? && Permitted(call)
    requires w.requests[id] == NewRequest(call, w.requests[id].voteId)
    ensures EndsAsServed(w, id, s, call, 4)
  {
    var w1 := Step(w, id);
    if w1.requests[id].phase.Done? {
      EndsNow(w1, id, s, call, 3);
    } else {
      var w2 := Step(w1, id);
      var w3 := Step(w2, id);
      assert s.rounds[call.round].winner.None?;
      CommitEnds(w3, id, s, call, 1);
    }
  }

  lemma SoloAdd(w: World, id: RequestId, s: Store, call: Call)
    requires DbOk(w.db) && s == Rows(w.db) && id in w.requests && call.Add? && Permitted(call) && Fresh(s, call)
    requires w.requests[id] == NewRequest(call, w.requests[id].voteId)
    ensures EndsAsServed(w, id, s, call, 4)
  {
    var w1 := Step(w, id);
    if w1.requests[id].phase.Done? {
      EndsNow(w1, id, s, call, 3);
    } else {
      CommitEnds(w1, id, s, call, 3);
    }
  }

  /** A request that runs with no other statement in between is the atomic service, with its answer. */
  lemma SoloRequestIsService(w: World, id: RequestId, call: Call, voteId: VoteId)
    requires WorldOk(w) && id !in w.requests && voteId !in w.db.rows && Fresh(Rows(w.db), call)
    requires (call.Add? ==> call.choice.id !in w.home) && (call.Cast? ==> voteId !in w.ballots)
    ensures EndsAsServed(Apply(w, Arrive(id, call, voteId)), id, Rows(w.db), call, 4)
  {
    var w', s := Apply(w, Arrive(id, call, voteId)), Rows(w.db);
    assert w'.requests[id] == NewRequest(call, voteId);
    if !Permitted(call) {
      EndsNow(w', id, s, call, 4);
    } else {
      match call
      case Create(_, _, _) => CommitEnds(w', id, s, call, 4);
      case Add(_, _, _, _) => SoloAdd(w', id, s, call);
      case Remove(_, _, _) => SoloRemove(w', id, s, call);
      case Cast(_, _, _, _) => SoloVote(w', id, s, call);
      case TakeBack(_, _, _, _) => SoloVote(w', id, s, call);
      case Close(_, _, _) => SoloClose(w', id, s, call);
    }
  }

  // ----- the races -----

  lemma {:induction false} ExecConcat(w: World, xs: seq<Action>, ys: seq<Action>)
    ensures Exec(w, xs + ys) == Exec(Exec(w, xs), ys)
    decreases |ys|
  {
    if ys == [] {
      assert xs + ys == xs;
    } else {
      var n := |ys| - 1;
      ExecConcat(w, xs, ys[..n]);
      assert (xs + ys)[..|xs + ys| - 1] == xs + ys[..n];
    }
  }

  lemma ExecThree(w: World, a: Action, b: Action, c: Action)
    ensures Exec(w, [a, b, c]) == Apply(Apply(Apply(w, a), b), c)
  {
    assert [a, b, c][..2] == [a, b] && [a, b][..1] == [a] && [a][..0] == [];
    assert Exec(w, [a]) == Apply(w, a);
    assert Exec(w, [a, b]) == Apply(Apply(w, a), b);
  }

  lemma ExecOne(w: World, a: Action)
    ensures Exec(w, [a]) == Apply(w, a)
  {
    assert [a][..0] == [];
  }

  /** The statements of a request up to its commit: all of them read. */
  function Reads(id: RequestId, call: Call, voteId: VoteId): seq<Action> {
    [Arrive(id, call, voteId)] + [Advance(id), Advance(id), Advance(id)]
  }

  /** `w` with one more request, which has read everything and commits next. */
  function About(w: World, id: RequestId, r: Request): World {
    w.(requests := w.requests[id := r])
  }

  lemma ReadStep(w: World, id: RequestId, r: Request)
    requires r.phase != Commit
    ensures Apply(About(w, id, r), Advance(id)) == About(w, id, Read(w.db, r))
  {
    assert w.requests[id := r][id := Read(w.db, r)] == w.requests[id := Read(w.db, r)];
  }

  lemma ThreeReads(w: World, id: RequestId, call: Call, voteId: VoteId)
    requires id !in w.requests && !call.Add? && (call.Cast? ==> voteId !in w.ballots)
    requires var r := NewRequest(call, voteId);
      r.phase != Commit && Read(w.db, r).phase != Commit && Read(w.db, Read(w.db, r)).phase != Commit
    ensures Exec(w, Reads(id, call, voteId))
      == About(Apply(w, Arrive(id, call, voteId)), id, Read(w.db, Read(w.db, Read(w.db, NewRequest(call, voteId)))))
  {
    var r, w' := NewRequest(call, voteId), Apply(w, Arrive(id, call, voteId));
    ExecOne(w, Arrive(id, call, voteId));
    ExecConcat(w, [Arrive(id, call, voteId)], [Advance(id), Advance(id), Advance(id)]);
    assert About(w', id, r) == w';
    ExecThree(w', Advance(id), Advance(id), Advance(id));
    ReadStep(w', id, r);
    ReadStep(w', id, Read(w.db, r));
    ReadStep(w', id, Read(w.db, Read(w.db, r)));
  }

  lemma ReadsOfClose(db: Db, round: RoundId)
    requires round in db.rounds && db.rounds[round].open && OptionsOf(db.options, round) != []
    ensures var listed := OptionsOf(db.options, round);
      var call := Close(db.rounds[round].club, Some(Organizer), round);
      var r := NewRequest(call, 0);
      && r.phase == ReadRound && Read(db, r) == r.(phase := ReadOptions)
      && Read(db, Read(db, r)) == r.(phase := ReadCounts, listed := listed)
      && Read(db, Read(db, Read(db, r)))
           == Request(call, 0, Commit, round, listed, Some(Winner(Votes(db.rows), round, listed).id), None)
  {
  }

  lemma CloseReads(w: World, id: RequestId, round: RoundId)
    requires id !in w.requests && round in w.db.rounds && w.db.rounds[round].open
    requires OptionsOf(w.db.options, round) != []
    ensures var listed := OptionsOf(w.db.options, round);
      var call := Close(w.db.rounds[round].club, Some(Organizer), round);
      Exec(w, Reads(id, call, 0))
        == About(w, id, Request(call, 0, Commit, round, listed, Some(Winner(Votes(w.db.rows), round, listed).id), None))
  {
    ReadsOfClose(w.db, round);
    ThreeReads(w, id, Close(w.db.rounds[round].club, Some(Organizer), round), 0);
  }

  lemma RemoveReads(w: World, id: RequestId, c: Choice)
    requires id !in w.requests && DistinctIds(w.db.options) && c in w.db.options
    requires c.round in w.db.rounds && w.db.rounds[c.round].open
    requires forall i :: i in w.db.rows ==> w.db.rows[i].option != c.id
    ensures var call := Remove(w.db.rounds[c.round].club, Some(Organizer), c.id);
      Exec(w, Reads(id, call, 0)) == About(w, id, Request(call, 0, Commit, c.round, [], None, None))
  {
    FoundIs(w.db.options, c);
    ThreeReads(w, id, Remove(w.db.rounds[c.round].club, Some(Organizer), c.id), 0);
  }

  lemma ReadsOfCast(db: Db, c: Choice, u: UserId, voteId: VoteId)
    requires DistinctIds(db.options) && c in db.options && c.round in db.rounds && db.rounds[c.round].open
    requires UserRows(db.rows, c.round, u) == {}
    ensures var call := Cast(db.rounds[c.round].club, Some(Member), c.id, u);
      var r := NewRequest(call, voteId);
      && r.phase == ReadOption && Read(db, r) == r.(round := c.round, phase := ReadRound)
      && Read(db, Read(db, r)) == r.(round := c.round, phase := ReadVote)
      && Read(db, Read(db, Read(db, r))) == Request(call, voteId, Commit, c.round, [], None, None)
  {
    FoundIs(db.options, c);
  }

  lemma CastReads(w: World, id: RequestId, c: Choice, u: UserId, voteId: VoteId)
    requires id !in w.requests && DistinctIds(w.db.options) && c in w.db.options && voteId !in w.ballots
    requires c.round in w.db.rounds && w.db.rounds[c.round].open
    requires UserRows(w.db.rows, c.round, u) == {}
    ensures var call := Cast(w.db.rounds[c.round].club, Some(Member), c.id, u);
      Exec(w, Reads(id, call, voteId))
        == About(w, id, Request(call, voteId, Commit, c.round, [], None, None)).(ballots := w.ballots[voteId := Ballot(c.id, u)])
  {
    ReadsOfCast(w.db, c, u, voteId);
    ThreeReads(w, id, Cast(w.db.rounds[c.round].club, Some(Member), c.id, u), voteId);
  }

  lemma FoundIs(options: seq<Choice>, c: Choice)
    requires DistinctIds(options) && c in options
    ensures FindOption(options, c.id) == Some(c)
  {
  }

  /** Without votes the first option wins; with a single vote, the option it is for. */
  lemma WinnerOfFew(votes: set<Vote>, round: RoundId, options: seq<Choice>, k: nat)
    requires k < |options| && DistinctIds(options)
    requires forall v :: v in votes && v.round == round ==> v.option == options[k].id
    requires k > 0 ==> Count(votes, round, options[k].id) > 0
    ensures Winner(votes, round, options) == options[k]
  {
    var m := WinnerIsFirstMax(votes, round, options);
    forall i | 0 <= i < |options| && i != k ensures Count(votes, round, options[i].id) == 0 {
      assert (set v | v in votes && v.round == round && v.option == options[i].id) == {};
    }
  }

  ghost predicate OpenWithoutVotes(db: Db, round: RoundId) {
    && DbOk(db) && round in db.rounds && db.rounds[round].open
    && (forall i :: i in db.rows ==> db.rows[i].round != round)
  }

  lemma NoVotesForOption(w: World, round: RoundId, c: Choice)
    requires OpenWithoutVotes(w.db, round) && c in w.db.options && c.round == round
    ensures forall i :: i in w.db.rows ==> w.db.rows[i].option != c.id
  {
    forall i | i in w.db.rows ensures w.db.rows[i].option != c.id {
      var v := w.db.rows[i];
      assert v in Votes(w.db.rows) && OptionOf(Rows(w.db), v.option, v.round);
    }
  }

  /** A removal that has read the round open and no votes, and a close that picks the option: both commit, and the
      closed round's winner is no option of it, whichever open round without votes they meet. */
  lemma RemoveRacesClose(w: World, round: RoundId, i: RequestId, j: RequestId) returns (actions: seq<Action>)
    requires OpenWithoutVotes(w.db, round) && OptionsOf(w.db.options, round) != []
    requires i !in w.requests && j !in w.requests && i != j
    ensures var db := Exec(w, actions).db;
      && round in db.rounds && !db.rounds[round].open && db.rounds[round].winner.Some?
      && !OptionOf(Rows(db), db.rounds[round].winner.value, round)
  {
    var listed := OptionsOf(w.db.options, round);
    var c := listed[0];
    var club := w.db.rounds[round].club;
    assert c in listed;
    NoVotesForOption(w, round, c);
    RemoveReads(w, i, c);
    var remove, close := Remove(club, Some(Organizer), c.id), Close(club, Some(Organizer), round);
    var w1 := About(w, i, Request(remove, 0, Commit, round, [], None, None));
    CloseReads(w1, j, round);
    OptionsOfDistinct(w.db.options, round);
    WinnerOfFew(Votes(w.db.rows), round, listed, 0);
    var w2 := About(w1, j, Request(close, 0, Commit, round, listed, Some(c.id), None));
    ExecConcat(w, Reads(i, remove, 0), Reads(j, close, 0));
    actions := Reads(i, remove, 0) + Reads(j, close, 0);
    assert Exec(w, actions) == w2;
    actions := BothCommit(w, actions, w2, j, i);
    RemoveRaceEnds(w2, i, j, c);
  }

  lemma BothCommit(w: World, actions: seq<Action>, w': World, first: RequestId, second: RequestId) returns (longer: seq<Action>)
    requires Exec(w, actions) == w'
    ensures Exec(w, longer) == Apply(Apply(w', Advance(first)), Advance(second))
  {
    longer := actions + [Advance(first)] + [Advance(second)];
    ExecConcat(w, actions, [Advance(first)]);
    ExecConcat(w, actions + [Advance(first)], [Advance(second)]);
  }

  lemma RemoveRaceEnds(w: World, i: RequestId, j: RequestId, c: Choice)
    requires DistinctIds(w.db.options) && i in w.requests && j in w.requests && i != j && c.round in w.db.rounds
    requires w.requests[i].phase == Commit && w.requests[i].call.Remove? && w.requests[i].call.option == c.id
    requires w.requests[j].phase == Commit && w.requests[j].call.Close? && w.requests[j].round == c.round
    requires w.requests[j].winner == Some(c.id)
    requires forall k :: k in w.db.rows ==> w.db.rows[k].option != c.id
    ensures var db := Apply(Apply(w, Advance(j)), Advance(i)).db;
      && c.round in db.rounds && !db.rounds[c.round].open && db.rounds[c.round].winner == Some(c.id)
      && !OptionOf(Rows(db), c.id, c.round)
  {
    var db := Apply(Apply(w, Advance(j)), Advance(i)).db;
    assert db.options == DropOption(w.db.options, c.id);
    Dropped(w.db.options, c.id);
    assert forall k :: 0 <= k < |db.options| ==> db.options[k] in db.options && db.options[k].id != c.id;
  }

  lemma Then(w: World, xs: seq<Action>, w1: World, a: Action)
    requires Exec(w, xs) == w1
    ensures Exec(w, xs + [a]) == Apply(w1, a)
  {
    ExecOne(w1, a);
    ExecConcat(w, xs, [a]);
  }

  ghost predicate AboutToClose(w: World, id: RequestId, round: RoundId, o: OptionId) {
    && id in w.requests && w.requests[id].phase == Commit
    && w.requests[id].call.Close? && w.requests[id].round == round && w.requests[id].winner == Some(o)
  }

  /** A close that counts no votes picks the first option. */
  lemma NoneCounted(w: World, round: RoundId, id: RequestId) returns (actions: seq<Action>)
    requires OpenWithoutVotes(w.db, round) && OptionsOf(w.db.options, round) != [] && id !in w.requests
    ensures var w' := Exec(w, actions);
      && w'.db == w.db && w'.ballots == w.ballots && w'.requests.Keys == w.requests.Keys + {id}
      && AboutToClose(w', id, round, OptionsOf(w.db.options, round)[0].id)
  {
    OptionsOfDistinct(w.db.options, round);
    CloseReads(w, id, round);
    WinnerOfFew(Votes(w.db.rows), round, OptionsOf(w.db.options, round), 0);
    actions := Reads(id, Close(w.db.rounds[round].club, Some(Organizer), round), 0);
  }

  /** Close `i` counts no votes and picks the first option; then the only vote comes, for the second one. */
  lemma VoteAfterCount(w: World, round: RoundId, u: UserId, i: RequestId, k: RequestId, voteId: VoteId)
    returns (actions: seq<Action>, w': World)
    requires OpenWithoutVotes(w.db, round) && |OptionsOf(w.db.options, round)| >= 2 && voteId !in w.db.rows && voteId !in w.ballots
    requires i !in w.requests && k !in w.requests && i != k
    ensures w' == Exec(w, actions) && w'.requests.Keys == w.requests.Keys + {i, k}
    ensures w'.db.options == w.db.options && w'.db.rounds == w.db.rounds
    ensures var listed := OptionsOf(w.db.options, round);
      && (forall v :: v in Votes(w'.db.rows) && v.round == round ==> v.option == listed[1].id)
      && Count(Votes(w'.db.rows), round, listed[1].id) > 0
      && AboutToClose(w', i, round, listed[0].id)
  {
    var c := OptionsOf(w.db.options, round)[1];
    assert c in OptionsOf(w.db.options, round);
    var first := NoneCounted(w, round, i);
    var w1 := Exec(w, first);
    var more := VoteComes(w1, k, c, u, voteId);
    ExecConcat(w, first, more);
    actions, w' := first + more, Exec(w1, more);
  }

  /** A vote that nothing interrupts. */
  lemma VoteComes(w: World, id: RequestId, c: Choice, u: UserId, voteId: VoteId) returns (actions: seq<Action>)
    requires OpenWithoutVotes(w.db, c.round) && c in w.db.options && id !in w.requests && voteId !in w.db.rows && voteId !in w.ballots
    ensures var w' := Exec(w, actions);
      && w'.requests.Keys == w.requests.Keys + {id}
      && (forall i :: i in w.requests ==> w'.requests[i] == w.requests[i])
      && w'.db.options == w.db.options && w'.db.rounds == w.db.rounds
      && (forall v :: v in Votes(w'.db.rows) && v.round == c.round ==> v.option == c.id)
      && Count(Votes(w'.db.rows), c.round, c.id) > 0
  {
    var cast := Cast(w.db.rounds[c.round].club, Some(Member), c.id, u);
    CastReads(w, id, c, u, voteId);
    var w1 := Exec(w, Reads(id, cast, voteId));
    VoteCounted(w1, id, c, u);
    Then(w, Reads(id, cast, voteId), w1, Advance(id));
    actions := Reads(id, cast, voteId) + [Advance(id)];
  }

  /** A close that has counted no votes, then a vote for the second option, then a close that counts it: the second
      close stores the second option, and the first one replaces it by the first option. */
  lemma CloseRacesClose(w: World, round: RoundId, u: UserId, i: RequestId, j: RequestId, k: RequestId, voteId: VoteId)
    returns (before: seq<Action>, actions: seq<Action>)
    requires OpenWithoutVotes(w.db, round) && |OptionsOf(w.db.options, round)| >= 2 && voteId !in w.db.rows && voteId !in w.ballots
    requires i !in w.requests && j !in w.requests && k !in w.requests && i != j && j != k && i != k
    ensures var listed := OptionsOf(w.db.options, round);
      && before <= actions
      && ClosedWith(Exec(w, before).db, round, listed[1].id)
      && ClosedWith(Exec(w, actions).db, round, listed[0].id)
      && listed[0].id != listed[1].id
  {
    var listed := OptionsOf(w.db.options, round);
    var close := Close(w.db.rounds[round].club, Some(Organizer), round);
    OptionsOfDistinct(w.db.options, round);
    var sofar, w1 := VoteAfterCount(w, round, u, i, k, voteId);
    CloseReads(w1, j, round);
    WinnerOfFew(Votes(w1.db.rows), round, listed, 1);
    var w2 := Exec(w1, Reads(j, close, 0));
    ExecConcat(w, sofar, Reads(j, close, 0));
    before := sofar + Reads(j, close, 0);
    Then(w, before, w2, Advance(j));
    before := before + [Advance(j)];
    var w3 := Apply(w2, Advance(j));
    CloseCommits(w2, j, round, listed[1].id);
    Then(w, before, w3, Advance(i));
    actions := before + [Advance(i)];
    CloseCommits(w3, i, round, listed[0].id);
  }

  ghost predicate ClosedWith(db: Db, round: RoundId, o: OptionId) {
    round in db.rounds && !db.rounds[round].open && db.rounds[round].winner == Some(o)
  }

  lemma CloseCommits(w: World, id: RequestId, round: RoundId, o: OptionId)
    requires AboutToClose(w, id, round, o) && round in w.db.rounds
    ensures var w' := Apply(w, Advance(id));
      && ClosedWith(w'.db, round, o) && w'.db.rows == w.db.rows && w'.db.options == w.db.options
      && w'.requests == w.requests[id := End(w.requests[id], Some(Answered))]
  {
  }

  lemma VoteCounted(w: World, id: RequestId, c: Choice, u: UserId)
    requires OpenWithoutVotes(w.db, c.round) && c in w.db.options && id in w.requests
    requires w.requests[id].call.Cast? && w.requests[id].call.option == c.id && w.requests[id].call.user == u
    requires w.requests[id].phase == Commit && w.requests[id].round == c.round && w.requests[id].existing == None
    requires w.requests[id].voteId !in w.db.rows
    ensures var w' := Apply(w, Advance(id));
      && w'.db.options == w.db.options && w'.db.rounds == w.db.rounds
      && Votes(w'.db.rows) == Votes(w.db.rows) + {Vote(c.round, c.id, u)}
      && Count(Votes(w'.db.rows), c.round, c.id) > 0
      && w'.requests == w.requests[id := End(w.requests[id], Some(Answered))]
  {
    HasOptionIs(w.db.options, c.id);
    VotesPlus(w.db.rows, w.requests[id].voteId, Vote(c.round, c.id, u));
    var votes := Votes(w.db.rows) + {Vote(c.round, c.id, u)};
    var counted := set v | v in votes && v.round == c.round && v.option == c.id;
    assert Vote(c.round, c.id, u) in counted && counted != {};
  }
}
