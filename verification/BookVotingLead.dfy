/** How votes and leads move while voting requests are interleaved: which statements change a round's votes, and
    when the option a close has picked is still the one with the most votes. */
module BookVotingLead {
  import opened Common
  import opened BookVoting
  import opened BookVotingConcurrency

  // ----- vote ids -----

  /** The vote a request has read, if it is still there, is its user's in the round, and is for its option exactly if
      it takes the vote back. */
  ghost predicate VoteFacts(w: World, r: Request) {
    && (r.call.Cast? ==> r.voteId in w.ballots && w.ballots[r.voteId] == Ballot(r.call.option, r.call.user))
    && (r.existing.Some? ==>
          && (r.call.Cast? || r.call.TakeBack?) && (r.phase.Commit? || r.phase.Done?) && r.existing.value in w.ballots
          && var b := w.ballots[r.existing.value];
          && b.user == r.call.user && b.option in w.home && w.home[b.option].round == r.round
          && (b.option == r.call.option <==> r.call.TakeBack?))
  }

  ghost predicate BallotOf(w: World, i: VoteId) {
    i in w.db.rows ==> i in w.ballots && w.ballots[i] == Ballot(w.db.rows[i].option, w.db.rows[i].user)
  }

  ghost predicate VotesOk(w: World) {
    (forall i :: BallotOf(w, i)) && (forall id :: id in w.requests ==> VoteFacts(w, w.requests[id]))
  }

  lemma ReadKeepsFacts(w: World, r: Request)
    requires WorldOk(w) && VotesOk(w) && VoteFacts(w, r) && r.phase != Commit
    ensures VoteFacts(w, Read(w.db, r))
  {
    if r.phase == ReadVote && (r.call.Cast? || r.call.TakeBack?) {
      var found := UserRow(w.db.rows, r.round, r.call.user);
      if found.Some? {
        assert BallotOf(w, found.value);
      }
    }
  }

  lemma CommitKeepsBallots(w: World, r: Request, i: VoteId)
    requires VotesOk(w) && VoteFacts(w, r) && Committed(w.db, r).Some?
    ensures i in Committed(w.db, r).value.rows ==>
      i in w.ballots
      && w.ballots[i] == Ballot(Committed(w.db, r).value.rows[i].option, Committed(w.db, r).value.rows[i].user)
  {
    assert BallotOf(w, i);
  }

  /** Ids handed out before keep their meaning. */
  ghost predicate Extends(w: World, w': World) {
    && (forall o :: o in w.home ==> o in w'.home && w'.home[o] == w.home[o])
    && (forall i :: i in w.ballots ==> i in w'.ballots && w'.ballots[i] == w.ballots[i])
  }

  lemma SameBallots(w: World, w': World)
    requires VotesOk(w) && Extends(w, w') && w'.db.rows == w.db.rows
    ensures forall i :: BallotOf(w', i)
  {
    forall i ensures BallotOf(w', i) { assert BallotOf(w, i); }
  }

  lemma StepKeepsVotes(w: World, id: RequestId)
    requires WorldOk(w) && VotesOk(w) && id in w.requests
    ensures VotesOk(Step(w, id))
  {
    var r, w' := w.requests[id], Step(w, id);
    assert VoteFacts(w, r);
    if r.phase == Commit && Committed(w.db, r).Some? {
      forall i ensures BallotOf(w', i) { CommitKeepsBallots(w, r, i); }
    } else {
      SameBallots(w, w');
      if r.phase != Commit { ReadKeepsFacts(w, r); }
    }
  }

  lemma ApplyKeepsVotes(w: World, a: Action)
    requires WorldOk(w) && VotesOk(w)
    ensures VotesOk(Apply(w, a))
  {
    var w' := Apply(w, a);
    if a.Advance? && a.id in w.requests {
      StepKeepsVotes(w, a.id);
    } else if w' != w {
      SameBallots(w, w');
      assert a.Abort? ==> VoteFacts(w, w.requests[a.id]);
    }
  }

  // ----- what one statement does to the votes -----

  /** Request `id` commits next. */
  ghost predicate CommitsNext(w: World, a: Action) {
    a.Advance? && a.id in w.requests && w.requests[a.id].phase == Commit && Committed(w.db, w.requests[a.id]).Some?
  }

  /** The vote that action `a` adds: a vote in flight commits, whether or not its round is still open. */
  ghost function Coming(w: World, a: Action): Option<Vote> {
    if CommitsNext(w, a) && w.requests[a.id].call.Cast? then
      var r := w.requests[a.id];
      Some(Vote(r.round, r.call.option, r.call.user))
    else None
  }

  /** The vote that it removes: the one a vote or a withdrawal has read, if it is still there. */
  ghost function Leaving(w: World, a: Action): Option<Vote> {
    if CommitsNext(w, a) && (w.requests[a.id].call.Cast? || w.requests[a.id].call.TakeBack?) then
      var e := w.requests[a.id].existing;
      if e.Some? && e.value in w.db.rows then Some(w.db.rows[e.value]) else None
    else None
  }

  ghost function One(v: Option<Vote>): set<Vote> {
    if v.Some? then {v.value} else {}
  }

  lemma VotesMinus(rows: map<VoteId, Vote>, e: Option<VoteId>)
    requires UniqueVoters(rows)
    ensures Votes(Without(rows, e)) == Votes(rows) - (if e.Some? && e.value in rows then {rows[e.value]} else {})
  {
    var rest := Without(rows, e);
    forall v ensures v in Votes(rest) <==> v in Votes(rows) && !(e.Some? && e.value in rows && v == rows[e.value]) {
      if v in Votes(rows) {
        var i :| i in rows && rows[i] == v;
        assert i in rest ==> rest[i] == v;
      }
    }
  }

  /** What leaves is a vote of the user's in the round, for another option than what comes. */
  lemma LeavingIs(w: World, a: Action)
    requires WorldOk(w) && VotesOk(w) && Leaving(w, a).Some?
    ensures var v, r := Leaving(w, a).value, w.requests[a.id];
      && v in Votes(w.db.rows) && v.round == r.round && v.user == r.call.user
      && (v.option == r.call.option <==> r.call.TakeBack?)
  {
    var e := w.requests[a.id].existing.value;
    assert VoteFacts(w, w.requests[a.id]) && BallotOf(w, e);
  }

  /** An action's effect on the votes: one may leave, another may come. */
  lemma VotesMove(w: World, a: Action)
    requires WorldOk(w) && VotesOk(w)
    ensures Votes(Apply(w, a).db.rows) == Votes(w.db.rows) - One(Leaving(w, a)) + One(Coming(w, a))
    ensures One(Leaving(w, a)) <= Votes(w.db.rows) && One(Coming(w, a)) !! Votes(w.db.rows)
  {
    if Leaving(w, a).Some? { LeavingIs(w, a); }
    if CommitsNext(w, a) {
      var r := w.requests[a.id];
      VotesMinus(w.db.rows, r.existing);
      if r.call.Cast? { ComingIsNew(w, a); }
    }
  }

  lemma ComingIsNew(w: World, a: Action)
    requires WorldOk(w) && VotesOk(w) && CommitsNext(w, a) && w.requests[a.id].call.Cast?
    ensures Coming(w, a).value !in Votes(w.db.rows)
    ensures Votes(Apply(w, a).db.rows) == Votes(Without(w.db.rows, w.requests[a.id].existing)) + {Coming(w, a).value}
  {
    var r := w.requests[a.id];
    var rest, v := Without(w.db.rows, r.existing), Coming(w, a).value;
    VotesPlus(rest, r.voteId, v);
    VotesMinus(w.db.rows, r.existing);
    assert v !in Votes(rest);
    if Leaving(w, a).Some? { LeavingIs(w, a); }
  }

  /** Action `a` commits a vote of the round, or a withdrawal from it whose vote is still there. */
  ghost predicate VotesChange(w: World, a: Action, round: RoundId) {
    || (Coming(w, a).Some? && w.requests[a.id].round == round)
    || (CommitsNext(w, a) && w.requests[a.id].call.TakeBack? && Leaving(w, a).Some? && w.requests[a.id].round == round)
  }

  /** A round's votes change exactly when a vote of it commits, or a withdrawal whose vote is still there: a vote in
      flight counts even if the round has been closed meanwhile. */
  lemma VotesChangeExactly(w: World, a: Action, round: RoundId)
    requires WorldOk(w) && VotesOk(w)
    ensures VotesIn(Rows(Apply(w, a).db), round) != VotesIn(Rows(w.db), round) <==> VotesChange(w, a, round)
  {
    VotesMove(w, a);
    if Leaving(w, a).Some? { LeavingIs(w, a); }
    if Coming(w, a).Some? && w.requests[a.id].round == round {
      assert Coming(w, a).value in VotesIn(Rows(Apply(w, a).db), round);
    } else if CommitsNext(w, a) && w.requests[a.id].call.TakeBack? && Leaving(w, a).Some? && w.requests[a.id].round == round {
      assert Leaving(w, a).value in VotesIn(Rows(w.db), round);
    }
  }

  ghost predicate SameVotesThroughout(w: World, actions: seq<Action>, round: RoundId)
    decreases |actions|
  {
    && VotesIn(Rows(Exec(w, actions).db), round) == VotesIn(Rows(w.db), round)
    && (actions != [] ==> SameVotesThroughout(w, actions[..|actions| - 1], round))
  }

  ghost predicate NoVoteMoves(w: World, actions: seq<Action>, round: RoundId)
    decreases |actions|
  {
    actions != [] ==>
      var n := |actions| - 1;
      NoVoteMoves(w, actions[..n], round) && !VotesChange(Exec(w, actions[..n]), actions[n], round)
  }

  lemma {:induction false} ExecKeepsVotes(w: World, actions: seq<Action>)
    requires WorldOk(w) && VotesOk(w)
    ensures WorldOk(Exec(w, actions)) && VotesOk(Exec(w, actions))
    decreases |actions|
  {
    if actions != [] {
      ExecKeepsVotes(w, actions[..|actions| - 1]);
      ApplyKeepsInv(Exec(w, actions[..|actions| - 1]), actions[|actions| - 1]);
      ApplyKeepsVotes(Exec(w, actions[..|actions| - 1]), actions[|actions| - 1]);
    }
  }

  /** From any moment on, such as its closing, a round's votes stay the same all through an interleaving exactly when
      no such commit is in it. */
  lemma {:induction false} VotesOverRuns(w: World, actions: seq<Action>, round: RoundId)
    requires WorldOk(w) && VotesOk(w)
    ensures SameVotesThroughout(w, actions, round) <==> NoVoteMoves(w, actions, round)
    decreases |actions|
  {
    if actions != [] {
      var n := |actions| - 1;
      VotesOverRuns(w, actions[..n], round);
      ExecKeepsVotes(w, actions[..n]);
      VotesChangeExactly(Exec(w, actions[..n]), actions[n], round);
    }
  }

  // ----- counts -----

  ghost function Share(v: Option<Vote>, round: RoundId, o: OptionId): int {
    if v.Some? && v.value.round == round && v.value.option == o then 1 else 0
  }

  /** By how much action `a` changes an option's count. */
  ghost function Gain(w: World, a: Action, round: RoundId, o: OptionId): int {
    Share(Coming(w, a), round, o) - Share(Leaving(w, a), round, o)
  }

  lemma CountMoves(votes: set<Vote>, leaving: Option<Vote>, coming: Option<Vote>, round: RoundId, o: OptionId)
    requires One(leaving) <= votes && One(coming) !! votes
    ensures Count(votes - One(leaving) + One(coming), round, o)
      == Count(votes, round, o) + Share(coming, round, o) - Share(leaving, round, o)
  {
    var rest := votes - One(leaving);
    if leaving.Some? {
      CountOneMore(rest, leaving.value, round, o);
      assert rest + {leaving.value} == votes;
    } else {
      assert rest == votes;
    }
    if coming.Some? {
      CountOneMore(rest, coming.value, round, o);
    } else {
      assert rest + One(coming) == rest;
    }
  }

  lemma CountsMove(w: World, a: Action, round: RoundId, o: OptionId)
    requires WorldOk(w) && VotesOk(w)
    ensures Count(Votes(Apply(w, a).db.rows), round, o) == Count(Votes(w.db.rows), round, o) + Gain(w, a, round, o)
  {
    VotesMove(w, a);
    CountMoves(Votes(w.db.rows), Leaving(w, a), Coming(w, a), round, o);
  }

  // ----- the options a close has listed -----

  function Kept(xs: seq<Choice>, ys: seq<Choice>): seq<Choice> {
    if xs == [] then [] else (if xs[0] in ys then [xs[0]] else []) + Kept(xs[1..], ys)
  }

  function Omit(xs: seq<Choice>, o: OptionId): seq<Choice> {
    if xs == [] then [] else (if xs[0].id != o then [xs[0]] else []) + Omit(xs[1..], o)
  }

  /** `ys` is what became of the listing `xs`: some options went, others came behind. */
  ghost predicate Continues(xs: seq<Choice>, ys: seq<Choice>) {
    Kept(xs, ys) <= ys
  }

  lemma {:induction false} KeptAll(xs: seq<Choice>, ys: seq<Choice>)
    requires forall c :: c in xs ==> c in ys
    ensures Kept(xs, ys) == xs
  {
    if xs != [] { KeptAll(xs[1..], ys); }
  }

  lemma {:induction false} KeptSame(xs: seq<Choice>, ys: seq<Choice>, zs: seq<Choice>)
    requires forall c :: c in xs ==> (c in ys <==> c in zs)
    ensures Kept(xs, ys) == Kept(xs, zs)
  {
    if xs != [] { KeptSame(xs[1..], ys, zs); }
  }

  lemma ContinuesAppend(xs: seq<Choice>, ys: seq<Choice>, c: Choice)
    requires Continues(xs, ys) && c !in xs
    ensures Continues(xs, ys + [c])
  {
    KeptSame(xs, ys, ys + [c]);
  }

  lemma {:induction false} OmitHolds(xs: seq<Choice>, o: OptionId, c: Choice)
    ensures c in Omit(xs, o) <==> c in xs && c.id != o
  {
    if xs != [] {
      OmitHolds(xs[1..], o, c);
      assert xs == [xs[0]] + xs[1..];
    }
  }

  lemma {:induction false} OmitConcat(xs: seq<Choice>, ys: seq<Choice>, o: OptionId)
    ensures Omit(xs + ys, o) == Omit(xs, o) + Omit(ys, o)
  {
    if xs == [] {
      assert xs + ys == ys;
    } else {
      assert (xs + ys)[1..] == xs[1..] + ys;
      OmitConcat(xs[1..], ys, o);
    }
  }

  lemma {:induction false} KeptOmit(xs: seq<Choice>, ys: seq<Choice>, o: OptionId)
    ensures Kept(xs, Omit(ys, o)) == Omit(Kept(xs, ys), o)
  {
    if xs != [] {
      KeptOmit(xs[1..], ys, o);
      OmitHolds(ys, o, xs[0]);
      var first := if xs[0] in ys then [xs[0]] else [];
      OmitConcat(first, Kept(xs[1..], ys), o);
      assert first != [] ==> first[1..] == [];
    }
  }

  lemma ContinuesOmit(xs: seq<Choice>, ys: seq<Choice>, o: OptionId)
    requires Continues(xs, ys)
    ensures Continues(xs, Omit(ys, o))
  {
    KeptOmit(xs, ys, o);
    var kept := Kept(xs, ys);
    assert ys == kept + ys[|kept|..];
    OmitConcat(kept, ys[|kept|..], o);
  }

  lemma {:induction false} OmitNothing(xs: seq<Choice>, o: OptionId)
    requires forall c :: c in xs ==> c.id != o
    ensures Omit(xs, o) == xs
  {
    if xs != [] { OmitNothing(xs[1..], o); }
  }

  lemma {:induction false} DropIsOmit(options: seq<Choice>, o: OptionId)
    requires DistinctIds(options)
    ensures DropOption(options, o) == Omit(options, o)
  {
    if options != [] {
      if options[0].id == o {
        assert forall c :: c in options[1..] ==> c.id != options[0].id;
        OmitNothing(options[1..], o);
      } else {
        DropIsOmit(options[1..], o);
      }
    }
  }

  lemma OptionsFirst(c: Choice, rest: seq<Choice>, round: RoundId)
    ensures OptionsOf([c] + rest, round) == (if c.round == round then [c] else []) + OptionsOf(rest, round)
  {
    assert ([c] + rest)[1..] == rest;
  }

  lemma OmitFirst(c: Choice, rest: seq<Choice>, o: OptionId)
    ensures Omit([c] + rest, o) == (if c.id != o then [c] else []) + Omit(rest, o)
  {
    assert ([c] + rest)[1..] == rest;
  }

  lemma {:induction false} OptionsOmit(options: seq<Choice>, o: OptionId, round: RoundId)
    ensures OptionsOf(Omit(options, o), round) == Omit(OptionsOf(options, round), o)
  {
    if options != [] {
      var c, rest := options[0], options[1..];
      OptionsOmit(rest, o, round);
      OptionsFirst(c, Omit(rest, o), round);
      OmitFirst(c, OptionsOf(rest, round), o);
      assert Omit(options, o) == if c.id != o then [c] + Omit(rest, o) else Omit(rest, o);
      assert OptionsOf(options, round) == if c.round == round then [c] + OptionsOf(rest, round) else OptionsOf(rest, round);
      assert [] + Omit(OptionsOf(rest, round), o) == Omit(OptionsOf(rest, round), o);
    }
  }

  /** The request that adds option `o` is over. */
  ghost predicate Placed(w: World, o: OptionId) {
    o in w.home && w.home[o].adder in w.requests && w.requests[w.home[o].adder].phase.Done?
  }

  ghost predicate ListFacts(w: World, r: Request) {
    r.phase.ReadCounts? ==>
      && Continues(r.listed, OptionsOf(w.db.options, r.round))
      && (forall c :: c in r.listed ==> Placed(w, c.id))
      && (forall x, y :: x in r.listed && y in w.db.options && x.id == y.id ==> x == y)
      && DistinctIds(r.listed)
  }

  ghost predicate AddFacts(w: World, id: RequestId)
    requires id in w.requests
  {
    var r := w.requests[id];
    r.call.Add? && !r.phase.Done? ==> r.call.choice.id in w.home && w.home[r.call.choice.id].adder == id
  }

  ghost predicate ListsOk(w: World) {
    && (forall c :: c in w.db.options ==> Placed(w, c.id))
    && (forall id :: id in w.requests ==> AddFacts(w, id) && ListFacts(w, w.requests[id]))
  }

  lemma PlacedStays(w: World, a: Action, o: OptionId)
    requires Placed(w, o)
    ensures Placed(Apply(w, a), o)
  {
  }

  lemma SameListFacts(w: World, a: Action, r: Request)
    requires ListFacts(w, r) && Apply(w, a).db.options == w.db.options
    ensures ListFacts(Apply(w, a), r)
  {
    forall c | c in r.listed && r.phase.ReadCounts? ensures Placed(Apply(w, a), c.id) { PlacedStays(w, a, c.id); }
  }

  lemma ReadListFacts(w: World, r: Request)
    requires WorldOk(w) && ListsOk(w) && ListFacts(w, r) && r.phase != Commit
    ensures ListFacts(w, Read(w.db, r))
  {
    if r.phase == ReadOptions {
      var listed := OptionsOf(w.db.options, r.round);
      KeptAll(listed, listed);
      OptionsOfDistinct(w.db.options, r.round);
      forall x, y | x in listed && y in w.db.options && x.id == y.id ensures x == y {
        FoundIs(w.db.options, x);
        FoundIs(w.db.options, y);
      }
    }
  }

  lemma AddedListFacts(w: World, a: Action, r: Request)
    requires WorldOk(w) && ListsOk(w) && ListFacts(w, r) && CommitsNext(w, a) && w.requests[a.id].call.Add?
    ensures ListFacts(Apply(w, a), r)
  {
    var add, w' := w.requests[a.id], Apply(w, a);
    assert AddFacts(w, a.id);
    var c := add.call.choice.(round := add.call.round);
    assert !Placed(w, c.id);
    assert w'.db.options == w.db.options + [c];
    if r.phase.ReadCounts? {
      forall x | x in r.listed ensures Placed(w', x.id) && x.id != c.id { PlacedStays(w, a, x.id); }
      ContinuesWith(r.listed, w.db.options, c, r.round);
    }
  }

  lemma ContinuesWith(listed: seq<Choice>, options: seq<Choice>, c: Choice, round: RoundId)
    requires Continues(listed, OptionsOf(options, round)) && forall x :: x in listed ==> x.id != c.id
    ensures Continues(listed, OptionsOf(options + [c], round))
  {
    OptionsAppend(options, c, round);
    if c.round == round {
      ContinuesAppend(listed, OptionsOf(options, round), c);
    } else {
      assert OptionsOf(options, round) + [] == OptionsOf(options, round);
    }
  }

  lemma RemovedListFacts(w: World, a: Action, r: Request)
    requires WorldOk(w) && ListsOk(w) && ListFacts(w, r) && CommitsNext(w, a) && w.requests[a.id].call.Remove?
    ensures ListFacts(Apply(w, a), r)
  {
    var o, w' := w.requests[a.id].call.option, Apply(w, a);
    if r.phase.ReadCounts? {
      DropIsOmit(w.db.options, o);
      OptionsOmit(w.db.options, o, r.round);
      ContinuesOmit(r.listed, OptionsOf(w.db.options, r.round), o);
      Dropped(w.db.options, o);
      forall x | x in r.listed ensures Placed(w', x.id) { PlacedStays(w, a, x.id); }
    }
  }

  lemma ListFactsKept(w: World, a: Action, r: Request)
    requires WorldOk(w) && ListsOk(w) && ListFacts(w, r)
    ensures ListFacts(Apply(w, a), r)
  {
    if CommitsNext(w, a) && w.requests[a.id].call.Add? {
      AddedListFacts(w, a, r);
    } else if CommitsNext(w, a) && w.requests[a.id].call.Remove? {
      RemovedListFacts(w, a, r);
    } else {
      SameListFacts(w, a, r);
    }
  }

  lemma OptionsPlaced(w: World, a: Action, c: Choice)
    requires WorldOk(w) && ListsOk(w) && c in Apply(w, a).db.options
    ensures Placed(Apply(w, a), c.id)
  {
    if c in w.db.options {
      PlacedStays(w, a, c.id);
    } else {
      assert CommitsNext(w, a);
      assert AddFacts(w, a.id);
      if w.requests[a.id].call.Remove? { Dropped(w.db.options, w.requests[a.id].call.option); }
    }
  }

  lemma ApplyKeepsLists(w: World, a: Action)
    requires WorldOk(w) && ListsOk(w)
    ensures ListsOk(Apply(w, a))
  {
    var w' := Apply(w, a);
    forall c | c in w'.db.options ensures Placed(w', c.id) { OptionsPlaced(w, a, c); }
    forall id | id in w'.requests ensures AddFacts(w', id) && ListFacts(w', w'.requests[id]) {
      RequestKeepsLists(w, a, id);
    }
  }

  lemma AddKept(w: World, a: Action, id: RequestId)
    requires ListsOk(w) && id in Apply(w, a).requests
    ensures AddFacts(Apply(w, a), id)
  {
    if id in w.requests { assert AddFacts(w, id); }
  }

  lemma MoverKeepsLists(w: World, id: RequestId)
    requires WorldOk(w) && ListsOk(w) && id in w.requests
    ensures ListFacts(Apply(w, Advance(id)), Apply(w, Advance(id)).requests[id])
  {
    var r := w.requests[id];
    if r.phase != Commit {
      ReadListFacts(w, r);
      ListFactsKept(w, Advance(id), Read(w.db, r));
    }
  }

  lemma StandsOrEnds(w: World, a: Action, id: RequestId)
    requires id in Apply(w, a).requests && a != Advance(id)
    ensures var r' := Apply(w, a).requests[id];
      if id in w.requests then r' == w.requests[id] || r'.phase.Done? else !r'.phase.ReadCounts?
  {
  }

  lemma RequestKeepsLists(w: World, a: Action, id: RequestId)
    requires WorldOk(w) && ListsOk(w) && id in Apply(w, a).requests
    ensures AddFacts(Apply(w, a), id) && ListFacts(Apply(w, a), Apply(w, a).requests[id])
  {
    AddKept(w, a, id);
    if a == Advance(id) {
      if id in w.requests { MoverKeepsLists(w, id); }
    } else {
      StandsOrEnds(w, a, id);
      if id in w.requests { ListFactsKept(w, a, w.requests[id]); }
    }
  }
}
