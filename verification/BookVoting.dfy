/** Book voting rounds (app/services/book_vote_service.py with app/repositories/book_vote.py). The caller's
    membership row in the club is an argument of each service. */
module BookVoting {
  import opened Common

  type ClubId = nat
  type RoundId = nat
  type OptionId = nat
  type UserId = nat

  datatype Role = Member | Organizer
  datatype Round = Round(club: ClubId, open: bool, winner: Option<OptionId>)
  datatype Choice = Choice(id: OptionId, round: RoundId, title: string, author: Option<string>)
  datatype Vote = Vote(round: RoundId, option: OptionId, user: UserId)

  /** `options` is in order of creation. */
  datatype Store = Store(rounds: map<RoundId, Round>, options: seq<Choice>, votes: set<Vote>)

  datatype Outcome = Answered | Forbidden | RoundNotFound | OptionNotFound | RoundClosed | OptionHasVotes

  // ----- queries -----

  ghost predicate DistinctIds(options: seq<Choice>) {
    forall i, j :: 0 <= i < j < |options| ==> options[i].id != options[j].id
  }

  ghost predicate OptionOf(s: Store, o: OptionId, round: RoundId) {
    exists i :: 0 <= i < |s.options| && s.options[i].id == o && s.options[i].round == round
  }

  /** get_option: ids are primary keys, so the first match is the row. */
  function FindOption(options: seq<Choice>, o: OptionId): (r: Option<Choice>)
    ensures r.Some? ==> r.value in options && r.value.id == o
    ensures r.None? ==> forall i :: 0 <= i < |options| ==> options[i].id != o
  {
    if options == [] then None
    else if options[0].id == o then Some(options[0]) else FindOption(options[1..], o)
  }

  /** get_options: the round's options in order of creation. */
  function OptionsOf(options: seq<Choice>, round: RoundId): (r: seq<Choice>)
    ensures forall c :: c in r <==> c in options && c.round == round
  {
    if options == [] then []
    else if options[0].round == round then [options[0]] + OptionsOf(options[1..], round)
    else OptionsOf(options[1..], round)
  }

  function Count(votes: set<Vote>, round: RoundId, o: OptionId): nat {
    |set v | v in votes && v.round == round && v.option == o|
  }

  /** The sum of the grouped counts: every vote of the round is in one group. */
  function TotalVotes(votes: set<Vote>, round: RoundId): nat {
    |set v | v in votes && v.round == round|
  }

  function SumCounts(votes: set<Vote>, round: RoundId, options: seq<Choice>): nat {
    if options == [] then 0 else Count(votes, round, options[0].id) + SumCounts(votes, round, options[1..])
  }

  ghost function UserVote(s: Store, round: RoundId, u: UserId): set<Vote> {
    set v | v in s.votes && v.round == round && v.user == u
  }

  /** max with a key keeps the first of equal items. */
  function Winner(votes: set<Vote>, round: RoundId, options: seq<Choice>): (w: Choice)
    requires options != []
    ensures w in options
  {
    var front, last := options[..|options| - 1], options[|options| - 1];
    if front == [] then last
    else
      var best := Winner(votes, round, front);
      if Count(votes, round, last.id) > Count(votes, round, best.id) then last else best
  }

  // ----- services -----

  /** The round of an option when both belong to the club. */
  function RoundOfOption(s: Store, club: ClubId, o: OptionId): (Outcome, RoundId) {
    match FindOption(s.options, o)
    case None => (OptionNotFound, 0)
    case Some(c) =>
      if c.round !in s.rounds || s.rounds[c.round].club != club then (RoundNotFound, 0) else (Answered, c.round)
  }

  function CreateRound(s: Store, club: ClubId, role: Option<Role>, id: RoundId): (Store, Outcome) {
    if role != Some(Organizer) then (s, Forbidden)
    else (s.(rounds := s.rounds[id := Round(club, true, None)]), Answered)
  }

  function AddOption(s: Store, club: ClubId, role: Option<Role>, round: RoundId, c: Choice): (Store, Outcome) {
    if role != Some(Organizer) then (s, Forbidden)
    else if round !in s.rounds || s.rounds[round].club != club then (s, RoundNotFound)
    else if !s.rounds[round].open then (s, RoundClosed)
    else (s.(options := s.options + [c.(round := round)]), Answered)
  }

  function DropOption(options: seq<Choice>, o: OptionId): seq<Choice> {
    if options == [] then [] else if options[0].id == o then options[1..] else [options[0]] + DropOption(options[1..], o)
  }

  function RemoveOption(s: Store, club: ClubId, role: Option<Role>, o: OptionId): (Store, Outcome) {
    if role != Some(Organizer) then (s, Forbidden)
    else
      var (found, round) := RoundOfOption(s, club, o);
      if found != Answered then (s, found)
      else if !s.rounds[round].open then (s, RoundClosed)
      else if exists v :: v in s.votes && v.option == o then (s, OptionHasVotes)
      else (s.(options := DropOption(s.options, o)), Answered)
  }

  /** The user's earlier vote in the round, if any, gives way to the new one. */
  function CastVote(s: Store, club: ClubId, role: Option<Role>, o: OptionId, u: UserId): (Store, Outcome) {
    if role.None? then (s, Forbidden)
    else
      var (found, round) := RoundOfOption(s, club, o);
      if found != Answered then (s, found)
      else if !s.rounds[round].open then (s, RoundClosed)
      else
        var others := set v | v in s.votes && !(v.round == round && v.user == u);
        (s.(votes := others + {Vote(round, o, u)}), Answered)
  }

  /** Taking a vote back does not look at the round's status. */
  function Unvote(s: Store, club: ClubId, role: Option<Role>, o: OptionId, u: UserId): (Store, Outcome) {
    if role.None? then (s, Forbidden)
    else
      var (found, round) := RoundOfOption(s, club, o);
      if found != Answered then (s, found)
      else (s.(votes := s.votes - {Vote(round, o, u)}), Answered)
  }

  function CloseRound(s: Store, club: ClubId, role: Option<Role>, round: RoundId): (Store, Outcome) {
    if role != Some(Organizer) then (s, Forbidden)
    else if round !in s.rounds || s.rounds[round].club != club then (s, RoundNotFound)
    else if !s.rounds[round].open then (s, Answered)
    else
      var options := OptionsOf(s.options, round);
      var winner := if options == [] then None else Some(Winner(s.votes, round, options).id);
      (s.(rounds := s.rounds[round := Round(club, false, winner)]), Answered)
  }

  // ----- the invariant -----

  /** One vote per user and round, each for an option of its round. */
  ghost predicate RowsOk(s: Store) {
    && DistinctIds(s.options)
    && (forall c :: c in s.options ==> c.round in s.rounds)
    && (forall v, w :: v in s.votes && w in s.votes && v.round == w.round && v.user == w.user ==> v == w)
    && (forall v :: v in s.votes ==> OptionOf(s, v.option, v.round))
    && (forall r :: r in s.rounds && s.rounds[r].open ==> s.rounds[r].winner.None?)
  }

  /** A winner is one of its round's options. */
  ghost predicate WinnersListed(s: Store) {
    forall r :: r in s.rounds && s.rounds[r].winner.Some? ==> OptionOf(s, s.rounds[r].winner.value, r)
  }

  ghost predicate Inv(s: Store) {
    RowsOk(s) && WinnersListed(s)
  }

  datatype Call =
    | Create(club: ClubId, role: Option<Role>, id: RoundId)
    | Add(club: ClubId, role: Option<Role>, round: RoundId, choice: Choice)
    | Remove(club: ClubId, role: Option<Role>, option: OptionId)
    | Cast(club: ClubId, role: Option<Role>, option: OptionId, user: UserId)
    | TakeBack(club: ClubId, role: Option<Role>, option: OptionId, user: UserId)
    | Close(club: ClubId, role: Option<Role>, round: RoundId)

  function Perform(s: Store, c: Call): Store {
    match c
    case Create(club, role, id) => CreateRound(s, club, role, id).0
    case Add(club, role, round, choice) => AddOption(s, club, role, round, choice).0
    case Remove(club, role, o) => RemoveOption(s, club, role, o).0
    case Cast(club, role, o, u) => CastVote(s, club, role, o, u).0
    case TakeBack(club, role, o, u) => Unvote(s, club, role, o, u).0
    case Close(club, role, round) => CloseRound(s, club, role, round).0
  }

  /** What the caller is told. */
  function Answer(s: Store, c: Call): Outcome {
    match c
    case Create(club, role, id) => CreateRound(s, club, role, id).1
    case Add(club, role, round, choice) => AddOption(s, club, role, round, choice).1
    case Remove(club, role, o) => RemoveOption(s, club, role, o).1
    case Cast(club, role, o, u) => CastVote(s, club, role, o, u).1
    case TakeBack(club, role, o, u) => Unvote(s, club, role, o, u).1
    case Close(club, role, round) => CloseRound(s, club, role, round).1
  }

  /** New rounds and options get ids never used before. */
  ghost predicate Fresh(s: Store, c: Call) {
    match c
    case Create(_, _, id) => id !in s.rounds
    case Add(_, _, _, choice) => forall i :: 0 <= i < |s.options| ==> s.options[i].id != choice.id
    case _ => true
  }

  lemma AddKeepsInv(s: Store, c: Call)
    requires Inv(s) && Fresh(s, c) && c.Add?
    ensures Inv(Perform(s, c))
  {
    var s' := Perform(s, c);
    if s' != s {
      forall o, r | OptionOf(s, o, r) ensures OptionOf(s', o, r) {
        var i :| 0 <= i < |s.options| && s.options[i].id == o && s.options[i].round == r;
        assert s'.options[i] == s.options[i];
      }
    }
  }

  lemma {:induction false} DroppedHolds(options: seq<Choice>, o: OptionId, c: Choice)
    requires DistinctIds(options)
    ensures c in DropOption(options, o) <==> c in options && c.id != o
  {
    if options != [] {
      var rest := options[1..];
      assert options == [options[0]] + rest;
      if options[0].id == o {
        assert c in rest ==> c.id != options[0].id;
      } else {
        DroppedHolds(rest, o, c);
      }
    }
  }

  lemma {:induction false} DroppedDistinct(options: seq<Choice>, o: OptionId)
    requires DistinctIds(options)
    ensures DistinctIds(DropOption(options, o))
  {
    if options != [] && options[0].id != o {
      var dropped := DropOption(options[1..], o);
      DroppedDistinct(options[1..], o);
      forall i | 0 <= i < |dropped| ensures dropped[i].id != options[0].id {
        DroppedHolds(options[1..], o, dropped[i]);
      }
    }
  }

  lemma Dropped(options: seq<Choice>, o: OptionId)
    requires DistinctIds(options)
    ensures var r := DropOption(options, o);
      && DistinctIds(r)
      && (forall c :: c in r <==> c in options && c.id != o)
  {
    DroppedDistinct(options, o);
    forall c ensures c in DropOption(options, o) <==> c in options && c.id != o {
      DroppedHolds(options, o, c);
    }
  }

  /** An option without votes goes; the options of closed rounds cannot be removed, so winners stay. */
  lemma RemoveKeepsInv(s: Store, c: Call)
    requires Inv(s) && c.Remove?
    ensures Inv(Perform(s, c))
  {
    var s' := Perform(s, c);
    if s' != s {
      Dropped(s.options, c.option);
      var row := FindOption(s.options, c.option).value;
      forall o, r | OptionOf(s, o, r) && o != c.option ensures OptionOf(s', o, r) {
        var i :| 0 <= i < |s.options| && s.options[i].id == o && s.options[i].round == r;
        assert s.options[i] in s'.options;
      }
      forall r | r in s.rounds && s.rounds[r].winner.Some? ensures s.rounds[r].winner.value != c.option {
        var w := s.rounds[r].winner.value;
        assert OptionOf(s, w, r);
      }
    }
  }

  lemma CallKeepsInv(s: Store, c: Call)
    requires Inv(s) && Fresh(s, c)
    ensures Inv(Perform(s, c))
  {
    match c
    case Add(_, _, _, _) => AddKeepsInv(s, c);
    case Remove(_, _, _) => RemoveKeepsInv(s, c);
    case _ =>
  }

  function PerformAll(s: Store, calls: seq<Call>): Store
    decreases |calls|
  {
    if calls == [] then s else PerformAll(Perform(s, calls[0]), calls[1..])
  }

  ghost predicate FreshRun(s: Store, calls: seq<Call>)
    decreases |calls|
  {
    calls == [] || (Fresh(s, calls[0]) && FreshRun(Perform(s, calls[0]), calls[1..]))
  }

  lemma {:induction false} RunKeepsInv(s: Store, calls: seq<Call>)
    requires Inv(s) && FreshRun(s, calls)
    ensures Inv(PerformAll(s, calls))
    decreases |calls|
  {
    if calls != [] {
      CallKeepsInv(s, calls[0]);
      RunKeepsInv(Perform(s, calls[0]), calls[1..]);
    }
  }

  /** Once closed, a round keeps its status and winner through every run, and the winner stays one of its options. */
  lemma {:induction false} ClosedRoundIsFinal(s: Store, calls: seq<Call>, round: RoundId)
    requires Inv(s) && FreshRun(s, calls) && round in s.rounds && !s.rounds[round].open
    ensures var s' := PerformAll(s, calls);
      && round in s'.rounds && s'.rounds[round] == s.rounds[round]
      && (s.rounds[round].winner.Some? ==> OptionOf(s', s.rounds[round].winner.value, round))
    decreases |calls|
  {
    if calls != [] {
      var s1 := Perform(s, calls[0]);
      CallKeepsInv(s, calls[0]);
      assert s1.rounds[round] == s.rounds[round];
      ClosedRoundIsFinal(s1, calls[1..], round);
    }
  }

  // ----- totals -----

  ghost predicate Lists(options: seq<Choice>, o: OptionId) {
    exists i :: 0 <= i < |options| && options[i].id == o
  }

  ghost function VotesFor(votes: set<Vote>, round: RoundId, options: seq<Choice>): set<Vote> {
    set v | v in votes && v.round == round && Lists(options, v.option)
  }

  lemma VotesForFirst(votes: set<Vote>, round: RoundId, options: seq<Choice>)
    requires options != [] && DistinctIds(options)
    ensures var first := set v | v in votes && v.round == round && v.option == options[0].id;
      var rest := VotesFor(votes, round, options[1..]);
      VotesFor(votes, round, options) == first + rest && first !! rest
  {
    forall o ensures Lists(options, o) <==> options[0].id == o || Lists(options[1..], o) {
    }
    assert !Lists(options[1..], options[0].id);
  }

  lemma {:induction false} SumIsVotesFor(votes: set<Vote>, round: RoundId, options: seq<Choice>)
    requires DistinctIds(options)
    ensures SumCounts(votes, round, options) == |VotesFor(votes, round, options)|
  {
    if options == [] {
      assert VotesFor(votes, round, options) == {};
    } else {
      SumIsVotesFor(votes, round, options[1..]);
      VotesForFirst(votes, round, options);
    }
  }

  lemma {:induction false} OptionsOfDistinct(options: seq<Choice>, round: RoundId)
    requires DistinctIds(options)
    ensures DistinctIds(OptionsOf(options, round))
  {
    if options != [] {
      OptionsOfDistinct(options[1..], round);
      var rest := OptionsOf(options[1..], round);
      assert forall c :: c in rest ==> c in options[1..] && c.id != options[0].id;
    }
  }

  /** The reported total is the sum of the counts of the listed options. */
  lemma TotalIsSum(s: Store, round: RoundId)
    requires RowsOk(s)
    ensures TotalVotes(s.votes, round) == SumCounts(s.votes, round, OptionsOf(s.options, round))
  {
    var listed := OptionsOf(s.options, round);
    OptionsOfDistinct(s.options, round);
    SumIsVotesFor(s.votes, round, listed);
    forall v | v in s.votes && v.round == round
      ensures Lists(listed, v.option)
    {
      assert OptionOf(s, v.option, round);
      var i :| 0 <= i < |s.options| && s.options[i].id == v.option && s.options[i].round == round;
      assert s.options[i] in listed;
    }
    assert VotesFor(s.votes, round, listed) == set v | v in s.votes && v.round == round;
  }

  lemma {:induction false} WinnerIsFirstMax(votes: set<Vote>, round: RoundId, options: seq<Choice>) returns (k: nat)
    requires options != []
    ensures k < |options| && Winner(votes, round, options) == options[k]
    ensures forall i :: 0 <= i < |options| ==> Count(votes, round, options[i].id) <= Count(votes, round, options[k].id)
    ensures forall i :: 0 <= i < k ==> Count(votes, round, options[i].id) < Count(votes, round, options[k].id)
    decreases |options|
  {
    var n := |options| - 1;
    if n == 0 {
      k := 0;
    } else {
      var front := options[..n];
      k := WinnerIsFirstMax(votes, round, front);
      assert forall i :: 0 <= i < n ==> front[i] == options[i];
      if Count(votes, round, options[n].id) > Count(votes, round, options[k].id) {
        k := n;
      }
    }
  }

  /** At closing the winner has the most votes, and of several such options it is the one created first. */
  lemma ClosingPicksFirstMaximum(s: Store, club: ClubId, role: Option<Role>, round: RoundId) returns (k: nat)
    requires round in s.rounds && s.rounds[round].club == club && s.rounds[round].open && role == Some(Organizer)
    requires OptionsOf(s.options, round) != []
    ensures var options := OptionsOf(s.options, round);
      && k < |options|
      && CloseRound(s, club, role, round).0.rounds[round].winner == Some(options[k].id)
      && (forall i :: 0 <= i < |options| ==> Count(s.votes, round, options[i].id) <= Count(s.votes, round, options[k].id))
      && (forall i :: 0 <= i < k ==> Count(s.votes, round, options[i].id) < Count(s.votes, round, options[k].id))
  {
    k := WinnerIsFirstMax(s.votes, round, OptionsOf(s.options, round));
  }

  /** Casting a vote: a first vote raises one count by one, a vote for the same option changes nothing, and a
      move takes one from the old option's count and adds one to the new option's. Other rounds are untouched. */
  lemma CastEffect(s: Store, club: ClubId, role: Option<Role>, o: OptionId, u: UserId, round: RoundId)
    requires Inv(s) && CastVote(s, club, role, o, u).1 == Answered
    requires RoundOfOption(s, club, o) == (Answered, round)
    ensures var s' := CastVote(s, club, role, o, u).0;
      && (UserVote(s, round, u) == {} ==>
            && TotalVotes(s'.votes, round) == TotalVotes(s.votes, round) + 1
            && Count(s'.votes, round, o) == Count(s.votes, round, o) + 1
            && (forall p :: p != o ==> Count(s'.votes, round, p) == Count(s.votes, round, p)))
      && (Vote(round, o, u) in s.votes ==> s'.votes == s.votes)
      && (forall before :: before != o && Vote(round, before, u) in s.votes ==>
            && TotalVotes(s'.votes, round) == TotalVotes(s.votes, round)
            && Count(s'.votes, round, o) == Count(s.votes, round, o) + 1
            && Count(s'.votes, round, before) == Count(s.votes, round, before) - 1
            && (forall p :: p != o && p != before ==> Count(s'.votes, round, p) == Count(s.votes, round, p)))
      && (forall r, p :: r != round ==> Count(s'.votes, r, p) == Count(s.votes, r, p))
  {
    var s' := CastVote(s, club, role, o, u).0;
    if Vote(round, o, u) in s.votes {
      assert s'.votes == s.votes;
      assert Vote(round, o, u) in UserVote(s, round, u);
    } else if UserVote(s, round, u) == {} {
      assert forall v :: v in s.votes ==> v !in UserVote(s, round, u);
      assert s'.votes == s.votes + {Vote(round, o, u)};
      CountPlus(s.votes, Vote(round, o, u));
    } else {
      var gone :| gone in UserVote(s, round, u);
      assert s'.votes == s.votes - {gone} + {Vote(round, o, u)};
      CountPlus(s.votes - {gone}, gone);
      assert s.votes - {gone} + {gone} == s.votes;
      CountPlus(s.votes - {gone}, Vote(round, o, u));
    }
  }

  lemma CountPlus(votes: set<Vote>, v: Vote)
    requires v !in votes
    ensures TotalVotes(votes + {v}, v.round) == TotalVotes(votes, v.round) + 1
    ensures forall r, p :: Count(votes + {v}, r, p) == Count(votes, r, p) + if r == v.round && p == v.option then 1 else 0
  {
    assert (set x | x in votes + {v} && x.round == v.round) == (set x | x in votes && x.round == v.round) + {v};
    forall r, p ensures Count(votes + {v}, r, p) == Count(votes, r, p) + if r == v.round && p == v.option then 1 else 0 {
      CountOneMore(votes, v, r, p);
    }
  }

  lemma CountOneMore(votes: set<Vote>, v: Vote, r: RoundId, p: OptionId)
    requires v !in votes
    ensures Count(votes + {v}, r, p) == Count(votes, r, p) + if r == v.round && p == v.option then 1 else 0
  {
    var before := set x | x in votes && x.round == r && x.option == p;
    var after := set x | x in votes + {v} && x.round == r && x.option == p;
    assert after == if r == v.round && p == v.option then before + {v} else before;
  }

  /** A vote can be taken back after the round is closed: its count drops and the winner stays. */
  lemma UnvoteAfterClose(s: Store, club: ClubId, role: Option<Role>, o: OptionId, u: UserId, round: RoundId)
    requires Inv(s) && role.Some? && RoundOfOption(s, club, o) == (Answered, round)
    requires !s.rounds[round].open && Vote(round, o, u) in s.votes
    ensures var s' := Unvote(s, club, role, o, u).0;
      && Count(s'.votes, round, o) == Count(s.votes, round, o) - 1
      && TotalVotes(s'.votes, round) == TotalVotes(s.votes, round) - 1
      && s'.rounds == s.rounds
  {
    var s' := Unvote(s, club, role, o, u).0;
    CountPlus(s'.votes, Vote(round, o, u));
    assert s'.votes + {Vote(round, o, u)} == s.votes;
  }

  // ----- votes of closed rounds -----

  ghost function VotesIn(s: Store, round: RoundId): set<Vote> {
    set v | v in s.votes && v.round == round
  }

  /** Call `c` is a member's, taking back a vote that is there. */
  ghost predicate TakesBack(s: Store, c: Call, round: RoundId) {
    && c.TakeBack? && c.role.Some?
    && RoundOfOption(s, c.club, c.option) == (Answered, round)
    && Vote(round, c.option, c.user) in s.votes
  }

  /** The votes of a closed round change exactly by a member's taking back a vote. */
  lemma ClosedVotesChange(s: Store, c: Call, round: RoundId)
    requires round in s.rounds && !s.rounds[round].open
    ensures VotesIn(Perform(s, c), round) != VotesIn(s, round) <==> TakesBack(s, c, round)
  {
    var s' := Perform(s, c);
    if TakesBack(s, c, round) {
      var v := Vote(round, c.option, c.user);
      assert v in VotesIn(s, round) && v !in VotesIn(s', round);
    } else {
      forall v: Vote | v.round == round ensures v in s'.votes <==> v in s.votes {
      }
    }
  }

  ghost predicate Most(votes: set<Vote>, round: RoundId, options: seq<Choice>, w: OptionId) {
    forall c :: c in options ==> Count(votes, round, c.id) <= Count(votes, round, w)
  }

  /** No option of the round has more votes than `w`. */
  ghost predicate Leads(s: Store, round: RoundId, w: OptionId) {
    Most(s.votes, round, OptionsOf(s.options, round), w)
  }

  /** The other options all have fewer votes than `w`. */
  ghost predicate LeadsAlone(s: Store, round: RoundId, w: OptionId) {
    forall c :: c in OptionsOf(s.options, round) && c.id != w ==> Count(s.votes, round, c.id) < Count(s.votes, round, w)
  }

  lemma MostWithout(votes: set<Vote>, gone: Vote, options: seq<Choice>, w: OptionId)
    requires gone !in votes && Most(votes + {gone}, gone.round, options, w)
    ensures Most(votes, gone.round, options, w) <==>
      (gone.option == w ==> forall c :: c in options && c.id != w ==>
        Count(votes + {gone}, gone.round, c.id) < Count(votes + {gone}, gone.round, w))
  {
    CountPlus(votes, gone);
  }

  /** A closed round's winner that leads stops leading exactly when a vote for it is taken back and it did not lead
      alone. */
  lemma WinnerStopsLeading(s: Store, c: Call, round: RoundId, w: OptionId)
    requires round in s.rounds && !s.rounds[round].open && s.rounds[round].winner == Some(w)
    requires Leads(s, round, w)
    ensures Leads(Perform(s, c), round, w) <==> !(TakesBack(s, c, round) && c.option == w && !LeadsAlone(s, round, w))
  {
    var s' := Perform(s, c);
    ClosedOptions(s, c, round);
    if TakesBack(s, c, round) {
      var gone := Vote(round, c.option, c.user);
      assert s'.votes + {gone} == s.votes;
      MostWithout(s'.votes, gone, OptionsOf(s.options, round), w);
    } else {
      ClosedVotesChange(s, c, round);
      SameMost(s.votes, s'.votes, round, OptionsOf(s.options, round), w);
    }
  }

  lemma SameMost(votes: set<Vote>, votes': set<Vote>, round: RoundId, options: seq<Choice>, w: OptionId)
    requires (set v | v in votes && v.round == round) == (set v | v in votes' && v.round == round)
    ensures Most(votes', round, options, w) <==> Most(votes, round, options, w)
  {
    forall o ensures Count(votes', round, o) == Count(votes, round, o) {
      SameCount(votes, votes', round, o);
    }
  }

  lemma SameCount(votes: set<Vote>, votes': set<Vote>, round: RoundId, o: OptionId)
    requires (set v | v in votes && v.round == round) == (set v | v in votes' && v.round == round)
    ensures Count(votes', round, o) == Count(votes, round, o)
  {
    var all := set v | v in votes && v.round == round;
    assert forall v :: v in votes && v.round == round <==> v in all;
    assert forall v :: v in votes' && v.round == round <==> v in all;
    assert (set v | v in votes' && v.round == round && v.option == o) == (set v | v in votes && v.round == round && v.option == o);
  }

  /** The options of a closed round stay. */
  lemma ClosedOptions(s: Store, c: Call, round: RoundId)
    requires round in s.rounds && !s.rounds[round].open
    ensures OptionsOf(Perform(s, c).options, round) == OptionsOf(s.options, round)
  {
    if c.Add? && Perform(s, c) != s {
      OptionsAppend(s.options, c.choice.(round := c.round), round);
    } else if c.Remove? && Perform(s, c) != s {
      var row := FindOption(s.options, c.option).value;
      OptionsDrop(s.options, c.option, round);
    }
  }

  lemma {:induction false} OptionsAppend(options: seq<Choice>, c: Choice, round: RoundId)
    ensures OptionsOf(options + [c], round) == OptionsOf(options, round) + if c.round == round then [c] else []
  {
    if options != [] {
      assert (options + [c])[1..] == options[1..] + [c];
      OptionsAppend(options[1..], c, round);
    } else {
      assert options + [c] == [c];
    }
  }

  lemma {:induction false} OptionsDrop(options: seq<Choice>, o: OptionId, round: RoundId)
    requires FindOption(options, o).Some? && FindOption(options, o).value.round != round
    ensures OptionsOf(DropOption(options, o), round) == OptionsOf(options, round)
  {
    if options[0].id != o {
      OptionsDrop(options[1..], o, round);
      assert ([options[0]] + DropOption(options[1..], o))[1..] == DropOption(options[1..], o);
    }
  }

  /** Two options with one vote each: the first wins, and its voter takes the vote back. */
  const UPSET: seq<Call> := [
    Create(0, Some(Organizer), 0),
    Add(0, Some(Organizer), 0, Choice(1, 0, "first", None)),
    Add(0, Some(Organizer), 0, Choice(2, 0, "second", None)),
    Cast(0, Some(Member), 1, 10),
    Cast(0, Some(Member), 2, 20),
    Close(0, Some(Organizer), 0),
    TakeBack(0, Some(Member), 1, 10)]

  /** The rows after the first `k` calls. */
  function UpsetState(k: nat): Store {
    var first, second := Choice(1, 0, "first", None), Choice(2, 0, "second", None);
    var one, two := Vote(0, 1, 10), Vote(0, 2, 20);
    Store(if k == 0 then map[] else if k <= 5 then map[0 := Round(0, true, None)] else map[0 := Round(0, false, Some(1))],
          if k <= 1 then [] else if k == 2 then [first] else [first, second],
          if k <= 3 then {} else if k == 4 then {one} else if k <= 6 then {one, two} else {two})
  }

  lemma UpsetVotes(k: nat)
    requires 3 <= k < 7 && k != 5
    ensures Perform(UpsetState(k), UPSET[k]) == UpsetState(k + 1)
  {
    var s := UpsetState(k);
    assert s.options[1..][0] == s.options[1];
    assert FindOption(s.options, UPSET[k].option) == Some(if k == 4 then s.options[1] else s.options[0]);
    var round, o, u := 0, UPSET[k].option, UPSET[k].user;
    if k == 6 {
      assert s.votes - {Vote(0, 1, 10)} == {Vote(0, 2, 20)};
    } else {
      assert (set v | v in s.votes && !(v.round == round && v.user == u)) == s.votes;
    }
  }

  lemma UpsetCloses()
    ensures Perform(UpsetState(5), UPSET[5]) == UpsetState(6)
  {
    var s := UpsetState(5);
    var last := s.options[1..];
    assert last == [s.options[1]] && last[1..] == [];
    assert OptionsOf(last, 0) == last;
    assert OptionsOf(s.options, 0) == s.options;
    UpsetCounts();
    assert s.options[..1] == [s.options[0]];
    assert Winner(s.votes, 0, s.options) == s.options[0];
  }

  lemma UpsetCounts()
    ensures Count({Vote(0, 1, 10), Vote(0, 2, 20)}, 0, 1) == Count({Vote(0, 1, 10), Vote(0, 2, 20)}, 0, 2) == 1
    ensures Count({Vote(0, 2, 20)}, 0, 1) == 0 && Count({Vote(0, 2, 20)}, 0, 2) == 1
  {
    var both, two := {Vote(0, 1, 10), Vote(0, 2, 20)}, {Vote(0, 2, 20)};
    assert (set v | v in both && v.round == 0 && v.option == 1) == {Vote(0, 1, 10)};
    assert (set v | v in both && v.round == 0 && v.option == 2) == two;
    assert (set v | v in two && v.round == 0 && v.option == 1) == {};
    assert (set v | v in two && v.round == 0 && v.option == 2) == two;
  }

  lemma UpsetStep(k: nat)
    requires k < 7
    ensures Perform(UpsetState(k), UPSET[k]) == UpsetState(k + 1)
  {
    if k == 5 { UpsetCloses(); } else if k >= 3 { UpsetVotes(k); }
  }

  /** So a reachable closed round's winner need not lead. */
  lemma WinnerNeedNotLead()
    ensures var s := PerformAll(Store(map[], [], {}), UPSET);
      && 0 in s.rounds && s.rounds[0] == Round(0, false, Some(1))
      && !Leads(s, 0, 1)
  {
    var k := 0;
    while k < 7
      invariant 0 <= k <= 7 && |UPSET| == 7
      invariant PerformAll(UpsetState(k), UPSET[k..]) == PerformAll(UpsetState(0), UPSET)
    {
      UpsetStep(k);
      assert UPSET[k..][0] == UPSET[k] && UPSET[k..][1..] == UPSET[k + 1..];
      k := k + 1;
    }
    UpsetCounts();
    assert Choice(2, 0, "second", None) in OptionsOf(UpsetState(7).options, 0);
  }
}
