/** The voting services as methods that change the tables row by row (app/services/book_vote_service.py). */
module BookVotingService {
  import opened Common
  import opened BookVoting

  datatype OptionResponse = OptionResponse(id: OptionId, title: string, author: string, votes: nat, hasVoted: bool)
  datatype RoundResponse = RoundResponse(
    id: RoundId, club: ClubId, open: bool, total: nat, winner: Option<OptionId>, options: seq<OptionResponse>)

  ghost function SumVotes(options: seq<OptionResponse>): nat {
    if options == [] then 0 else SumVotes(options[..|options| - 1]) + options[|options| - 1].votes
  }

  ghost predicate Describes(e: OptionResponse, c: Choice, s: Store, u: UserId) {
    && e.id == c.id && e.title == c.title
    && e.author == (if c.author.Some? then c.author.value else "")
    && e.votes == Count(s.votes, c.round, c.id)
    && (e.hasVoted <==> Vote(c.round, c.id, u) in s.votes)
  }

  /** What a member is shown: the round's options in order with their counts, a total that is the sum of those
      counts, and a mark on the one option the member voted for. */
  ghost predicate ShowsRound(r: RoundResponse, s: Store, round: RoundId, u: UserId)
    requires round in s.rounds
  {
    var listed := OptionsOf(s.options, round);
    && r.id == round && r.club == s.rounds[round].club
    && r.open == s.rounds[round].open && r.winner == s.rounds[round].winner
    && |r.options| == |listed|
    && (forall i :: 0 <= i < |listed| ==> Describes(r.options[i], listed[i], s, u))
    && r.total == SumVotes(r.options)
    && r.total == TotalVotes(s.votes, round)
  }

  lemma {:induction false} SumCountsSplits(votes: set<Vote>, round: RoundId, options: seq<Choice>, c: Choice)
    ensures SumCounts(votes, round, options + [c]) == SumCounts(votes, round, options) + Count(votes, round, c.id)
  {
    if options != [] {
      assert (options + [c])[1..] == options[1..] + [c];
      SumCountsSplits(votes, round, options[1..], c);
    }
  }

  function Shown(votes: set<Vote>, round: RoundId, c: Choice, own: Option<Vote>): OptionResponse {
    OptionResponse(c.id, c.title, if c.author.Some? then c.author.value else "", Count(votes, round, c.id),
                   own.Some? && own.value.option == c.id)
  }

  method Entries(votes: set<Vote>, round: RoundId, listed: seq<Choice>, own: Option<Vote>)
    returns (entries: seq<OptionResponse>)
    ensures |entries| == |listed| && forall k :: 0 <= k < |listed| ==> entries[k] == Shown(votes, round, listed[k], own)
    ensures SumVotes(entries) == SumCounts(votes, round, listed)
  {
    entries := [];
    for i := 0 to |listed|
      invariant |entries| == i
      invariant forall k :: 0 <= k < i ==> entries[k] == Shown(votes, round, listed[k], own)
      invariant SumVotes(entries) == SumCounts(votes, round, listed[..i])
    {
      var entry := Shown(votes, round, listed[i], own);
      SumCountsSplits(votes, round, listed[..i], listed[i]);
      assert listed[..i + 1] == listed[..i] + [listed[i]];
      assert (entries + [entry])[..i] == entries;
      entries := entries + [entry];
    }
    assert listed[..|listed|] == listed;
  }

  /** The option with the most votes, the earliest of several. */
  method FirstMost(votes: set<Vote>, round: RoundId, listed: seq<Choice>) returns (best: Choice)
    requires listed != []
    ensures best == Winner(votes, round, listed)
  {
    var k := 1;
    best := listed[0];
    while k < |listed|
      invariant 1 <= k <= |listed|
      invariant best == Winner(votes, round, listed[..k])
    {
      assert listed[..k + 1][..k] == listed[..k];
      if Count(votes, round, listed[k].id) > Count(votes, round, best.id) {
        best := listed[k];
      }
      k := k + 1;
    }
    assert listed[..k] == listed;
  }

  ghost predicate OwnVote(s: Store, round: RoundId, u: UserId, own: Option<Vote>) {
    match own
    case Some(v) => v in s.votes && v.round == round && v.user == u
    case None => forall w :: w in s.votes ==> !(w.round == round && w.user == u)
  }

  /** The response has the round's own fields, and an entry for each listed option. */
  ghost predicate BuiltFrom(r: RoundResponse, s: Store, round: RoundId, own: Option<Vote>)
    requires round in s.rounds
  {
    var row, listed := s.rounds[round], OptionsOf(s.options, round);
    && r == RoundResponse(round, row.club, row.open, TotalVotes(s.votes, round), row.winner, r.options)
    && |r.options| == |listed|
    && (forall k :: 0 <= k < |listed| ==> r.options[k] == Shown(s.votes, round, listed[k], own))
    && SumVotes(r.options) == SumCounts(s.votes, round, listed)
  }

  lemma EntriesShow(s: Store, round: RoundId, u: UserId, own: Option<Vote>, r: RoundResponse)
    requires Inv(s) && round in s.rounds && OwnVote(s, round, u, own)
    ensures BuiltFrom(r, s, round, own) ==> ShowsRound(r, s, round, u)
  {
    var listed := OptionsOf(s.options, round);
    TotalIsSum(s, round);
    if BuiltFrom(r, s, round, own) {
      forall i | 0 <= i < |listed| ensures Describes(r.options[i], listed[i], s, u) {
        assert listed[i] in listed;
      }
    }
  }

  class VotingDatabase {
    var rounds: map<RoundId, Round>
    var options: seq<Choice>
    var votes: set<Vote>

    function State(): Store reads this {
      Store(rounds, options, votes)
    }

    constructor ()
      ensures State() == Store(map[], [], {}) && Inv(State())
    {
      rounds, options, votes := map[], [], {};
    }

    method UserVoteOf(round: RoundId, u: UserId) returns (v: Option<Vote>)
      requires Inv(State())
      ensures OwnVote(State(), round, u, v)
    {
      var mine := set w | w in votes && w.round == round && w.user == u;
      if mine == {} {
        assert forall w :: w in votes && w.round == round && w.user == u ==> w in mine;
        return None;
      }
      var w :| w in mine;
      return Some(w);
    }

    method BuildRoundResponse(round: RoundId, u: UserId) returns (r: RoundResponse)
      requires Inv(State()) && round in rounds
      ensures ShowsRound(r, State(), round, u)
    {
      var own := UserVoteOf(round, u);
      var entries := Entries(votes, round, OptionsOf(options, round), own);
      r := RoundResponse(round, rounds[round].club, rounds[round].open, TotalVotes(votes, round),
                         rounds[round].winner, entries);
      EntriesShow(State(), round, u, own, r);
    }

    method CreateVotingRound(club: ClubId, role: Option<Role>, id: RoundId) returns (out: Outcome)
      requires Inv(State()) && id !in rounds
      modifies this
      ensures (State(), out) == CreateRound(old(State()), club, role, id)
      ensures Inv(State())
    {
      ghost var before := State();
      if role != Some(Organizer) { return Forbidden; }
      rounds := rounds[id := Round(club, true, None)];
      CallKeepsInv(before, Create(club, role, id));
      return Answered;
    }

    method AddBook(club: ClubId, role: Option<Role>, round: RoundId, choice: Choice) returns (out: Outcome)
      requires Inv(State()) && Fresh(State(), Add(club, role, round, choice))
      modifies this
      ensures (State(), out) == AddOption(old(State()), club, role, round, choice)
      ensures Inv(State())
    {
      ghost var before := State();
      if role != Some(Organizer) { return Forbidden; }
      if round !in rounds || rounds[round].club != club { return RoundNotFound; }
      if !rounds[round].open { return RoundClosed; }
      options := options + [choice.(round := round)];
      CallKeepsInv(before, Add(club, role, round, choice));
      return Answered;
    }

    method RemoveBook(club: ClubId, role: Option<Role>, o: OptionId) returns (out: Outcome)
      requires Inv(State())
      modifies this
      ensures (State(), out) == RemoveOption(old(State()), club, role, o)
      ensures Inv(State())
    {
      ghost var before := State();
      if role != Some(Organizer) { return Forbidden; }
      var (found, round) := RoundOfOption(State(), club, o);
      if found != Answered { return found; }
      if !rounds[round].open { return RoundClosed; }
      if exists v :: v in votes && v.option == o { return OptionHasVotes; }
      options := DropOption(options, o);
      CallKeepsInv(before, Remove(club, role, o));
      return Answered;
    }

    method VoteFor(club: ClubId, role: Option<Role>, o: OptionId, u: UserId) returns (out: Outcome)
      requires Inv(State())
      modifies this
      ensures (State(), out) == CastVote(old(State()), club, role, o, u)
      ensures Inv(State())
    {
      ghost var before := State();
      if role.None? { return Forbidden; }
      var (found, round) := RoundOfOption(State(), club, o);
      if found != Answered { return found; }
      if !rounds[round].open { return RoundClosed; }
      CallKeepsInv(before, Cast(club, role, o, u));
      var existing := UserVoteOf(round, u);
      if existing.Some? && existing.value.option == o {
        assert votes == CastVote(before, club, role, o, u).0.votes;
        return Answered;
      }
      if existing.Some? {
        votes := votes - {existing.value};
      }
      votes := votes + {Vote(round, o, u)};
      assert votes == CastVote(before, club, role, o, u).0.votes;
      return Answered;
    }

    method UnvoteFor(club: ClubId, role: Option<Role>, o: OptionId, u: UserId) returns (out: Outcome)
      requires Inv(State())
      modifies this
      ensures (State(), out) == Unvote(old(State()), club, role, o, u)
      ensures Inv(State())
    {
      ghost var before := State();
      if role.None? { return Forbidden; }
      var (found, round) := RoundOfOption(State(), club, o);
      if found != Answered { return found; }
      CallKeepsInv(before, TakeBack(club, role, o, u));
      var existing := UserVoteOf(round, u);
      if existing.Some? && existing.value.option == o {
        votes := votes - {existing.value};
      }
      assert votes == Unvote(before, club, role, o, u).0.votes;
      return Answered;
    }

    method CloseVoting(club: ClubId, role: Option<Role>, round: RoundId) returns (out: Outcome)
      requires Inv(State())
      modifies this
      ensures (State(), out) == CloseRound(old(State()), club, role, round)
      ensures Inv(State())
    {
      ghost var before := State();
      if role != Some(Organizer) { return Forbidden; }
      if round !in rounds || rounds[round].club != club { return RoundNotFound; }
      CallKeepsInv(before, Close(club, role, round));
      if rounds[round].open {
        var listed := OptionsOf(options, round);
        var winner: Option<OptionId> := None;
        if listed != [] {
          var best := FirstMost(votes, round, listed);
          winner := Some(best.id);
        }
        rounds := rounds[round := Round(club, false, winner)];
      }
      return Answered;
    }
  }
}
