/** Who may change what in a book vote: the answer to each call, what an answered call does to a single row, and whose
    requests change rows while they are interleaved. */
module BookVotingEffects {
  import opened Common
  import opened BookVoting
  import opened BookVotingConcurrency
  import opened BookVotingLead

  /** Members vote; organizers do the rest. */
  ghost predicate MayAsk(c: Call) {
    if c.Cast? || c.TakeBack? then c.role == Some(Member) || c.role == Some(Organizer) else c.role == Some(Organizer)
  }

  ghost predicate NamesOption(c: Call) {
    c.Remove? || c.Cast? || c.TakeBack?
  }

  /** The call is about round `r`, which is its club's. */
  ghost predicate About(s: Store, c: Call, r: RoundId) {
    && r in s.rounds && s.rounds[r].club == c.club
    && (NamesOption(c) ==> OptionOf(s, c.option, r))
    && (c.Add? || c.Close? ==> c.round == r)
    && !c.Create?
  }

  ghost predicate KnowsOption(s: Store, o: OptionId) {
    exists r :: OptionOf(s, o, r)
  }

  // ----- what the caller is told -----

  lemma FoundOption(s: Store, o: OptionId)
    requires RowsOk(s)
    ensures FindOption(s.options, o).Some? <==> KnowsOption(s, o)
    ensures FindOption(s.options, o).Some? ==>
      FindOption(s.options, o).value.round in s.rounds
      && forall r :: OptionOf(s, o, r) <==> r == FindOption(s.options, o).value.round
  {
    if FindOption(s.options, o).Some? {
      var c := FindOption(s.options, o).value;
      var i :| 0 <= i < |s.options| && s.options[i] == c;
      assert OptionOf(s, o, c.round);
    }
  }

  lemma TheRound(s: Store, c: Call, r: RoundId)
    requires RowsOk(s) && NamesOption(c)
    ensures About(s, c, r) <==> RoundOfOption(s, c.club, c.option) == (Answered, r)
    ensures RoundOfOption(s, c.club, c.option).0 ==
      if !KnowsOption(s, c.option) then OptionNotFound
      else if exists q :: About(s, c, q) then Answered
      else RoundNotFound
  {
    FoundOption(s, c.option);
    if FindOption(s.options, c.option).Some? {
      var row := FindOption(s.options, c.option).value;
      assert About(s, c, row.round) <==> s.rounds[row.round].club == c.club;
    }
  }

  /** When each answer is given. */
  lemma AnswersExactly(s: Store, c: Call)
    requires RowsOk(s)
    ensures Answer(s, c) == Forbidden <==> !MayAsk(c)
    ensures Answer(s, c) == OptionNotFound <==> MayAsk(c) && NamesOption(c) && !KnowsOption(s, c.option)
    ensures Answer(s, c) == RoundNotFound <==>
      && MayAsk(c) && !c.Create? && (NamesOption(c) ==> KnowsOption(s, c.option))
      && forall r :: !About(s, c, r)
    ensures Answer(s, c) == RoundClosed <==>
      MayAsk(c) && (c.Add? || c.Remove? || c.Cast?) && exists r :: About(s, c, r) && !s.rounds[r].open
    ensures Answer(s, c) == OptionHasVotes <==>
      && MayAsk(c) && c.Remove? && (exists r :: About(s, c, r) && s.rounds[r].open)
      && exists v :: v in s.votes && v.option == c.option
  {
    KnownRole(c.role);
    if NamesOption(c) {
      TheRound(s, c, RoundOfOption(s, c.club, c.option).1);
      forall r: RoundId ensures About(s, c, r) <==> RoundOfOption(s, c.club, c.option) == (Answered, r) {
        TheRound(s, c, r);
      }
    } else if !c.Create? {
      assert forall r :: About(s, c, r) <==> r == c.round && r in s.rounds && s.rounds[r].club == c.club;
    }
  }

  lemma KnownRole(role: Option<Role>)
    ensures role == None || role == Some(Member) || role == Some(Organizer)
  {
    if role.Some? { assert role.value.Member? || role.value.Organizer?; }
  }

  lemma RefusedChangesNothing(s: Store, c: Call)
    requires Answer(s, c) != Answered
    ensures Perform(s, c) == s
  {
  }

  // ----- what an answered call does -----

  /** A round appears by an organizer's call, open and without a winner, and changes once: an organizer's close of an
      open round closes it, with a winner exactly if it has options. */
  lemma RoundEffect(s: Store, c: Call, r: RoundId)
    requires Fresh(s, c)
    ensures var s' := Perform(s, c);
      if c.Create? && c.role == Some(Organizer) && r == c.id then
        r !in s.rounds && r in s'.rounds && s'.rounds[r] == Round(c.club, true, None)
      else if c.Close? && c.role == Some(Organizer) && About(s, c, r) && s.rounds[r].open then
        && r in s'.rounds && s'.rounds[r].club == c.club && !s'.rounds[r].open
        && (s'.rounds[r].winner.Some? <==> exists o :: o in s.options && o.round == r)
      else Lookup(s'.rounds, r) == Lookup(s.rounds, r)
  {
    if c.Close? && About(s, c, r) {
      var listed := OptionsOf(s.options, r);
      if listed != [] { assert listed[0] in listed; }
    }
  }

  lemma {:induction false} DropAt(options: seq<Choice>, i: nat)
    requires DistinctIds(options) && i < |options|
    ensures DropOption(options, options[i].id) == options[..i] + options[i + 1..]
  {
    if i > 0 {
      var first, rest := [options[0]], options[1..];
      assert rest[i - 1] == options[i] && options[0].id != options[i].id;
      DropAt(rest, i - 1);
      assert first + rest[..i - 1] == options[..i] && rest[i..] == options[i + 1..];
      assert first + (rest[..i - 1] + rest[i..]) == first + rest[..i - 1] + rest[i..];
    }
  }

  /** `after` is `before` without its option `o`, the others in order. */
  ghost predicate TakenOut(before: seq<Choice>, after: seq<Choice>, o: OptionId) {
    exists i :: 0 <= i < |before| && before[i].id == o && after == before[..i] + before[i + 1..]
  }

  lemma DropTakes(options: seq<Choice>, o: OptionId)
    requires DistinctIds(options) && FindOption(options, o).Some?
    ensures TakenOut(options, DropOption(options, o), o)
  {
    var row := FindOption(options, o).value;
    var i :| 0 <= i < |options| && options[i] == row;
    DropAt(options, i);
  }

  /** An added option goes to the end, under its round; a removed one leaves the others in order; no other call changes
      the options. */
  lemma OptionEffect(s: Store, c: Call)
    requires RowsOk(s)
    ensures var s' := Perform(s, c);
      if c.Add? && Answer(s, c) == Answered then
        s'.options == s.options + [Choice(c.choice.id, c.round, c.choice.title, c.choice.author)]
      else if c.Remove? && Answer(s, c) == Answered then
        TakenOut(s.options, s'.options, c.option)
      else s'.options == s.options
  {
    if c.Remove? && Answer(s, c) == Answered { DropTakes(s.options, c.option); }
  }

  /** A vote cast is the user's only one in the round afterwards, a vote taken back is gone, and no other call and
      nobody else's vote is concerned. */
  lemma VoteEffect(s: Store, c: Call, v: Vote)
    requires RowsOk(s)
    ensures v in Perform(s, c).votes <==>
      if c.Cast? && Answer(s, c) == Answered && About(s, c, v.round) && v.user == c.user then v.option == c.option
      else v in s.votes && !(c.TakeBack? && Answer(s, c) == Answered && v.user == c.user && v.option == c.option)
  {
    if NamesOption(c) {
      TheRound(s, c, v.round);
      if v in s.votes && v.option == c.option { FoundOption(s, c.option); assert OptionOf(s, v.option, v.round); }
    }
  }

  // ----- whose requests change rows while they are interleaved -----

  /** A request that has not ended is allowed. */
  ghost predicate OnlyAllowed(w: World) {
    forall id :: id in w.requests && !w.requests[id].phase.Done? ==> MayAsk(w.requests[id].call)
  }

  lemma ApplyKeepsAllowed(w: World, a: Action)
    requires OnlyAllowed(w)
    ensures OnlyAllowed(Apply(w, a))
  {
    if a.Arrive? { KnownRole(a.call.role); }
    var w' := Apply(w, a);
    forall id | id in w'.requests && !w'.requests[id].phase.Done? ensures MayAsk(w'.requests[id].call) {
      if id in w.requests { assert w'.requests[id].call == w.requests[id].call; }
    }
  }

  /** The action is a step of a request of a member who may ask for it. */
  ghost predicate StepOf(w: World, a: Action, role: Role) {
    a.Advance? && a.id in w.requests && MayAsk(w.requests[a.id].call) && w.requests[a.id].call.role == Some(role)
  }

  /** Rounds and options change in organizers' requests only, a round's status and winner in their closes. Votes change
      in members' requests, each its own user's. */
  lemma ChangesAreAllowed(w: World, a: Action)
    requires WorldOk(w) && VotesOk(w) && OnlyAllowed(w)
    ensures var db, db' := w.db, Apply(w, a).db;
      && (db'.rounds != db.rounds || db'.options != db.options ==> StepOf(w, a, Organizer))
      && (forall r :: r in db.rounds && Lookup(db'.rounds, r) != Some(db.rounds[r]) ==>
            StepOf(w, a, Organizer) && w.requests[a.id].call.Close? && w.requests[a.id].call.round == r)
      && (forall v :: (v in Votes(db.rows)) != (v in Votes(db'.rows)) ==>
            && (StepOf(w, a, Member) || StepOf(w, a, Organizer))
            && (w.requests[a.id].call.Cast? || w.requests[a.id].call.TakeBack?) && v.user == w.requests[a.id].call.user)
  {
    VotersOwnVotes(w, a);
    if a.Advance? && a.id in w.requests {
      assert RequestOk(w, w.requests[a.id]);
      KnownRole(w.requests[a.id].call.role);
    }
  }

  lemma VotersOwnVotes(w: World, a: Action)
    requires WorldOk(w) && VotesOk(w) && OnlyAllowed(w)
    ensures forall v :: (v in Votes(w.db.rows)) != (v in Votes(Apply(w, a).db.rows)) ==>
      && (StepOf(w, a, Member) || StepOf(w, a, Organizer))
      && (w.requests[a.id].call.Cast? || w.requests[a.id].call.TakeBack?) && v.user == w.requests[a.id].call.user
  {
    VotesMove(w, a);
    if Leaving(w, a).Some? { LeavingIs(w, a); }
    if CommitsNext(w, a) { KnownRole(w.requests[a.id].call.role); }
  }

  /** A request that fails before its commit leaves every row as it was. */
  lemma AbortRollsBack(w: World, id: RequestId)
    requires id in w.requests && !w.requests[id].phase.Done?
    ensures var w' := Apply(w, Abort(id));
      && w'.db == w.db && w'.requests.Keys == w.requests.Keys && w'.requests[id].phase == Done(None)
      && (forall other :: other in w.requests && other != id ==> w'.requests[other] == w.requests[other])
  {
  }

  lemma {:induction false} AllowedOverRuns(w: World, actions: seq<Action>)
    requires OnlyAllowed(w)
    ensures OnlyAllowed(Exec(w, actions))
    decreases |actions|
  {
    if actions != [] {
      AllowedOverRuns(w, actions[..|actions| - 1]);
      ApplyKeepsAllowed(Exec(w, actions[..|actions| - 1]), actions[|actions| - 1]);
    }
  }

  /** So in every interleaving. */
  lemma ChangesAllowedOverRuns(actions: seq<Action>, a: Action)
    ensures var w := Exec(START, actions);
      var db, db' := w.db, Apply(w, a).db;
      && (db'.rounds != db.rounds || db'.options != db.options ==> StepOf(w, a, Organizer))
      && (forall r :: r in db.rounds && Lookup(db'.rounds, r) != Some(db.rounds[r]) ==>
            StepOf(w, a, Organizer) && w.requests[a.id].call.Close? && w.requests[a.id].call.round == r)
      && (forall v :: (v in Votes(db.rows)) != (v in Votes(db'.rows)) ==>
            && (StepOf(w, a, Member) || StepOf(w, a, Organizer))
            && (w.requests[a.id].call.Cast? || w.requests[a.id].call.TakeBack?) && v.user == w.requests[a.id].call.user)
  {
    ExecKeepsVotes(START, actions);
    AllowedOverRuns(START, actions);
    ChangesAreAllowed(Exec(START, actions), a);
  }
}
