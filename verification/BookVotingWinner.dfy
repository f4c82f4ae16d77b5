/** Whether the option a close has picked is still the first of the most voted ones, before and after it commits. */
module BookVotingWinner {
  import opened Common
  import opened BookVoting
  import opened BookVotingConcurrency
  import opened BookVotingLead

  /** `o` has the most votes in the round, and is the earliest of such options. */
  ghost predicate FirstMost(db: Db, round: RoundId, o: OptionId) {
    var listed := OptionsOf(db.options, round);
    listed != [] && Winner(Votes(db.rows), round, listed).id == o
  }

  ghost predicate FirstAt(votes: set<Vote>, round: RoundId, options: seq<Choice>, k: int) {
    && 0 <= k < |options|
    && (forall i :: 0 <= i < |options| ==> Count(votes, round, options[i].id) <= Count(votes, round, options[k].id))
    && (forall i :: 0 <= i < k ==> Count(votes, round, options[i].id) < Count(votes, round, options[k].id))
  }

  lemma FirstIsWinner(votes: set<Vote>, round: RoundId, options: seq<Choice>, k: int)
    requires FirstAt(votes, round, options, k)
    ensures Winner(votes, round, options) == options[k]
  {
    var m := WinnerIsFirstMax(votes, round, options);
    assert Count(votes, round, options[m].id) == Count(votes, round, options[k].id);
  }

  lemma WinnerIsFirst(votes: set<Vote>, round: RoundId, options: seq<Choice>, k: int)
    requires 0 <= k < |options| && DistinctIds(options)
    ensures Winner(votes, round, options).id == options[k].id <==> FirstAt(votes, round, options, k)
  {
    var m := WinnerIsFirstMax(votes, round, options);
    if FirstAt(votes, round, options, k) { FirstIsWinner(votes, round, options, k); }
  }

  // ----- what one statement does to the lead -----

  /** How many votes option `i` may gain on option `k` without passing it: a tie is lost against an earlier option. */
  ghost function Slack(votes: set<Vote>, round: RoundId, options: seq<Choice>, k: int, i: int): int
    requires 0 <= k < |options| && 0 <= i < |options|
  {
    Count(votes, round, options[k].id) - Count(votes, round, options[i].id) - if i < k then 1 else 0
  }

  ghost predicate Passes(w: World, a: Action, round: RoundId, options: seq<Choice>, k: int, i: int)
    requires 0 <= k < |options| && 0 <= i < |options|
  {
    Gain(w, a, round, options[i].id) - Gain(w, a, round, options[k].id) > Slack(Votes(w.db.rows), round, options, k, i)
  }

  /** Action `a` removes `o`, which has no votes, or moves a vote by which another option passes `o`. */
  ghost predicate Overtakes(w: World, a: Action, round: RoundId, o: OptionId) {
    var listed := OptionsOf(w.db.options, round);
    || (CommitsNext(w, a) && w.requests[a.id].call.Remove? && w.requests[a.id].call.option == o)
    || exists k, i :: 0 <= k < |listed| && 0 <= i < |listed| && i != k && listed[k].id == o && Passes(w, a, round, listed, k, i)
  }

  ghost predicate Ready(w: World) {
    WorldOk(w) && VotesOk(w) && ListsOk(w)
  }

  lemma {:induction false} ExecKeepsReady(w: World, actions: seq<Action>)
    requires Ready(w)
    ensures Ready(Exec(w, actions))
    decreases |actions|
  {
    if actions != [] {
      var before, a := Exec(w, actions[..|actions| - 1]), actions[|actions| - 1];
      ExecKeepsReady(w, actions[..|actions| - 1]);
      ApplyKeepsInv(before, a);
      ApplyKeepsVotes(before, a);
      ApplyKeepsLists(before, a);
    }
  }

  ghost predicate Ahead(votes: set<Vote>, round: RoundId, options: seq<Choice>, k: int, i: int)
    requires 0 <= k < |options| && 0 <= i < |options|
  {
    Slack(votes, round, options, k, i) >= 0
  }

  lemma FirstIsAhead(votes: set<Vote>, round: RoundId, options: seq<Choice>, k: int)
    requires 0 <= k < |options|
    ensures FirstAt(votes, round, options, k) <==> forall i :: 0 <= i < |options| && i != k ==> Ahead(votes, round, options, k, i)
  {
    if forall i :: 0 <= i < |options| && i != k ==> Ahead(votes, round, options, k, i) {
      forall i | 0 <= i < |options|
        ensures Count(votes, round, options[i].id) + (if i < k then 1 else 0) <= Count(votes, round, options[k].id)
      {
        assert i != k ==> Ahead(votes, round, options, k, i);
      }
    }
  }

  lemma AheadMoves(w: World, a: Action, round: RoundId, options: seq<Choice>, k: int, i: int)
    requires WorldOk(w) && VotesOk(w) && 0 <= k < |options| && 0 <= i < |options|
    ensures Ahead(Votes(Apply(w, a).db.rows), round, options, k, i) <==> !Passes(w, a, round, options, k, i)
  {
    CountsMove(w, a, round, options[k].id);
    CountsMove(w, a, round, options[i].id);
  }

  lemma FirstMoves(w: World, a: Action, round: RoundId, options: seq<Choice>, k: int)
    requires WorldOk(w) && VotesOk(w) && 0 <= k < |options|
    ensures FirstAt(Votes(Apply(w, a).db.rows), round, options, k) <==> !SomePasses(w, a, round, options, k)
  {
    FirstIsAhead(Votes(Apply(w, a).db.rows), round, options, k);
    forall i | 0 <= i < |options| && i != k
      ensures Ahead(Votes(Apply(w, a).db.rows), round, options, k, i) <==> !Passes(w, a, round, options, k, i)
    {
      AheadMoves(w, a, round, options, k, i);
    }
  }

  ghost predicate SomePasses(w: World, a: Action, round: RoundId, options: seq<Choice>, k: int)
    requires 0 <= k < |options|
  {
    exists i :: 0 <= i < |options| && i != k && Passes(w, a, round, options, k, i)
  }

  /** `o` stands at one place. */
  lemma OvertakenAt(w: World, a: Action, round: RoundId, o: OptionId, k: int)
    requires WorldOk(w) && 0 <= k < |OptionsOf(w.db.options, round)| && OptionsOf(w.db.options, round)[k].id == o
    requires !(CommitsNext(w, a) && w.requests[a.id].call.Remove? && w.requests[a.id].call.option == o)
    ensures Overtakes(w, a, round, o) <==> SomePasses(w, a, round, OptionsOf(w.db.options, round), k)
  {
    var listed := OptionsOf(w.db.options, round);
    OptionsOfDistinct(w.db.options, round);
    assert forall m :: 0 <= m < |listed| && listed[m].id == o ==> m == k;
  }

  /** With the options as they are. */
  lemma SameOptionsLead(w: World, a: Action, round: RoundId, o: OptionId)
    requires Ready(w) && FirstMost(w.db, round, o) && Apply(w, a).db.options == w.db.options
    requires !(CommitsNext(w, a) && w.requests[a.id].call.Remove? && w.requests[a.id].call.option == o)
    ensures FirstMost(Apply(w, a).db, round, o) <==> !Overtakes(w, a, round, o)
  {
    var listed := OptionsOf(w.db.options, round);
    OptionsOfDistinct(w.db.options, round);
    var k := WinnerIsFirstMax(Votes(w.db.rows), round, listed);
    OvertakenAt(w, a, round, o, k);
    FirstMoves(w, a, round, listed, k);
    WinnerIsFirst(Votes(Apply(w, a).db.rows), round, listed, k);
  }

  lemma NoGain(w: World, a: Action, round: RoundId)
    requires !(CommitsNext(w, a) && (w.requests[a.id].call.Cast? || w.requests[a.id].call.TakeBack?))
    ensures forall o :: Gain(w, a, round, o) == 0
  {
  }

  lemma NothingPasses(w: World, a: Action, round: RoundId, o: OptionId)
    requires WorldOk(w) && FirstMost(w.db, round, o) && forall p :: Gain(w, a, round, p) == 0
    ensures Overtakes(w, a, round, o) <==> CommitsNext(w, a) && w.requests[a.id].call.Remove? && w.requests[a.id].call.option == o
  {
    var votes, listed := Votes(w.db.rows), OptionsOf(w.db.options, round);
    OptionsOfDistinct(w.db.options, round);
    forall k, i | 0 <= k < |listed| && 0 <= i < |listed| && i != k && listed[k].id == o
      ensures !Passes(w, a, round, listed, k, i)
    {
      WinnerIsFirst(votes, round, listed, k);
    }
  }

  lemma AppendLead(votes: set<Vote>, round: RoundId, options: seq<Choice>, c: Choice)
    requires options != []
    ensures Winner(votes, round, options + [c])
      == if Count(votes, round, c.id) > Count(votes, round, Winner(votes, round, options).id) then c else Winner(votes, round, options)
  {
    assert (options + [c])[..|options|] == options;
  }

  /** A new option comes last and without votes. */
  lemma AddLead(w: World, a: Action, round: RoundId, o: OptionId)
    requires Ready(w) && FirstMost(w.db, round, o) && CommitsNext(w, a) && w.requests[a.id].call.Add?
    ensures FirstMost(Apply(w, a).db, round, o) && !Overtakes(w, a, round, o)
  {
    var call := w.requests[a.id].call;
    var c := call.choice.(round := call.round);
    assert Apply(w, a).db.options == w.db.options + [c];
    NoGain(w, a, round);
    NothingPasses(w, a, round, o);
    OptionsAppend(w.db.options, c, round);
    AppendLead(Votes(w.db.rows), round, OptionsOf(w.db.options, round), c);
    assert OptionsOf(w.db.options, round) + [] == OptionsOf(w.db.options, round);
  }

  lemma {:induction false} KeptLast(xs: seq<Choice>, c: Choice, ys: seq<Choice>)
    ensures Kept(xs + [c], ys) == Kept(xs, ys) + if c in ys then [c] else []
    decreases |xs|
  {
    if xs == [] {
      assert [] + [c] == [c] && [c][1..] == [];
    } else {
      var all, first := xs + [c], if xs[0] in ys then [xs[0]] else [];
      assert all[0] == xs[0] && all[1..] == xs[1..] + [c];
      KeptLast(xs[1..], c, ys);
      assert Kept(all, ys) == first + Kept(xs[1..] + [c], ys);
    }
  }

  lemma {:induction false} KeptHolds(xs: seq<Choice>, ys: seq<Choice>, c: Choice)
    ensures c in Kept(xs, ys) <==> c in xs && c in ys
  {
    if xs != [] {
      KeptHolds(xs[1..], ys, c);
      assert xs == [xs[0]] + xs[1..];
    }
  }

  lemma WinnerLeads(votes: set<Vote>, round: RoundId, options: seq<Choice>, c: Choice)
    requires c in options
    ensures Count(votes, round, c.id) <= Count(votes, round, Winner(votes, round, options).id)
  {
    var k := WinnerIsFirstMax(votes, round, options);
    var i :| 0 <= i < |options| && options[i] == c;
  }

  lemma LastOfPart(votes: set<Vote>, round: RoundId, front: seq<Choice>, last: Choice, part: seq<Choice>)
    requires forall c :: c in part ==> c in front
    requires front != [] ==> Count(votes, round, last.id) > Count(votes, round, Winner(votes, round, front).id)
    ensures Winner(votes, round, part + [last]) == last
  {
    if part == [] {
      assert part + [last] == [last];
    } else {
      var best := Winner(votes, round, part);
      assert best in front;
      WinnerLeads(votes, round, front, best);
      AppendLead(votes, round, part, last);
    }
  }

  /** The first of a listing is the first of any part of it that it is in. */
  lemma {:induction false} WinnerOfPart(votes: set<Vote>, round: RoundId, options: seq<Choice>, ys: seq<Choice>)
    requires options != [] && Winner(votes, round, options) in ys
    ensures Kept(options, ys) != [] && Winner(votes, round, Kept(options, ys)) == Winner(votes, round, options)
    decreases |options|
  {
    var n := |options| - 1;
    var front, last := options[..n], options[n];
    var part := Kept(front, ys);
    assert options == front + [last];
    KeptLast(front, last, ys);
    if LastWins(votes, round, front, last) {
      forall c | c in part ensures c in front { KeptHolds(front, ys, c); }
      LastOfPart(votes, round, front, last, part);
    } else {
      WinnerOfPart(votes, round, front, ys);
      FirstOfPart(votes, round, part, last, ys);
    }
  }

  predicate LastWins(votes: set<Vote>, round: RoundId, front: seq<Choice>, last: Choice) {
    front == [] || Count(votes, round, last.id) > Count(votes, round, Winner(votes, round, front).id)
  }

  lemma FirstOfPart(votes: set<Vote>, round: RoundId, part: seq<Choice>, last: Choice, ys: seq<Choice>)
    requires part != [] && !LastWins(votes, round, part, last)
    ensures var all := part + if last in ys then [last] else [];
      all != [] && Winner(votes, round, all) == Winner(votes, round, part)
  {
    AppendLead(votes, round, part, last);
    assert part + [] == part;
  }

  lemma {:induction false} OmitIsKept(xs: seq<Choice>, ys: seq<Choice>, o: OptionId)
    requires forall c :: c in xs ==> (c in ys <==> c.id != o)
    ensures Omit(xs, o) == Kept(xs, ys)
  {
    if xs != [] { OmitIsKept(xs[1..], ys, o); }
  }

  lemma OptionsAfterRemove(w: World, a: Action, round: RoundId)
    requires WorldOk(w) && CommitsNext(w, a) && w.requests[a.id].call.Remove?
    ensures Apply(w, a).db.rows == w.db.rows
    ensures OptionsOf(Apply(w, a).db.options, round) == Omit(OptionsOf(w.db.options, round), w.requests[a.id].call.option)
  {
    DropIsOmit(w.db.options, w.requests[a.id].call.option);
    OptionsOmit(w.db.options, w.requests[a.id].call.option, round);
  }

  lemma LeadWithout(votes: set<Vote>, round: RoundId, listed: seq<Choice>, p: OptionId)
    requires listed != []
    ensures var left, best := Omit(listed, p), Winner(votes, round, listed);
      best.id != p <==> left != [] && Winner(votes, round, left).id == best.id
  {
    var left := Omit(listed, p);
    forall c ensures c in left <==> c in listed && c.id != p { OmitHolds(listed, p, c); }
    if Winner(votes, round, listed).id != p {
      OmitIsKept(listed, left, p);
      WinnerOfPart(votes, round, listed, left);
    }
  }

  /** Removing another option, which has no votes, does not touch the lead. */
  lemma RemoveLead(w: World, a: Action, round: RoundId, o: OptionId)
    requires Ready(w) && FirstMost(w.db, round, o) && CommitsNext(w, a) && w.requests[a.id].call.Remove?
    ensures FirstMost(Apply(w, a).db, round, o) <==> w.requests[a.id].call.option != o
  {
    OptionsAfterRemove(w, a, round);
    LeadWithout(Votes(w.db.rows), round, OptionsOf(w.db.options, round), w.requests[a.id].call.option);
  }

  /** A statement takes the lead from `o` exactly when it removes `o`, or moves a vote by which another option
      passes it: reaching its count is enough for an earlier option. */
  lemma LeadLostExactly(w: World, a: Action, round: RoundId, o: OptionId)
    requires Ready(w) && FirstMost(w.db, round, o)
    ensures FirstMost(Apply(w, a).db, round, o) <==> !Overtakes(w, a, round, o)
  {
    if CommitsNext(w, a) && w.requests[a.id].call.Add? {
      AddLead(w, a, round, o);
    } else if CommitsNext(w, a) && w.requests[a.id].call.Remove? {
      RemoveLead(w, a, round, o);
      NoGain(w, a, round);
    NothingPasses(w, a, round, o);
    } else {
      SameOptionsLead(w, a, round, o);
    }
  }

  ghost predicate LeadsThroughout(w: World, actions: seq<Action>, round: RoundId, o: OptionId)
    decreases |actions|
  {
    && FirstMost(Exec(w, actions).db, round, o)
    && (actions != [] ==> LeadsThroughout(w, actions[..|actions| - 1], round, o))
  }

  ghost predicate NeverOvertaken(w: World, actions: seq<Action>, round: RoundId, o: OptionId)
    decreases |actions|
  {
    actions != [] ==>
      var n := |actions| - 1;
      NeverOvertaken(w, actions[..n], round, o) && !Overtakes(Exec(w, actions[..n]), actions[n], round, o)
  }

  /** The lead lasts all through an interleaving, across the closing and after it, exactly when no such statement is
      in it. */
  lemma {:induction false} LeadOverRuns(w: World, actions: seq<Action>, round: RoundId, o: OptionId)
    requires Ready(w) && FirstMost(w.db, round, o)
    ensures LeadsThroughout(w, actions, round, o) <==> NeverOvertaken(w, actions, round, o)
    decreases |actions|
  {
    if actions != [] {
      var n := |actions| - 1;
      LeadOverRuns(w, actions[..n], round, o);
      ExecKeepsReady(w, actions[..n]);
      if FirstMost(Exec(w, actions[..n]).db, round, o) {
        LeadLostExactly(Exec(w, actions[..n]), actions[n], round, o);
      }
    }
  }

  /** Every state reached from no rows. */
  lemma ReadyFromStart(actions: seq<Action>)
    ensures Ready(Exec(START, actions))
  {
    ExecKeepsReady(START, actions);
  }

  /** Action `a` changes the round's votes or removes one of its options. */
  ghost predicate Disturbs(w: World, a: Action, round: RoundId) {
    || VotesChange(w, a, round)
    || (CommitsNext(w, a) && w.requests[a.id].call.Remove?
        && Lists(OptionsOf(w.db.options, round), w.requests[a.id].call.option))
  }

  lemma ZeroGain(w: World, a: Action, round: RoundId)
    requires WorldOk(w) && VotesOk(w) && !VotesChange(w, a, round)
    ensures forall o :: Gain(w, a, round, o) == 0
  {
    if Leaving(w, a).Some? { LeavingIs(w, a); }
  }

  lemma UndisturbedLead(w: World, a: Action, round: RoundId, o: OptionId)
    requires Ready(w) && FirstMost(w.db, round, o) && !Disturbs(w, a, round)
    ensures !Overtakes(w, a, round, o)
  {
    var listed := OptionsOf(w.db.options, round);
    var m := WinnerIsFirstMax(Votes(w.db.rows), round, listed);
    assert Lists(listed, o);
    ZeroGain(w, a, round);
    NothingPasses(w, a, round, o);
  }

  ghost predicate NeverDisturbed(w: World, actions: seq<Action>, round: RoundId)
    decreases |actions|
  {
    actions != [] ==>
      var n := |actions| - 1;
      NeverDisturbed(w, actions[..n], round) && !Disturbs(Exec(w, actions[..n]), actions[n], round)
  }

  /** In particular it lasts while no vote of the round moves and none of its options goes. */
  lemma {:induction false} UndisturbedRun(w: World, actions: seq<Action>, round: RoundId, o: OptionId)
    requires Ready(w) && FirstMost(w.db, round, o) && NeverDisturbed(w, actions, round)
    ensures NeverOvertaken(w, actions, round, o) && FirstMost(Exec(w, actions).db, round, o)
    decreases |actions|
  {
    if actions != [] {
      var n := |actions| - 1;
      UndisturbedRun(w, actions[..n], round, o);
      ExecKeepsReady(w, actions[..n]);
      UndisturbedLead(Exec(w, actions[..n]), actions[n], round, o);
      LeadLostExactly(Exec(w, actions[..n]), actions[n], round, o);
    }
  }

  // ----- what a close picks -----

  lemma {:induction false} AddedLead(votes: set<Vote>, round: RoundId, base: seq<Choice>, more: seq<Choice>)
    requires base != [] && DistinctIds(base + more)
    ensures Winner(votes, round, base + more) == Winner(votes, round, base)
      <==> forall c :: c in more ==> Count(votes, round, c.id) <= Count(votes, round, Winner(votes, round, base).id)
    decreases |more|
  {
    var best := Winner(votes, round, base);
    if more == [] {
      assert base + more == base;
    } else {
      var n := |more| - 1;
      var front := base + more[..n];
      assert base + more == front + [more[n]];
      assert forall i :: 0 <= i < |front| ==> front[i] == (base + more)[i];
      AddedLead(votes, round, base, more[..n]);
      AppendLead(votes, round, front, more[n]);
      if Winner(votes, round, base + more) == best {
        forall c | c in more ensures Count(votes, round, c.id) <= Count(votes, round, best.id) {
          WinnerLeads(votes, round, base + more, c);
        }
      }
      if forall c :: c in more ==> Count(votes, round, c.id) <= Count(votes, round, best.id) {
        assert forall c :: c in more[..n] ==> c in more;
        assert more[n] in more;
      }
    }
  }

  lemma PickStep(w: World, id: RequestId)
    requires id in w.requests && w.requests[id].phase == ReadCounts && w.requests[id].listed != []
    ensures var r, r' := w.requests[id], Apply(w, Advance(id)).requests[id];
      r'.phase == Commit && r'.winner == Some(Winner(Votes(w.db.rows), r.round, r.listed).id)
  {
  }

  /** The pick is still there, and no option added since the listing has more votes. */
  ghost predicate StillLeads(votes: set<Vote>, round: RoundId, listed: seq<Choice>, current: seq<Choice>, pick: Choice) {
    && pick in current
    && forall c :: c in current && c !in listed ==> Count(votes, round, c.id) <= Count(votes, round, pick.id)
  }

  /** A close picks the first of the most voted options it has listed, by the votes it counts then. That is the first
      of the round's options at that moment exactly when it has not been removed since the listing, and no option
      added since has more votes. */
  lemma PickedExactly(w: World, id: RequestId)
    requires Ready(w) && id in w.requests && w.requests[id].phase == ReadCounts && w.requests[id].listed != []
    ensures var r, r' := w.requests[id], Apply(w, Advance(id)).requests[id];
      var pick := Winner(Votes(w.db.rows), r.round, r.listed);
      && r'.phase == Commit && r'.winner == Some(pick.id)
      && (FirstMost(w.db, r.round, pick.id) <==>
            StillLeads(Votes(w.db.rows), r.round, r.listed, OptionsOf(w.db.options, r.round), pick))
  {
    var r := w.requests[id];
    PickStep(w, id);
    assert ListFacts(w, r);
    OptionsOfDistinct(w.db.options, r.round);
    PickedFirst(Votes(w.db.rows), r.round, r.listed, OptionsOf(w.db.options, r.round));
  }

  lemma BehindAreNew(listed: seq<Choice>, current: seq<Choice>, c: Choice)
    requires DistinctIds(current) && Continues(listed, current) && c in current
    ensures c in current[|Kept(listed, current)|..] <==> c !in listed
  {
    var kept := Kept(listed, current);
    assert current == kept + current[|kept|..];
    KeptHolds(listed, current, c);
    if i :| |kept| <= i < |current| && current[i] == c {
      assert forall k :: 0 <= k < |kept| ==> current[k] == kept[k] && current[k].id != c.id;
    }
  }

  lemma PickedFirst(votes: set<Vote>, round: RoundId, listed: seq<Choice>, current: seq<Choice>)
    requires listed != [] && DistinctIds(current) && Continues(listed, current)
    requires forall x, y :: x in listed && y in current && x.id == y.id ==> x == y
    ensures var pick := Winner(votes, round, listed);
      (current != [] && Winner(votes, round, current).id == pick.id) <==> StillLeads(votes, round, listed, current, pick)
  {
    var pick, kept := Winner(votes, round, listed), Kept(listed, current);
    var more := current[|kept|..];
    assert current == kept + more;
    if pick in current {
      WinnerOfPart(votes, round, listed, current);
      AddedLead(votes, round, kept, more);
      forall c | c in current ensures c in more <==> c !in listed { BehindAreNew(listed, current, c); }
      assert forall c :: c in more ==> c in current;
    }
  }

  /** A close whose pick leads when it has counted, and is never overtaken until it commits, stores the option that
      leads at its commit. */
  lemma CloseStoresLeader(w: World, actions: seq<Action>, id: RequestId, round: RoundId, o: OptionId)
    requires Ready(w) && FirstMost(w.db, round, o) && NeverOvertaken(w, actions, round, o)
    requires AboutToClose(Exec(w, actions), id, round, o) && round in Exec(w, actions).db.rounds
    ensures var db := Apply(Exec(w, actions), Advance(id)).db;
      ClosedWith(db, round, o) && FirstMost(db, round, o)
  {
    LeadOverRuns(w, actions, round, o);
    CloseKeepsLead(Exec(w, actions), id, round, o);
  }

  lemma CloseKeepsLead(w: World, id: RequestId, round: RoundId, o: OptionId)
    requires FirstMost(w.db, round, o) && AboutToClose(w, id, round, o) && round in w.db.rounds
    ensures ClosedWith(Apply(w, Advance(id)).db, round, o) && FirstMost(Apply(w, Advance(id)).db, round, o)
  {
    CloseCommits(w, id, round, o);
  }

  // ----- votes that come late -----

  /** A vote for `c` and a close that have read the round open and no votes, both about to commit. */
  ghost predicate BothReady(w: World, c: Choice, u: UserId, i: RequestId, k: RequestId) {
    && i in w.requests && k in w.requests && i != k
    && OptionsOf(w.db.options, c.round) != [] && AboutToClose(w, i, c.round, OptionsOf(w.db.options, c.round)[0].id)
    && var r := w.requests[k];
    && r.phase == Commit && r.call.Cast? && r.call.option == c.id && r.call.user == u && r.round == c.round
    && r.existing == None && r.voteId !in w.db.rows
  }

  lemma ReadyBoth(w: World, c: Choice, u: UserId, i: RequestId, k: RequestId, voteId: VoteId) returns (actions: seq<Action>)
    requires OpenWithoutVotes(w.db, c.round) && c in OptionsOf(w.db.options, c.round)
    requires voteId !in w.db.rows && voteId !in w.ballots && i !in w.requests && k !in w.requests && i != k
    ensures var w' := Exec(w, actions); w'.db == w.db && BothReady(w', c, u, i, k)
  {
    var club := w.db.rounds[c.round].club;
    var cast, close := Cast(club, Some(Member), c.id, u), Close(club, Some(Organizer), c.round);
    CastReads(w, k, c, u, voteId);
    var w1 := Exec(w, Reads(k, cast, voteId));
    CloseReads(w1, i, c.round);
    OptionsOfDistinct(w.db.options, c.round);
    WinnerOfFew(Votes(w.db.rows), c.round, OptionsOf(w.db.options, c.round), 0);
    ExecConcat(w, Reads(k, cast, voteId), Reads(i, close, 0));
    actions := Reads(k, cast, voteId) + Reads(i, close, 0);
  }

  lemma VoteCommits(w: World, id: RequestId, c: Choice, u: UserId)
    requires UniqueVoters(w.db.rows) && c in w.db.options && id in w.requests
    requires forall i :: i in w.db.rows ==> w.db.rows[i].round != c.round
    requires var r := w.requests[id];
      && r.phase == Commit && r.call.Cast? && r.call.option == c.id && r.call.user == u && r.round == c.round
      && r.existing == None && r.voteId !in w.db.rows
    ensures var w' := Apply(w, Advance(id));
      w'.db.rounds == w.db.rounds && Vote(c.round, c.id, u) in VotesIn(Rows(w'.db), c.round)
  {
    HasOptionIs(w.db.options, c.id);
    VotesPlus(w.db.rows, w.requests[id].voteId, Vote(c.round, c.id, u));
  }

  /** A vote and a close that have both read the round open: the close commits, then the vote does, and the closed
      round has gained a vote, whichever open round without votes they meet. */
  lemma VoteLandsInClosed(w: World, c: Choice, u: UserId, i: RequestId, k: RequestId, voteId: VoteId)
    returns (before: seq<Action>, actions: seq<Action>)
    requires OpenWithoutVotes(w.db, c.round) && c in OptionsOf(w.db.options, c.round)
    requires voteId !in w.db.rows && voteId !in w.ballots && i !in w.requests && k !in w.requests && i != k
    ensures before <= actions
    ensures var db, db' := Exec(w, before).db, Exec(w, actions).db;
      && c.round in db.rounds && !db.rounds[c.round].open && VotesIn(Rows(db), c.round) == {}
      && c.round in db'.rounds && !db'.rounds[c.round].open && Vote(c.round, c.id, u) in VotesIn(Rows(db'), c.round)
  {
    var sofar := ReadyBoth(w, c, u, i, k, voteId);
    var w1 := Exec(w, sofar);
    CloseCommits(w1, i, c.round, OptionsOf(w.db.options, c.round)[0].id);
    Then(w, sofar, w1, Advance(i));
    before := sofar + [Advance(i)];
    var w2 := Apply(w1, Advance(i));
    Then(w, before, w2, Advance(k));
    VoteCommits(w2, k, c, u);
    actions := before + [Advance(k)];
  }

  /** A vote that commits after a close has counted: the round closes on the first option while the second one has
      the only vote. */
  lemma LateVoteUnseats(w: World, round: RoundId, u: UserId, i: RequestId, k: RequestId, voteId: VoteId)
    returns (actions: seq<Action>)
    requires OpenWithoutVotes(w.db, round) && |OptionsOf(w.db.options, round)| >= 2
    requires voteId !in w.db.rows && voteId !in w.ballots && i !in w.requests && k !in w.requests && i != k
    ensures var listed := OptionsOf(w.db.options, round);
      var db := Exec(w, actions).db;
      ClosedWith(db, round, listed[0].id) && FirstMost(db, round, listed[1].id) && listed[0].id != listed[1].id
  {
    var listed := OptionsOf(w.db.options, round);
    OptionsOfDistinct(w.db.options, round);
    var sofar, w1 := VoteAfterCount(w, round, u, i, k, voteId);
    WinnerOfFew(Votes(w1.db.rows), round, listed, 1);
    CloseCommits(w1, i, round, listed[0].id);
    Then(w, sofar, w1, Advance(i));
    actions := sofar + [Advance(i)];
  }
}
