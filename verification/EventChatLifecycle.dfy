/** The event-chat clean-up of app/tasks/cleanup.py: a daily countdown in rooms of past events and deletion of
    the room five days after the event. Times are microseconds since the epoch, in UTC. */
module EventChatLifecycle {
  import opened Common

  type RoomId = nat
  type EventId = nat
  type UserId = nat

  const DAY: int := 86_400_000_000
  const GRACE: int := 5 * DAY

  function UtcDay(t: int): int {
    t / DAY
  }

  /** now with its time of day set to zero. */
  function TodayStart(now: int): int {
    now - now % DAY
  }

  function CountdownText(daysLeft: int): string {
    if daysLeft <= 0 then "Чат події буде видалено сьогодні."
    else if daysLeft == 1 then "Залишився 1 день до видалення цього чату."
    else if daysLeft <= 4 then "Залишилось " + Decimal(daysLeft) + " дні до видалення цього чату."
    else "Залишилось " + Decimal(daysLeft) + " днів до видалення цього чату."
  }

  datatype Message = Message(bot: bool, at: int, text: string)

  /** `rooms` gives each room's event, if it has one; `messages` lists each room's messages as inserted. */
  datatype Store = Store(
    rooms: map<RoomId, Option<EventId>>,
    events: map<EventId, int>,
    messages: map<RoomId, seq<Message>>,
    bans: set<(RoomId, UserId)>,
    readMarks: set<(RoomId, UserId)>)

  predicate HasEvent(s: Store, r: RoomId) {
    r in s.rooms && s.rooms[r].Some? && s.rooms[r].value in s.events
  }

  function EventDate(s: Store, r: RoomId): int
    requires HasEvent(s, r)
  {
    s.events[s.rooms[r].value]
  }

  /** The rooms the pass selects: their event lies in the past. */
  function Selected(s: Store, now: int): set<RoomId> {
    set r | r in s.rooms && HasEvent(s, r) && EventDate(s, r) < now
  }

  function Expired(s: Store, now: int): set<RoomId> {
    set r | r in s.rooms && HasEvent(s, r) && EventDate(s, r) + GRACE <= now
  }

  function MessagesOf(s: Store, r: RoomId): seq<Message> {
    if r in s.messages then s.messages[r] else []
  }

  predicate PostedToday(ms: seq<Message>, now: int) {
    exists i :: 0 <= i < |ms| && ms[i].bot && ms[i].at >= TodayStart(now)
  }

  /** What one row of the loop makes of its room's messages. The database stamps the message, not before `now`. */
  function Visited(ms: seq<Message>, date: int, now: int, stamp: int): seq<Message> {
    if now >= date + GRACE || PostedToday(ms, now) then ms
    else ms + [Message(true, stamp, CountdownText((date + GRACE - now) / DAY))]
  }

  function VisitRow(s: Store, r: RoomId, now: int, stamp: int): Store {
    if !HasEvent(s, r) then s
    else
      var ms := Visited(MessagesOf(s, r), EventDate(s, r), now, stamp);
      if ms == MessagesOf(s, r) then s else s.(messages := s.messages[r := ms])
  }

  function VisitRows(s: Store, order: seq<RoomId>, now: int, stamp: RoomId -> int): Store
    decreases |order|
  {
    if order == [] then s
    else
      var n := |order| - 1;
      VisitRow(VisitRows(s, order[..n], now, stamp), order[n], now, stamp(order[n]))
  }

  // the four deletes of the final commit
  function DeleteReads(s: Store, gone: set<RoomId>): Store {
    s.(readMarks := set x | x in s.readMarks && x.0 !in gone)
  }

  function DeleteBans(s: Store, gone: set<RoomId>): Store {
    s.(bans := set x | x in s.bans && x.0 !in gone)
  }

  function DeleteMessages(s: Store, gone: set<RoomId>): Store {
    s.(messages := s.messages - gone)
  }

  function DeleteRooms(s: Store, gone: set<RoomId>): Store {
    s.(rooms := s.rooms - gone)
  }

  function DeleteAll(s: Store, gone: set<RoomId>): Store {
    DeleteRooms(DeleteMessages(DeleteBans(DeleteReads(s, gone), gone), gone), gone)
  }

  /** One pass over the selected rooms in the order the query returned them. */
  function Pass(s: Store, order: seq<RoomId>, now: int, stamp: RoomId -> int): Store {
    var visited := VisitRows(s, order, now, stamp);
    DeleteAll(visited, Expired(s, now))
  }

  ghost predicate QueryOrder(s: Store, now: int, order: seq<RoomId>) {
    && (forall r :: r in order <==> r in Selected(s, now))
    && (forall i, j :: 0 <= i < j < |order| ==> order[i] != order[j])
  }

  ghost predicate StampsLater(now: int, stamp: RoomId -> int) {
    forall r :: stamp(r) >= now
  }

  /** Every message, ban and read row points at an existing room. */
  ghost predicate NoOrphans(s: Store) {
    && (forall r :: r in s.messages ==> r in s.rooms)
    && (forall x :: x in s.bans ==> x.0 in s.rooms)
    && (forall x :: x in s.readMarks ==> x.0 in s.rooms)
  }

  // ----- what a pass does -----

  /** The loop acts on each room as if it were alone. */
  lemma {:induction false} RowsAreIndependent(s: Store, order: seq<RoomId>, now: int, stamp: RoomId -> int)
    requires forall i, j :: 0 <= i < j < |order| ==> order[i] != order[j]
    requires forall r :: r in order ==> HasEvent(s, r)
    ensures var s' := VisitRows(s, order, now, stamp);
      && s' == s.(messages := s'.messages)
      && (forall r :: r in order ==> MessagesOf(s', r) == Visited(MessagesOf(s, r), EventDate(s, r), now, stamp(r)))
      && (forall r :: r !in order ==> MessagesOf(s', r) == MessagesOf(s, r))
      && (forall r :: r in s'.messages ==> r in s.messages || r in order)
    decreases |order|
  {
    if order != [] {
      var n := |order| - 1;
      RowsAreIndependent(s, order[..n], now, stamp);
      assert order == order[..n] + [order[n]];
    }
  }

  /** Each delete statement of the final commit leaves every row with its room. */
  lemma DeletesKeepReferences(s: Store, gone: set<RoomId>)
    requires NoOrphans(s)
    ensures var a := DeleteReads(s, gone);
      var b := DeleteBans(a, gone);
      var c := DeleteMessages(b, gone);
      NoOrphans(a) && NoOrphans(b) && NoOrphans(c) && NoOrphans(DeleteRooms(c, gone))
  {
  }

  /** A pass deletes exactly the rooms whose event is five days past, with their bans and read marks and nobody
      else's; rooms without a past event are exactly as before. */
  lemma PassEffect(s: Store, order: seq<RoomId>, now: int, stamp: RoomId -> int)
    requires NoOrphans(s) && QueryOrder(s, now, order)
    ensures var s' := Pass(s, order, now, stamp);
      && NoOrphans(s') && s'.events == s.events
      && s'.rooms == s.rooms - Expired(s, now) && Expired(s', now) == {}
      && (forall r :: r in s'.rooms <==> r in s.rooms && !(HasEvent(s, r) && EventDate(s, r) + 432_000_000_000 <= now))
      && (forall x :: x in s'.bans <==> x in s.bans && x.0 in s'.rooms)
      && (forall x :: x in s'.readMarks <==> x in s.readMarks && x.0 in s'.rooms)
      && (forall r :: r in Selected(s, now) && r in s'.rooms ==>
            MessagesOf(s', r) == Visited(MessagesOf(s, r), EventDate(s, r), now, stamp(r)))
      && (forall r :: r in s.rooms && r !in Selected(s, now) ==> r in s'.rooms && MessagesOf(s', r) == MessagesOf(s, r))
  {
    RowsAreIndependent(s, order, now, stamp);
    var visited := VisitRows(s, order, now, stamp);
    assert NoOrphans(visited);
    DeletesKeepReferences(visited, Expired(s, now));
    assert Expired(s, now) <= Selected(s, now);
  }

  /** `left` whole days remain from `now` until five days after `date`. */
  ghost predicate DaysLeft(left: int, date: int, now: int) {
    left * 86_400_000_000 <= date + 432_000_000_000 - now < (left + 1) * 86_400_000_000
  }

  /** The bot spoke in the room since midnight of the UTC day of `now`. */
  ghost predicate SpokeToday(ms: seq<Message>, now: int) {
    exists m :: m in ms && m.bot && m.at >= now - now % 86_400_000_000
  }

  lemma SpokeIsPosted(ms: seq<Message>, now: int)
    ensures SpokeToday(ms, now) <==> PostedToday(ms, now)
  {
    if SpokeToday(ms, now) {
      var m :| m in ms && m.bot && m.at >= now - now % 86_400_000_000;
      var i :| 0 <= i < |ms| && ms[i] == m;
    }
  }

  lemma DaysLeftIsQuotient(left: int, date: int, now: int)
    requires DaysLeft(left, date, now)
    ensures left == (date + GRACE - now) / DAY
    ensures date < now < date + GRACE ==> 0 <= left <= 4
  {
  }

  /** A visit before the deadline appends the bot's message of the day exactly when it has not spoken that day. */
  lemma VisitSpeaks(ms: seq<Message>, date: int, now: int, stamp: int, left: int)
    requires DaysLeft(left, date, now) && now < date + GRACE && now <= stamp
    ensures Visited(ms, date, now, stamp)
         == ms + if SpokeToday(ms, now) then [] else [Message(true, stamp, CountdownText(left))]
    ensures SpokeToday(Visited(ms, date, now, stamp), now)
  {
    SpokeIsPosted(ms, now);
    DaysLeftIsQuotient(left, date, now);
    var said := Message(true, stamp, CountdownText(left));
    assert said in ms + [said];
  }

  /** A room that outlives a pass keeps its messages in order. It gains one, the bot's with the days left, exactly
      when its event is past and the bot had not spoken that day. */
  lemma DailyMessage(s: Store, order: seq<RoomId>, now: int, stamp: RoomId -> int, r: RoomId, left: int)
    requires NoOrphans(s) && QueryOrder(s, now, order) && StampsLater(now, stamp)
    requires HasEvent(s, r) && DaysLeft(left, EventDate(s, r), now)
    ensures var ms, ms' := MessagesOf(s, r), MessagesOf(Pass(s, order, now, stamp), r);
      r in Pass(s, order, now, stamp).rooms ==>
        if EventDate(s, r) >= now then ms' == ms
        else
          && ms' == ms + (if SpokeToday(ms, now) then [] else [Message(true, stamp(r), CountdownText(left))])
          && SpokeToday(ms', now) && 0 <= left <= 4
  {
    PassEffect(s, order, now, stamp);
    DaysLeftIsQuotient(left, EventDate(s, r), now);
    if r in Pass(s, order, now, stamp).rooms && EventDate(s, r) < now {
      assert r in Selected(s, now);
      VisitSpeaks(MessagesOf(s, r), EventDate(s, r), now, stamp(r), left);
    }
  }

  /** What the bot says, for each number of days it can announce. */
  lemma Announcements(left: int)
    requires 0 <= left <= 4
    ensures left == 0 ==> CountdownText(left) == "Чат події буде видалено сьогодні."
    ensures left == 1 ==> CountdownText(left) == "Залишився 1 день до видалення цього чату."
    ensures left >= 2 ==> CountdownText(left) == "Залишилось " + ["01234"[left]] + " дні до видалення цього чату."
  {
    if left >= 2 { assert Decimal(left) == ["01234"[left]]; }
  }

  // ----- at most six messages over any run -----

  datatype Action =
    | PassAt(now: int, order: seq<RoomId>, stamp: RoomId -> int)
    | UserPosts(room: RoomId, at: int, text: string)

  function Act(s: Store, a: Action): Store {
    match a
    case PassAt(now, order, stamp) => Pass(s, order, now, stamp)
    case UserPosts(r, at, text) =>
      if r in s.rooms then s.(messages := s.messages[r := MessagesOf(s, r) + [Message(false, at, text)]]) else s
  }

  function Run(s: Store, actions: seq<Action>): Store
    decreases |actions|
  {
    if actions == [] then s else Run(Act(s, actions[0]), actions[1..])
  }

  /** Passes come at non-decreasing times, each over the rooms its query selects. */
  ghost predicate Timely(s: Store, clock: int, actions: seq<Action>)
    decreases |actions|
  {
    actions == [] || match actions[0]
      case PassAt(now, order, stamp) =>
        clock <= now && QueryOrder(s, now, order) && StampsLater(now, stamp) && Timely(Act(s, actions[0]), now, actions[1..])
      case UserPosts(_, _, _) => Timely(Act(s, actions[0]), clock, actions[1..])
  }

  function Bots(ms: seq<Message>): seq<Message>
    decreases |ms|
  {
    if ms == [] then []
    else Bots(ms[..|ms| - 1]) + if ms[|ms| - 1].bot then [ms[|ms| - 1]] else []
  }

  lemma {:induction false} BotsPosted(ms: seq<Message>, now: int)
    ensures PostedToday(ms, now) <==> PostedToday(Bots(ms), now)
    decreases |ms|
  {
    if ms != [] {
      var front, last := ms[..|ms| - 1], ms[|ms| - 1];
      BotsPosted(front, now);
      PostedAppend(front, last, now);
      assert ms == front + [last];
      if last.bot {
        PostedAppend(Bots(front), last, now);
      } else {
        assert Bots(ms) == Bots(front);
      }
    }
  }

  lemma PostedAppend(ms: seq<Message>, m: Message, now: int)
    ensures PostedToday(ms + [m], now) <==> PostedToday(ms, now) || (m.bot && m.at >= TodayStart(now))
  {
    var all := ms + [m];
    if PostedToday(ms, now) {
      var i :| 0 <= i < |ms| && ms[i].bot && ms[i].at >= TodayStart(now);
      assert all[i] == ms[i];
    }
    assert all[|ms|] == m;
  }

  /** The bot's messages announce `days`. */
  ghost predicate Announces(bots: seq<Message>, days: seq<int>) {
    && |days| == |bots|
    && (forall i :: 0 <= i < |bots| ==> bots[i].bot && bots[i].text == CountdownText(days[i]) && 0 <= days[i] <= 4)
  }

  /** They come on increasing UTC days from the event's on, all but the last before the last day of the grace
      period. */
  ghost predicate OnNewDays(bots: seq<Message>, date: int) {
    && (forall i :: 0 <= i < |bots| ==> UtcDay(bots[i].at) >= UtcDay(date))
    && (forall i :: 0 <= i < |bots| - 1 ==> UtcDay(bots[i].at) < UtcDay(date + GRACE - 1))
    && (forall i, j :: 0 <= i < j < |bots| ==> UtcDay(bots[i].at) < UtcDay(bots[j].at))
  }

  ghost predicate NeverMore(days: seq<int>, least: int) {
    && (forall i, j :: 0 <= i < j < |days| ==> days[i] >= days[j])
    && (forall i :: 0 <= i < |days| ==> days[i] >= least)
  }

  ghost predicate Countdown(bots: seq<Message>, date: int, clock: int, days: seq<int>) {
    Announces(bots, days) && OnNewDays(bots, date) && NeverMore(days, (date + GRACE - clock) / DAY)
  }

  lemma NewDay(at: int, now: int)
    requires at < TodayStart(now)
    ensures UtcDay(at) < UtcDay(now)
  {
  }

  lemma LaterClock(bots: seq<Message>, date: int, clock: int, days: seq<int>, now: int)
    requires Countdown(bots, date, clock, days) && clock <= now
    ensures Countdown(bots, date, now, days)
  {
  }

  lemma DaysAppend(bots: seq<Message>, date: int, now: int, m: Message)
    requires OnNewDays(bots, date) && date < now < date + GRACE && now <= m.at
    requires forall i :: 0 <= i < |bots| ==> UtcDay(bots[i].at) < UtcDay(now)
    ensures OnNewDays(bots + [m], date)
  {
    assert UtcDay(date) <= UtcDay(now) <= UtcDay(date + GRACE - 1) && UtcDay(now) <= UtcDay(m.at);
    var all := bots + [m];
    assert all[|bots|] == m && forall i :: 0 <= i < |bots| ==> all[i] == bots[i];
  }

  lemma CountdownAppend(bots: seq<Message>, date: int, now: int, days: seq<int>, m: Message, left: int)
    requires Countdown(bots, date, now, days)
    requires m.bot && m.text == CountdownText(left) && 0 <= left <= 4 && left == (date + GRACE - now) / DAY
    requires date < now < date + GRACE && now <= m.at
    requires forall i :: 0 <= i < |bots| ==> UtcDay(bots[i].at) < UtcDay(now)
    ensures Countdown(bots + [m], date, now, days + [left])
  {
    DaysAppend(bots, date, now, m);
  }

  lemma VisitKeepsCountdown(bots: seq<Message>, date: int, clock: int, days: seq<int>, now: int, stamp: int) returns (days': seq<int>)
    requires Countdown(bots, date, clock, days) && clock <= now && stamp >= now && date < now
    ensures Countdown(Visited(bots, date, now, stamp), date, now, days')
  {
    days' := days;
    LaterClock(bots, date, clock, days, now);
    if now < date + GRACE && !PostedToday(bots, now) {
      var left := (date + GRACE - now) / DAY;
      forall i | 0 <= i < |bots| ensures UtcDay(bots[i].at) < UtcDay(now) {
        assert bots[i].at < TodayStart(now);
        NewDay(bots[i].at, now);
      }
      CountdownAppend(bots, date, now, days, Message(true, stamp, CountdownText(left)), left);
      days' := days + [left];
    }
  }

  /** Strictly increasing numbers in an interval are no more than its length. */
  lemma {:induction false} IncreasingBound(bots: seq<Message>, lo: int, hi: int)
    requires forall i, j :: 0 <= i < j < |bots| ==> UtcDay(bots[i].at) < UtcDay(bots[j].at)
    requires forall i :: 0 <= i < |bots| ==> lo <= UtcDay(bots[i].at) < hi
    requires lo <= hi
    ensures |bots| <= hi - lo
    decreases |bots|
  {
    if bots != [] {
      var n := |bots| - 1;
      IncreasingBound(bots[..n], lo, UtcDay(bots[n].at));
    }
  }

  lemma CountdownBound(bots: seq<Message>, date: int, clock: int, days: seq<int>)
    requires Countdown(bots, date, clock, days)
    ensures |bots| <= 6
  {
    if bots != [] {
      IncreasingBound(bots[..|bots| - 1], UtcDay(date), UtcDay(date + GRACE - 1));
    }
  }

  lemma VisitedBots(ms: seq<Message>, date: int, now: int, stamp: int)
    ensures Bots(Visited(ms, date, now, stamp)) == Visited(Bots(ms), date, now, stamp)
  {
    BotsPosted(ms, now);
  }

  lemma PassKeepsCountdown(s: Store, order: seq<RoomId>, now: int, stamp: RoomId -> int, r: RoomId, clock: int, days: seq<int>)
    returns (days': seq<int>)
    requires NoOrphans(s) && HasEvent(s, r) && QueryOrder(s, now, order) && StampsLater(now, stamp) && clock <= now
    requires Countdown(Bots(MessagesOf(s, r)), EventDate(s, r), clock, days)
    ensures var s' := Pass(s, order, now, stamp);
      r in s'.rooms ==> Countdown(Bots(MessagesOf(s', r)), EventDate(s, r), now, days')
  {
    days' := days;
    var ms := MessagesOf(s, r);
    PassEffect(s, order, now, stamp);
    if r in Selected(s, now) {
      VisitedBots(ms, EventDate(s, r), now, stamp(r));
      days' := VisitKeepsCountdown(Bots(ms), EventDate(s, r), clock, days, now, stamp(r));
    }
  }

  lemma ActKeepsCountdown(s: Store, a: Action, r: RoomId, clock: int, days: seq<int>) returns (days': seq<int>)
    requires NoOrphans(s) && HasEvent(s, r) && Timely(s, clock, [a])
    requires Countdown(Bots(MessagesOf(s, r)), EventDate(s, r), clock, days)
    ensures var s' := Act(s, a);
      && NoOrphans(s') && s'.events == s.events
      && (r in s'.rooms ==>
            && s'.rooms[r] == s.rooms[r]
            && Countdown(Bots(MessagesOf(s', r)), EventDate(s, r), if a.PassAt? then a.now else clock, days'))
  {
    days' := days;
    var ms := MessagesOf(s, r);
    match a
    case UserPosts(room, at, text) =>
    case PassAt(now, order, stamp) =>
      PassEffect(s, order, now, stamp);
      days' := PassKeepsCountdown(s, order, now, stamp, r, clock, days);
  }

  lemma {:induction false} RunKeepsCountdown(s: Store, r: RoomId, clock: int, days: seq<int>, actions: seq<Action>)
    returns (clock': int, days': seq<int>)
    requires NoOrphans(s) && HasEvent(s, r) && Timely(s, clock, actions)
    requires Countdown(Bots(MessagesOf(s, r)), EventDate(s, r), clock, days)
    ensures var s' := Run(s, actions);
      r in s'.rooms ==> Countdown(Bots(MessagesOf(s', r)), EventDate(s, r), clock', days')
    decreases |actions|
  {
    clock', days' := clock, days;
    if actions != [] {
      var a := actions[0];
      var next := ActKeepsCountdown(s, a, r, clock, days);
      var s1 := Act(s, a);
      if r in s1.rooms {
        clock', days' := RunKeepsCountdown(s1, r, if a.PassAt? then a.now else clock, next, actions[1..]);
      } else {
        GoneStaysGone(s1, r, actions[1..]);
      }
    }
  }

  lemma {:induction false} GoneStaysGone(s: Store, r: RoomId, actions: seq<Action>)
    requires r !in s.rooms
    ensures r !in Run(s, actions).rooms
    decreases |actions|
  {
    if actions != [] {
      var a := actions[0];
      if a.PassAt? { RoomsOnlyShrink(s, a.order, a.now, a.stamp); }
      GoneStaysGone(Act(s, a), r, actions[1..]);
    }
  }

  lemma {:induction false} RoomsOnlyShrink(s: Store, order: seq<RoomId>, now: int, stamp: RoomId -> int)
    ensures VisitRows(s, order, now, stamp).rooms == s.rooms
    ensures VisitRows(s, order, now, stamp).events == s.events
    decreases |order|
  {
    if order != [] { RoomsOnlyShrink(s, order[..|order| - 1], now, stamp); }
  }

  /** Over any run, a room that starts without bot messages gets at most six, at most one a UTC day, and they
      announce days left that lie in 0..4 and never increase. */
  lemma CountdownOverRuns(s: Store, r: RoomId, clock: int, actions: seq<Action>) returns (days: seq<int>)
    requires NoOrphans(s) && HasEvent(s, r) && Timely(s, clock, actions) && Bots(MessagesOf(s, r)) == []
    ensures var s' := Run(s, actions);
      var bots := Bots(MessagesOf(s', r));
      r in s'.rooms ==>
        && |bots| <= 6 && |days| == |bots|
        && (forall i, j :: 0 <= i < j < |bots| ==> UtcDay(bots[i].at) < UtcDay(bots[j].at) && days[i] >= days[j])
        && (forall i :: 0 <= i < |bots| ==> 0 <= days[i] <= 4 && bots[i].text == CountdownText(days[i]))
  {
    var clock', days' := RunKeepsCountdown(s, r, clock, [], actions);
    days := days';
    if r in Run(s, actions).rooms {
      CountdownBound(Bots(MessagesOf(Run(s, actions), r)), EventDate(s, r), clock', days');
    }
  }

  // ----- restarting a pass -----

  function Texts(ms: seq<Message>): seq<(bool, string)> {
    seq(|ms|, i requires 0 <= i < |ms| => (ms[i].bot, ms[i].text))
  }

  /** Visiting a room a second time in one pass adds nothing, and when the database stamps a message does not
      change its text. */
  lemma RevisitTexts(ms: seq<Message>, date: int, now: int, first: int, again: int, whole: int)
    requires first >= now
    ensures Texts(Visited(Visited(ms, date, now, first), date, now, again)) == Texts(Visited(ms, date, now, whole))
    ensures Texts(Visited(ms, date, now, again)) == Texts(Visited(ms, date, now, whole))
  {
    var ms' := Visited(ms, date, now, first);
    if ms' != ms {
      assert ms'[|ms|].bot && ms'[|ms|].at >= TodayStart(now);
      assert PostedToday(ms', now);
    }
    assert Visited(ms', date, now, again) == (if ms' != ms then ms' else ms);
  }

  /** A whole loop over the query's rows visits the selected rooms and no others. */
  lemma QueryRows(s: Store, order: seq<RoomId>, now: int, stamp: RoomId -> int)
    requires QueryOrder(s, now, order)
    ensures var s' := VisitRows(s, order, now, stamp);
      && s' == s.(messages := s'.messages)
      && (forall r :: MessagesOf(s', r) ==
            if r in Selected(s, now) then Visited(MessagesOf(s, r), EventDate(s, r), now, stamp(r)) else MessagesOf(s, r))
  {
    assert forall r :: r in order ==> r in Selected(s, now);
    RowsAreIndependent(s, order, now, stamp);
    forall r ensures r in order <==> r in Selected(s, now) {
    }
  }

  /** Part of the loop visits some of the selected rooms. */
  lemma PartialRows(s: Store, order: seq<RoomId>, k: nat, now: int, stamp: RoomId -> int)
    requires QueryOrder(s, now, order) && k <= |order|
    ensures var s' := VisitRows(s, order[..k], now, stamp);
      && s' == s.(messages := s'.messages) && Selected(s', now) == Selected(s, now)
      && (forall r :: MessagesOf(s', r) == MessagesOf(s, r)
            || (r in Selected(s, now) && MessagesOf(s', r) == Visited(MessagesOf(s, r), EventDate(s, r), now, stamp(r))))
  {
    var part := order[..k];
    assert forall i :: 0 <= i < |part| ==> part[i] == order[i];
    forall r | r in part ensures r in Selected(s, now) && HasEvent(s, r) {
      assert r in order;
    }
    RowsAreIndependent(s, part, now, stamp);
    var s' := VisitRows(s, part, now, stamp);
    forall r ensures MessagesOf(s', r) == MessagesOf(s, r)
      || (r in Selected(s, now) && MessagesOf(s', r) == Visited(MessagesOf(s, r), EventDate(s, r), now, stamp(r)))
    {
      if r in part {
        assert r in Selected(s, now);
      }
    }
  }

  lemma RestartedRows(s: Store, now: int, order: seq<RoomId>, k: nat, order': seq<RoomId>,
                      first: RoomId -> int, again: RoomId -> int, whole: RoomId -> int)
    requires QueryOrder(s, now, order) && k <= |order| && StampsLater(now, first)
    requires QueryOrder(VisitRows(s, order[..k], now, first), now, order')
    ensures var a := VisitRows(VisitRows(s, order[..k], now, first), order', now, again);
      var b := VisitRows(s, order, now, whole);
      && a == s.(messages := a.messages) && b == s.(messages := b.messages)
      && (forall r :: Texts(MessagesOf(a, r)) == Texts(MessagesOf(b, r)))
  {
    var m := VisitRows(s, order[..k], now, first);
    PartialRows(s, order, k, now, first);
    QueryRows(s, order, now, whole);
    QueryRows(m, order', now, again);
    var a, b := VisitRows(m, order', now, again), VisitRows(s, order, now, whole);
    forall r ensures Texts(MessagesOf(a, r)) == Texts(MessagesOf(b, r)) {
      if r in Selected(s, now) {
        RevisitTexts(MessagesOf(s, r), EventDate(s, r), now, first(r), again(r), whole(r));
      }
    }
  }

  /** A pass cut off after `k` of its commits and run again at the same time, in any order, leaves the same
      rooms, bans and read marks and the same texts in every room as one uninterrupted pass. */
  lemma RestartedPass(s: Store, now: int, order: seq<RoomId>, k: nat, order': seq<RoomId>,
                      first: RoomId -> int, again: RoomId -> int, whole: RoomId -> int)
    requires QueryOrder(s, now, order) && k <= |order| && StampsLater(now, first)
    requires QueryOrder(VisitRows(s, order[..k], now, first), now, order')
    ensures var restarted := Pass(VisitRows(s, order[..k], now, first), order', now, again);
      var straight := Pass(s, order, now, whole);
      && restarted.rooms == straight.rooms && restarted.bans == straight.bans && restarted.readMarks == straight.readMarks
      && (forall r :: Texts(MessagesOf(restarted, r)) == Texts(MessagesOf(straight, r)))
  {
    RestartedRows(s, now, order, k, order', first, again, whole);
    var m := VisitRows(s, order[..k], now, first);
    var a, b := VisitRows(m, order', now, again), VisitRows(s, order, now, whole);
    RoomsOnlyShrink(s, order[..k], now, first);
    assert Expired(m, now) == Expired(s, now);
    DeletedTexts(a, b, Expired(s, now));
  }

  lemma DeletedTexts(a: Store, b: Store, gone: set<RoomId>)
    requires forall r :: Texts(MessagesOf(a, r)) == Texts(MessagesOf(b, r))
    ensures forall r :: Texts(MessagesOf(DeleteAll(a, gone), r)) == Texts(MessagesOf(DeleteAll(b, gone), r))
  {
    forall r ensures Texts(MessagesOf(DeleteAll(a, gone), r)) == Texts(MessagesOf(DeleteAll(b, gone), r)) {
      assert r !in gone ==> MessagesOf(DeleteAll(a, gone), r) == MessagesOf(a, r)
                            && MessagesOf(DeleteAll(b, gone), r) == MessagesOf(b, r);
    }
  }

  /** Stopped after its last commit and run again at the same time, a pass changes no room and no text. */
  lemma RepeatedPass(s: Store, now: int, order: seq<RoomId>, order': seq<RoomId>, first: RoomId -> int, again: RoomId -> int)
    requires NoOrphans(s) && QueryOrder(s, now, order) && StampsLater(now, first)
    requires QueryOrder(Pass(s, order, now, first), now, order')
    ensures var s' := Pass(s, order, now, first);
      var s'' := Pass(s', order', now, again);
      && s''.rooms == s'.rooms
      && (forall r :: r in s'.rooms ==> Texts(MessagesOf(s'', r)) == Texts(MessagesOf(s', r)))
  {
    var s' := Pass(s, order, now, first);
    PassEffect(s, order, now, first);
    PassEffect(s', order', now, again);
    var s'' := Pass(s', order', now, again);
    assert s''.rooms == s'.rooms;
    forall r | r in s'.rooms ensures Texts(MessagesOf(s'', r)) == Texts(MessagesOf(s', r)) {
      if r in Selected(s', now) {
        assert r in Selected(s, now);
        RevisitTexts(MessagesOf(s, r), EventDate(s, r), now, first(r), again(r), first(r));
      }
    }
  }

  // ----- the background job -----

  class ChatStore {
    var rooms: map<RoomId, Option<EventId>>
    var events: map<EventId, int>
    var messages: map<RoomId, seq<Message>>
    var bans: set<(RoomId, UserId)>
    var readMarks: set<(RoomId, UserId)>

    ghost function State(): Store
      reads this
    {
      Store(rooms, events, messages, bans, readMarks)
    }

    method BotPostedToday(r: RoomId, now: int) returns (posted: bool)
      ensures posted == PostedToday(MessagesOf(State(), r), now)
    {
      var ms := if r in messages then messages[r] else [];
      for i := 0 to |ms|
        invariant !PostedToday(ms[..i], now)
      {
        PostedAppend(ms[..i], ms[i], now);
        assert ms[..i + 1] == ms[..i] + [ms[i]];
        if ms[i].bot && ms[i].at >= now - now % DAY {
          assert PostedToday(ms, now);
          return true;
        }
      }
      assert ms[..|ms|] == ms;
      return false;
    }

    /** One row of the loop: note an expired room, or post today's countdown once. */
    method VisitRoom(r: RoomId, now: int, stamp: int) returns (expired: bool)
      requires HasEvent(State(), r)
      modifies this`messages
      ensures State() == VisitRow(old(State()), r, now, stamp)
      ensures expired <==> r in Expired(old(State()), now)
    {
      var deletionAt := events[rooms[r].value] + GRACE;
      if now >= deletionAt {
        return true;
      }
      var posted := BotPostedToday(r, now);
      if !posted {
        var ms := if r in messages then messages[r] else [];
        messages := messages[r := ms + [Message(true, stamp, CountdownText((deletionAt - now) / DAY))]];
      }
      return false;
    }

    method DeleteExpired(expired: set<RoomId>)
      modifies this`messages, this`rooms, this`bans, this`readMarks
      ensures State() == DeleteAll(old(State()), expired)
    {
      readMarks := set x | x in readMarks && x.0 !in expired;
      bans := set x | x in bans && x.0 !in expired;
      messages := messages - expired;
      rooms := rooms - expired;
    }

    method VisitRooms(now: int, rows: seq<RoomId>, stamp: RoomId -> int) returns (expired: set<RoomId>)
      requires forall r :: r in rows ==> HasEvent(State(), r)
      modifies this`messages
      ensures State() == VisitRows(old(State()), rows, now, stamp)
      ensures forall r :: r in expired <==> r in rows && r in Expired(old(State()), now)
    {
      ghost var before := State();
      expired := {};
      var i := 0;
      while i < |rows|
        invariant 0 <= i <= |rows|
        invariant State() == VisitRows(before, rows[..i], now, stamp)
        invariant forall r :: r in expired <==> r in rows[..i] && r in Expired(before, now)
      {
        var r := rows[i];
        assert rows[..i + 1][..i] == rows[..i] && rows[..i + 1] == rows[..i] + [r];
        assert r in rows && HasEvent(before, r);
        var gone := VisitRoom(r, now, stamp(r));
        expired := if gone then expired + {r} else expired;
        i := i + 1;
      }
      assert rows[..i] == rows;
    }

    method RunPass(now: int, rows: seq<RoomId>, stamp: RoomId -> int)
      requires NoOrphans(State()) && QueryOrder(State(), now, rows)
      modifies this`messages, this`rooms, this`bans, this`readMarks
      ensures State() == Pass(old(State()), rows, now, stamp)
      ensures NoOrphans(State()) && Expired(State(), now) == {}
      ensures forall x :: x in bans <==> x in old(bans) && x.0 in rooms
      ensures forall x :: x in readMarks <==> x in old(readMarks) && x.0 in rooms
    {
      PassEffect(State(), rows, now, stamp);
      assert forall r :: r in rows ==> r in Selected(State(), now);
      assert Expired(State(), now) <= Selected(State(), now);
      var expired := VisitRooms(now, rows, stamp);
      assert expired == Expired(old(State()), now);
      DeleteExpired(expired);
    }
  }
}
