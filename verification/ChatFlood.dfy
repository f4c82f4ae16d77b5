/** The chat flood limiter of app/services/chat_flood.py: an in-process sliding window on a bounded deque,
    a fixed-window counter in Redis, and a breaker around the Redis calls. Times are seconds. */
module ChatFlood {
  import opened Common

  type Key = (string, string)

  const REDIS_BACKOFF_SECONDS: real := 30.0

  // ----- the sliding window: bounded deque against full log -----

  ghost predicate Sorted(log: seq<real>) {
    forall i, j :: 0 <= i <= j < |log| ==> log[i] <= log[j]
  }

  /** The last `n` entries, which is what a deque of length `n` holds. */
  function LastN<T>(s: seq<T>, n: nat): seq<T> {
    if |s| <= n then s else s[|s| - n..]
  }

  /** How many entries of the log are younger than the window at `now`. */
  function Recent(log: seq<real>, now: real, window: real): nat
    decreases |log|
  {
    if log == [] then 0
    else Recent(log[..|log| - 1], now, window) + if now - log[|log| - 1] < window then 1 else 0
  }

  /** The check made on a deque of length `max`. */
  predicate DequeLimited(deque: seq<real>, now: real, max: nat, window: real)
    requires max >= 1
  {
    |deque| == max && now - deque[0] < window
  }

  lemma {:induction false} NoneRecent(log: seq<real>, now: real, window: real)
    requires forall i :: 0 <= i < |log| ==> now - log[i] >= window
    ensures Recent(log, now, window) == 0
    decreases |log|
  {
    if log != [] { NoneRecent(log[..|log| - 1], now, window); }
  }

  lemma {:induction false} RecentIsSuffix(log: seq<real>, now: real, window: real, max: nat)
    requires Sorted(log) && max >= 1
    ensures Recent(log, now, window) >= max <==> |log| >= max && now - log[|log| - max] < window
    decreases |log|
  {
    if log != [] {
      var front := log[..|log| - 1];
      if now - log[|log| - 1] >= window {
        NoneRecent(log, now, window);
      } else if max > 1 {
        RecentIsSuffix(front, now, window, max - 1);
      }
    }
  }

  /** The log's count, as a set of frames. */
  lemma {:induction false} RecentCounts(log: seq<real>, now: real, window: real)
    ensures Recent(log, now, window) == |set k | 0 <= k < |log| && now - log[k] < window|
    decreases |log|
  {
    if log != [] {
      var front, last := log[..|log| - 1], |log| - 1;
      RecentCounts(front, now, window);
      var young := set k | 0 <= k < |front| && now - front[k] < window;
      assert (set k | 0 <= k < |log| && now - log[k] < window)
          == young + if now - log[last] < window then {last} else {};
    }
  }

  /** The check on the bounded deque is the check on the unbounded log, for every log and every bound. */
  lemma DequeAgreesWithLog(log: seq<real>, now: real, max: nat, window: real)
    requires Sorted(log) && max >= 1
    ensures DequeLimited(LastN(log, max), now, max, window) <==> Recent(log, now, window) >= max
  {
    RecentIsSuffix(log, now, window, max);
  }

  /** Frame `k` of the log was limited when it arrived. */
  ghost predicate Limited(log: seq<real>, k: nat, max: nat, window: real)
    requires k < |log|
  {
    Recent(log[..k + 1], log[k], window) >= max
  }

  ghost function Interval(a: int, b: int): (r: set<int>)
    requires a <= b
    ensures forall k :: k in r <==> a <= k < b
    ensures |r| == b - a
    decreases b - a
  {
    if a == b then {} else Interval(a, b - 1) + {b - 1}
  }

  ghost function AdmittedLocally(log: seq<real>, i: nat, j: nat, max: nat, window: real): set<int>
    requires j < |log|
  {
    set k | i <= k <= j && !Limited(log, k, max, window)
  }

  /** While a user keeps a connection, any span shorter than the window admits at most max - 1 frames. */
  lemma WindowBound(log: seq<real>, i: nat, j: nat, max: nat, window: real)
    requires Sorted(log) && max >= 1 && i <= j < |log| && log[j] - log[i] < window
    ensures |AdmittedLocally(log, i, j, max, window)| <= max - 1
  {
    forall k: nat | i + max - 1 <= k <= j
      ensures Limited(log, k, max, window)
    {
      RecentIsSuffix(log[..k + 1], log[k], window, max);
    }
    var early := Interval(i, i + max - 1);
    assert AdmittedLocally(log, i, j, max, window) <= early;
    SubsetSize(AdmittedLocally(log, i, j, max, window), early);
  }

  // ----- the Redis script: an atomic fixed-window counter -----

  datatype Cell = Absent | Counter(count: nat, expiresAt: Option<real>)

  /** INCR, then EXPIRE when the counter is new or has no expiry. `gone` says the key had expired by then. */
  function Incr(cell: Cell, gone: bool, now: real, ttl: real): (r: Cell)
    ensures r.Counter? && r.count >= 1
    // whatever the key looked like before, it has an expiry afterwards
    ensures r.expiresAt.Some?
    ensures cell.Absent? || gone ==> r == Counter(1, Some(now + ttl))
    ensures cell.Counter? && cell.count >= 1 && !gone && cell.expiresAt.Some? ==> r == Counter(cell.count + 1, cell.expiresAt)
    ensures cell.Counter? && !gone && cell.expiresAt.None? ==> r == Counter(cell.count + 1, Some(now + ttl))
  {
    var live := if gone then Absent else cell;
    var count := if live.Counter? then live.count + 1 else 1;
    var expiry := if live.Counter? then live.expiresAt else None;
    if count == 1 || expiry.None? then Counter(count, Some(now + ttl)) else Counter(count, expiry)
  }

  /** One frame counted by the script. */
  datatype Frame = Frame(now: real, before: Cell, gone: bool, after: Cell)

  /** Keys vanish by expiry alone, on or after the instant it is due. */
  ghost predicate ExpiryRespected(f: Frame) {
    && (f.gone ==> f.before.Counter? && f.before.expiresAt.Some? && f.before.expiresAt.value <= f.now)
    && (!f.gone && f.before.Counter? && f.before.expiresAt.Some? ==> f.now <= f.before.expiresAt.value)
  }

  ghost predicate RedisRun(frames: seq<Frame>, ttl: real) {
    && ttl >= 0.0
    && (forall k :: 0 <= k < |frames| ==>
          ExpiryRespected(frames[k]) && frames[k].after == Incr(frames[k].before, frames[k].gone, frames[k].now, ttl))
    && (forall k :: 0 <= k && k + 1 < |frames| ==>
          frames[k + 1].before == frames[k].after && frames[k].now <= frames[k + 1].now)
  }

  predicate Starts(f: Frame) {
    f.gone || f.before.Absent?
  }

  ghost function AdmittedByRedis(frames: seq<Frame>, i: nat, j: nat, max: nat): set<int>
    requires j < |frames| && forall k :: 0 <= k < |frames| ==> frames[k].after.Counter?
  {
    set k | i <= k <= j && frames[k].after.count < max
  }

  /** While no key expires, counts go up by one and the expiry stays. */
  lemma {:induction false} SameWindow(frames: seq<Frame>, ttl: real, a: nat, b: nat)
    requires RedisRun(frames, ttl) && a <= b < |frames|
    requires forall k :: a < k <= b ==> !Starts(frames[k])
    ensures frames[b].after.count == frames[a].after.count + (b - a)
    ensures frames[b].after.expiresAt == frames[a].after.expiresAt
    ensures frames[a].now <= frames[b].now
    decreases b - a
  {
    if a < b {
      SameWindow(frames, ttl, a, b - 1);
      assert frames[b - 1 + 1].before == frames[b - 1].after;
    }
  }

  lemma OneWindowAdmits(frames: seq<Frame>, ttl: real, a: nat, b: nat, max: nat)
    requires RedisRun(frames, ttl) && a <= b < |frames| && max >= 1
    requires forall k :: a < k <= b ==> !Starts(frames[k])
    ensures |AdmittedByRedis(frames, a, b, max)| <= max - 1
  {
    forall k: nat | a <= k <= b ensures frames[k].after.count == frames[a].after.count + (k - a) {
      SameWindow(frames, ttl, a, k);
    }
    var early := Interval(a, a + max - 1);
    assert AdmittedByRedis(frames, a, b, max) <= early;
    SubsetSize(AdmittedByRedis(frames, a, b, max), early);
  }

  ghost function FirstStart(frames: seq<Frame>, i: nat, j: nat): (p: nat)
    requires i <= j < |frames|
    ensures i < p <= j + 1
    ensures p <= j ==> Starts(frames[p])
    ensures forall k :: i < k < p ==> !Starts(frames[k])
    decreases j - i
  {
    if i == j then j + 1
    else if Starts(frames[i + 1]) then i + 1
    else FirstStart(frames, i + 1, j)
  }

  /** A window opens no earlier than the last frame of the one before, and lasts the whole TTL. */
  lemma NextStart(frames: seq<Frame>, ttl: real, a: nat, p: nat)
    requires RedisRun(frames, ttl) && a < p < |frames| && Starts(frames[p])
    requires forall k :: a < k < p ==> !Starts(frames[k])
    ensures frames[p].now >= frames[a].after.expiresAt.value
  {
    SameWindow(frames, ttl, a, p - 1);
    assert frames[p - 1 + 1].before == frames[p - 1].after;
  }

  lemma {:induction false} SameOrder(frames: seq<Frame>, ttl: real, a: nat, b: nat)
    requires RedisRun(frames, ttl) && a <= b < |frames|
    ensures frames[a].now <= frames[b].now
    decreases b - a
  {
    if a < b {
      SameOrder(frames, ttl, a, b - 1);
      assert frames[b - 1].now <= frames[b - 1 + 1].now;
    }
  }

  lemma AdmittedSplits(frames: seq<Frame>, i: nat, p: nat, j: nat, max: nat)
    requires i < p <= j < |frames| && forall k :: 0 <= k < |frames| ==> frames[k].after.Counter?
    ensures |AdmittedByRedis(frames, i, j, max)|
         <= |AdmittedByRedis(frames, i, p - 1, max)| + |AdmittedByRedis(frames, p, j, max)|
  {
    assert AdmittedByRedis(frames, i, j, max) == AdmittedByRedis(frames, i, p - 1, max) + AdmittedByRedis(frames, p, j, max);
  }

  /** A span shorter than the TTL meets at most two windows. */
  lemma NoThirdWindow(frames: seq<Frame>, ttl: real, i: nat, p: nat, j: nat)
    requires RedisRun(frames, ttl) && i < p <= j < |frames| && frames[j].now - frames[i].now < ttl
    requires Starts(frames[p]) && forall k :: i < k < p ==> !Starts(frames[k])
    ensures forall k :: p < k <= j ==> !Starts(frames[k])
  {
    NextStart(frames, ttl, i, p);
    var q := FirstStart(frames, p, j);
    if q <= j {
      NextStart(frames, ttl, p, q);
      SameOrder(frames, ttl, q, j);
    }
  }

  /** Any span shorter than the TTL admits at most 2 * (max - 1) frames, from any state of the key. */
  lemma RedisBound(frames: seq<Frame>, ttl: real, i: nat, j: nat, max: nat)
    requires RedisRun(frames, ttl) && max >= 1 && i <= j < |frames|
    requires frames[j].now - frames[i].now < ttl
    ensures |AdmittedByRedis(frames, i, j, max)| <= 2 * (max - 1)
  {
    var p := FirstStart(frames, i, j);
    if p > j {
      OneWindowAdmits(frames, ttl, i, j, max);
    } else {
      NoThirdWindow(frames, ttl, i, p, j);
      OneWindowAdmits(frames, ttl, i, p - 1, max);
      OneWindowAdmits(frames, ttl, p, j, max);
      AdmittedSplits(frames, i, p, j, max);
    }
  }

  // ----- for which windows the bound holds -----

  /** int(window): the whole seconds, cut toward zero. */
  function WholeSeconds(window: real): real {
    if window >= 0.0 then window.Floor as real else -((-window).Floor as real)
  }

  /** The frames from `i` to `j` come within less than the window, and more than 2 * (max - 1) are admitted. */
  ghost predicate Exceeds(frames: seq<Frame>, i: nat, j: nat, window: real, max: nat) {
    && RedisRun(frames, WholeSeconds(window)) && i <= j < |frames|
    && frames[j].now - frames[i].now < window
    && |AdmittedByRedis(frames, i, j, max)| > 2 * (max - 1)
  }

  ghost predicate BoundedByWindow(window: real, max: nat) {
    forall frames: seq<Frame>, i: nat, j: nat :: !Exceeds(frames, i, j, window, max)
  }

  /** Frames that are the first of their window are at least the TTL apart. */
  lemma FirstsAreApart(frames: seq<Frame>, ttl: real, a: nat, b: nat)
    requires RedisRun(frames, ttl) && a < b < |frames|
    requires frames[a].after.count == 1 && frames[b].after.count == 1
    ensures frames[b].now >= frames[a].now + ttl
  {
    var p := FirstStart(frames, a, b);
    if p > b {
      SameWindow(frames, ttl, a, b);
    } else {
      NextStart(frames, ttl, a, p);
      SameOrder(frames, ttl, p, b);
    }
  }

  lemma ThreeOf<T>(s: set<T>) returns (x: T, y: T, z: T)
    requires |s| > 2
    ensures x in s && y in s && z in s && x != y && y != z && x != z
  {
    x :| x in s;
    var t := s - {x};
    assert |t| == |s| - 1;
    y :| y in t;
    var v := t - {y};
    assert |v| == |t| - 1;
    z :| z in v;
  }

  lemma EitherOrder(frames: seq<Frame>, ttl: real, a: nat, b: nat)
    requires RedisRun(frames, ttl) && a < |frames| && b < |frames| && a != b
    requires frames[a].after.count == 1 && frames[b].after.count == 1
    ensures frames[b].now >= frames[a].now + ttl || frames[a].now >= frames[b].now + ttl
  {
    if a < b { FirstsAreApart(frames, ttl, a, b); } else { FirstsAreApart(frames, ttl, b, a); }
  }

  /** With max 2 only first frames are admitted, and three of them span two lifetimes of the key. */
  lemma TwoFirsts(frames: seq<Frame>, ttl: real, i: nat, j: nat)
    requires RedisRun(frames, ttl) && i <= j < |frames| && frames[j].now - frames[i].now < 2.0 * ttl
    ensures |AdmittedByRedis(frames, i, j, 2)| <= 2
  {
    if |AdmittedByRedis(frames, i, j, 2)| > 2 {
      var x, y, z := ThreeOf(AdmittedByRedis(frames, i, j, 2));
      EitherOrder(frames, ttl, x, y);
      EitherOrder(frames, ttl, y, z);
      EitherOrder(frames, ttl, x, z);
      SameOrder(frames, ttl, i, x);
      SameOrder(frames, ttl, x, j);
      SameOrder(frames, ttl, i, y);
      SameOrder(frames, ttl, y, j);
      SameOrder(frames, ttl, i, z);
      SameOrder(frames, ttl, z, j);
    }
  }

  /** Max 1 admits nothing. */
  lemma NoneAdmitted(frames: seq<Frame>, ttl: real, i: nat, j: nat)
    requires RedisRun(frames, ttl) && i <= j < |frames|
    ensures |AdmittedByRedis(frames, i, j, 1)| == 0
  {
    assert AdmittedByRedis(frames, i, j, 1) == {};
  }

  /** Frames of three windows close together: one at the start of a first window, one at `early` before its end,
      then max - 1 at the start of each of the next two. */
  function FrameOf(ttl: real, early: real, max: nat, k: nat): Frame
    requires max >= 3
  {
    if k == 0 then Frame(0.0, Absent, false, Counter(1, Some(ttl)))
    else if k == 1 then Frame(ttl - early, Counter(1, Some(ttl)), false, Counter(2, Some(ttl)))
    else if k == 2 then Frame(ttl, Counter(2, Some(ttl)), true, Counter(1, Some(ttl + ttl)))
    else if k <= max then Frame(ttl, Counter(k - 2, Some(ttl + ttl)), false, Counter(k - 1, Some(ttl + ttl)))
    else if k == max + 1 then Frame(ttl + ttl, Counter(max - 1, Some(ttl + ttl)), true, Counter(1, Some(ttl + ttl + ttl)))
    else Frame(ttl + ttl, Counter(k - max - 1, Some(ttl + ttl + ttl)), false, Counter(k - max, Some(ttl + ttl + ttl)))
  }

  function ThreeWindows(ttl: real, early: real, max: nat): seq<Frame>
    requires max >= 3
  {
    seq(2 * max, k requires 0 <= k < 2 * max => FrameOf(ttl, early, max, k))
  }

  lemma ThreeWindowsRun(ttl: real, early: real, max: nat)
    requires ttl >= 1.0 && 0.0 < early < 1.0 && max >= 3
    ensures RedisRun(ThreeWindows(ttl, early, max), ttl)
  {
    forall k: nat ensures var f := FrameOf(ttl, early, max, k); ExpiryRespected(f) && f.after == Incr(f.before, f.gone, f.now, ttl) {
    }
    forall k: nat ensures var f, g := FrameOf(ttl, early, max, k), FrameOf(ttl, early, max, k + 1);
      g.before == f.after && f.now <= g.now
    {
    }
  }

  /** A window that is no whole number of seconds admits more than twice the budget when max is at least 3. */
  lemma FractionalWindowExceeds(window: real, max: nat)
    requires window >= 1.0 && window != WholeSeconds(window) && max >= 3
    ensures !BoundedByWindow(window, max)
  {
    var ttl := WholeSeconds(window);
    var early := (window - ttl) / 2.0;
    var frames := ThreeWindows(ttl, early, max);
    ThreeWindowsRun(ttl, early, max);
    assert AdmittedByRedis(frames, 1, 2 * max - 1, max) == Interval(1, 2 * max);
    assert Exceeds(frames, 1, 2 * max - 1, window, max);
  }

  /** Below one second the key expires at once, and any number of frames is admitted when max is at least 2. */
  lemma SubsecondWindowExceeds(window: real, max: nat)
    requires 0.0 < window < 1.0 && max >= 2
    ensures !BoundedByWindow(window, max)
  {
    var n := 2 * max - 1;
    var frames: seq<Frame> := seq(n, k requires 0 <= k < n =>
      Frame(0.0, if k == 0 then Absent else Counter(1, Some(0.0)), k > 0, Counter(1, Some(0.0))));
    assert WholeSeconds(window) == 0.0;
    assert RedisRun(frames, 0.0);
    assert AdmittedByRedis(frames, 0, n - 1, max) == Interval(0, n);
    assert Exceeds(frames, 0, n - 1, window, max);
  }

  /** The bound holds exactly for windows of whole seconds, except that with max 1 nothing is admitted, with max 2
      one second is enough, and no span is shorter than a window of zero or less. */
  lemma RedisBoundExactly(window: real, max: nat)
    requires max >= 1
    ensures BoundedByWindow(window, max)
      <==> window <= 0.0 || max == 1 || (window >= 1.0 && (max == 2 || window == WholeSeconds(window)))
  {
    var ttl := WholeSeconds(window);
    if 0.0 < window < 1.0 && max >= 2 {
      SubsecondWindowExceeds(window, max);
    } else if window >= 1.0 && max >= 3 && window != ttl {
      FractionalWindowExceeds(window, max);
    } else {
      forall frames: seq<Frame>, i: nat, j: nat
        | RedisRun(frames, ttl) && i <= j < |frames| && frames[j].now - frames[i].now < window
        ensures !Exceeds(frames, i, j, window, max)
      {
        SameOrder(frames, ttl, i, j);
        if max == 1 { NoneAdmitted(frames, ttl, i, j); }
        else if max == 2 { TwoFirsts(frames, ttl, i, j); }
        else { RedisBound(frames, ttl, i, j, max); }
      }
    }
  }

  // ----- the breaker: armed before the await -----

  datatype Reply = Counted(count: int) | NotANumber | Failed

  /** The synchronous part before the await: skip, or arm the breaker and call. */
  function Arm(retryAt: real, now: real, then_: real): (bool, real) {
    if now < retryAt then (false, retryAt) else (true, then_ + REDIS_BACKOFF_SECONDS)
  }

  /** After the await: only a reply disarms the breaker. */
  function Settle(retryAt: real, reply: Reply): real {
    if reply.Failed? then retryAt else 0.0
  }

  datatype Attempt = Attempt(start: real, reply: Option<Reply>)

  /** `attempts` lists every Redis call so far; one without a reply is in flight. */
  datatype Breaker = Breaker(clock: real, retryAt: real, attempts: seq<Attempt>)

  datatype Event =
    | Pass(until: real)
    | Frame_(armedAt: real)
    | Reply_(call: nat, reply: Reply)

  /** The clock never runs back, and the call timeout ends every call before its backoff is over. */
  ghost predicate Allowed(b: Breaker, e: Event) {
    match e
    case Pass(t) => b.clock <= t && EndsInTime(b, t)
    case Frame_(t) => b.clock <= t && EndsInTime(b, t)
    case Reply_(call, _) => call < |b.attempts| && b.attempts[call].reply.None?
  }

  ghost predicate EndsInTime(b: Breaker, t: real) {
    forall k :: 0 <= k < |b.attempts| && b.attempts[k].reply.None? ==> t < b.attempts[k].start + REDIS_BACKOFF_SECONDS
  }

  function Next(b: Breaker, e: Event): Breaker {
    match e
    case Pass(t) => b.(clock := t)
    case Frame_(t) =>
      var (call, retryAt) := Arm(b.retryAt, b.clock, t);
      Breaker(t, retryAt, if call then b.attempts + [Attempt(t, None)] else b.attempts)
    case Reply_(call, reply) =>
      if call < |b.attempts| then
        b.(retryAt := Settle(b.retryAt, reply), attempts := b.attempts[call := b.attempts[call].(reply := Some(reply))])
      else b
  }

  ghost predicate BreakerRun(states: seq<Breaker>, events: seq<Event>) {
    && |states| == |events| + 1
    && states[0].attempts == [] && states[0].retryAt == 0.0
    && (forall k :: 0 <= k < |events| ==> Allowed(states[k], events[k]) && states[k + 1] == Next(states[k], events[k]))
  }

  ghost predicate Pending(b: Breaker, k: int) {
    0 <= k < |b.attempts| && b.attempts[k].reply.None?
  }

  ghost predicate FailedAt(b: Breaker, k: int) {
    0 <= k < |b.attempts| && b.attempts[k].reply == Some(Failed)
  }

  /** Starts never go back, and each is at least the backoff after every failed one before it. */
  ghost predicate BackedOff(attempts: seq<Attempt>) {
    && (forall i, j :: 0 <= i < j < |attempts| ==> attempts[i].start <= attempts[j].start)
    && (forall i, j :: 0 <= i < j < |attempts| && attempts[i].reply == Some(Failed) ==>
          attempts[j].start >= attempts[i].start + REDIS_BACKOFF_SECONDS)
  }

  ghost predicate BreakerInv(b: Breaker) {
    && EndsInTime(b, b.clock)
    && (forall k :: 0 <= k < |b.attempts| ==> b.attempts[k].start <= b.clock)
    && (forall k :: Pending(b, k) ==> k == |b.attempts| - 1)
    && (Pending(b, |b.attempts| - 1) || FailedAt(b, |b.attempts| - 1) ==>
          b.retryAt == b.attempts[|b.attempts| - 1].start + REDIS_BACKOFF_SECONDS)
    && (!Pending(b, |b.attempts| - 1) && !FailedAt(b, |b.attempts| - 1) ==> b.retryAt == 0.0)
    && BackedOff(b.attempts)
  }

  lemma CallKeepsBreakerInv(b: Breaker, t: real)
    requires BreakerInv(b) && Allowed(b, Frame_(t)) && b.clock >= b.retryAt
    ensures BreakerInv(Next(b, Frame_(t)))
  {
    var b', last := Next(b, Frame_(t)), |b.attempts| - 1;
    assert b' == Breaker(t, t + REDIS_BACKOFF_SECONDS, b.attempts + [Attempt(t, None)]);
    assert !Pending(b, last);
    assert forall k :: !Pending(b, k);
    assert FailedAt(b, last) ==> b.attempts[last].start + REDIS_BACKOFF_SECONDS <= t;
    forall k | 0 <= k <= last ensures b'.attempts[k] == b.attempts[k] && b.attempts[k].reply.Some? {
      assert !Pending(b, k);
    }
  }

  lemma ReplyKeepsBreakerInv(b: Breaker, call: nat, reply: Reply)
    requires BreakerInv(b) && Allowed(b, Reply_(call, reply))
    ensures BreakerInv(Next(b, Reply_(call, reply)))
  {
    var b', last := Next(b, Reply_(call, reply)), |b.attempts| - 1;
    assert Pending(b, call) && call == last;
    assert forall k :: Pending(b', k) ==> Pending(b, k);
    assert forall i :: FailedAt(b', i) && i < last ==> FailedAt(b, i);
  }

  lemma EventKeepsBreakerInv(b: Breaker, e: Event)
    requires BreakerInv(b) && Allowed(b, e)
    ensures BreakerInv(Next(b, e))
  {
    if e.Reply_? {
      ReplyKeepsBreakerInv(b, e.call, e.reply);
    } else if e.Frame_? && b.clock >= b.retryAt {
      CallKeepsBreakerInv(b, e.armedAt);
    } else {
      var b' := Next(b, e);
      assert b'.attempts == b.attempts && b'.retryAt == b.retryAt;
      assert forall k :: Pending(b', k) <==> Pending(b, k);
      assert forall k :: FailedAt(b', k) <==> FailedAt(b, k);
    }
  }

  /** For any number of concurrent callers: at most one Redis call is in flight, and after a failed call
      starts the next one starts at least the backoff later. */
  lemma {:induction false} BreakerHolds(states: seq<Breaker>, events: seq<Event>)
    requires BreakerRun(states, events)
    ensures var b := states[|states| - 1];
      && BreakerInv(b)
      && (forall i, j :: Pending(b, i) && Pending(b, j) ==> i == j)
      && (forall i, j :: FailedAt(b, i) && i < j < |b.attempts| ==>
            b.attempts[j].start - b.attempts[i].start >= 30.0)
    decreases |events|
  {
    if events != [] {
      var n := |events| - 1;
      BreakerHolds(states[..n + 1], events[..n]);
      EventKeepsBreakerInv(states[n], events[n]);
    }
  }

  /** In every reachable state a frame calls Redis exactly when no call is in flight and the last one did not fail
      less than 30 seconds after its start. */
  lemma FrameCallsExactly(b: Breaker, t: real)
    requires BreakerInv(b) && Allowed(b, Frame_(t)) && b.clock >= 0.0
    ensures var last := |b.attempts| - 1;
      var calls := !Pending(b, last) && (FailedAt(b, last) ==> b.clock >= b.attempts[last].start + 30.0);
      Next(b, Frame_(t)).attempts == if calls then b.attempts + [Attempt(t, None)] else b.attempts
  {
  }

  /** A reply goes to its own call; unless it reports a failure the very next frame calls Redis again. */
  lemma ReplyReopens(b: Breaker, call: nat, reply: Reply, t: real)
    requires BreakerInv(b) && Allowed(b, Reply_(call, reply)) && 0.0 <= b.clock <= t
    ensures var b' := Next(b, Reply_(call, reply));
      && b'.clock == b.clock && b'.attempts == b.attempts[call := Attempt(b.attempts[call].start, Some(reply))]
      && |Next(b', Frame_(t)).attempts| == |b.attempts| + if reply.Failed? then 0 else 1
  {
    assert Pending(b, call) && call == |b.attempts| - 1;
  }

  // ----- the limiter object -----

  /** `deque` is the bounded tail of the time-ordered log. */
  ghost predicate Tracks(deque: seq<real>, log: seq<real>, max: nat) {
    Sorted(log) && deque == LastN(log, max)
  }

  ghost predicate AllTrack(stamps: map<Key, seq<real>>, log: map<Key, seq<real>>, max: nat) {
    stamps.Keys == log.Keys && forall k :: k in log ==> Tracks(stamps[k], log[k], max)
  }

  lemma TrackOneMore(stamps: map<Key, seq<real>>, log: map<Key, seq<real>>, max: nat, key: Key, deque: seq<real>, frames: seq<real>)
    requires AllTrack(stamps, log, max) && Tracks(deque, frames, max)
    ensures AllTrack(stamps[key := deque], log[key := frames], max)
  {
  }

  ghost predicate NotAfter(log: seq<real>, now: real) {
    forall i :: 0 <= i < |log| ==> log[i] <= now
  }

  /** Appending to a deque of length at most `max` drops its oldest entry when it is full. */
  function Append(deque: seq<real>, now: real, max: nat): seq<real> {
    if |deque| + 1 > max then (deque + [now])[1..] else deque + [now]
  }

  /** The frame `max` places from the end is there and younger than the window. */
  ghost predicate WindowFull(log: seq<real>, now: real, max: nat, window: real)
    requires max >= 1
  {
    |log| >= max && now - log[|log| - max] < window
  }

  /** Appending one frame to the deque keeps it the tail of the log and decides the frame as the log does. */
  lemma ArrivalChecked(log: seq<real>, deque: seq<real>, now: real, max: nat, window: real)
    requires max >= 1 && Tracks(deque, log, max) && NotAfter(log, now)
    ensures Tracks(Append(deque, now, max), log + [now], max)
    ensures DequeLimited(Append(deque, now, max), now, max, window) <==> Recent(log + [now], now, window) >= max
    ensures WindowFull(log + [now], now, max, window) <==> Recent(log + [now], now, window) >= max
    ensures Limited(log + [now], |log|, max, window) <==> Recent(log + [now], now, window) >= max
  {
    DequeAgreesWithLog(log + [now], now, max, window);
    RecentIsSuffix(log + [now], now, window, max);
    assert (log + [now])[..|log| + 1] == log + [now];
  }

  class ChatFloodLimiter {
    const max: nat
    const window: real
    var stamps: map<Key, seq<real>>
    var refs: map<Key, nat>
    var redisRetryAt: real
    /** Every frame since the user's first open connection to the room. */
    ghost var log: map<Key, seq<real>>

    ghost predicate Valid()
      reads this
    {
      && max >= 1
      && refs.Keys == log.Keys
      && (forall k :: k in refs ==> refs[k] >= 1)
      && AllTrack(stamps, log, max)
    }

    constructor (max: nat := 10, window: real := 10.0)
      requires max >= 1
      ensures Valid() && this.max == max && this.window == window
      ensures refs == map[] && log == map[] && redisRetryAt == 0.0
    {
      this.max := max;
      this.window := window;
      stamps := map[];
      refs := map[];
      log := map[];
      redisRetryAt := 0.0;
    }

    /** A further connection keeps the user's window; a first one starts an empty one. */
    method Acquire(key: Key)
      requires Valid()
      modifies this`refs, this`stamps, this`log
      ensures Valid()
      ensures refs == old(refs)[key := (if key in old(refs) then old(refs)[key] else 0) + 1]
      ensures log == if key in old(log) then old(log) else old(log)[key := []]
    {
      refs := refs[key := (if key in refs then refs[key] else 0) + 1];
      if key !in stamps {
        stamps := stamps[key := []];
        log := log[key := []];
      }
    }

    /** State goes with the last connection; releasing once too often changes nothing. */
    method Release(key: Key)
      requires Valid()
      modifies this`refs, this`stamps, this`log
      ensures Valid()
      ensures key in old(refs) && old(refs)[key] > 1 ==> refs == old(refs)[key := old(refs)[key] - 1] && log == old(log)
      ensures key in old(refs) && old(refs)[key] == 1 ==> refs == old(refs) - {key} && log == old(log) - {key}
      ensures key !in old(refs) ==> refs == old(refs) && log == old(log) && stamps == old(stamps)
    {
      var current: int := if key in refs then refs[key] else 0;
      var remaining := current - 1;
      if remaining > 0 {
        refs := refs[key := remaining];
        return;
      }
      assert key !in refs ==> refs - {key} == refs && stamps - {key} == stamps && log - {key} == log;
      refs := refs - {key};
      stamps := stamps - {key};
      log := log - {key};
    }

    method LocalLimited(key: Key, now: real) returns (limited: bool)
      requires Valid()
      requires key in log ==> NotAfter(log[key], now)
      modifies this`stamps, this`log
      ensures Valid()
      ensures key !in old(log) ==> !limited && log == old(log) && stamps == old(stamps)
      ensures key in old(log) ==>
        && log == old(log)[key := old(log)[key] + [now]]
        && limited == (Recent(log[key], now, window) >= max)
        && limited == WindowFull(log[key], now, max, window)
        && limited == Limited(log[key], |log[key]| - 1, max, window)
    {
      if key !in stamps {
        return false;
      }
      ArrivalChecked(log[key], stamps[key], now, max, window);
      var deque := Append(stamps[key], now, max);
      limited := DequeLimited(deque, now, max, window);
      TrackOneMore(stamps, log, max, key, deque, log[key] + [now]);
      stamps := stamps[key := deque];
      log := log[key := log[key] + [now]];
    }

    /** The part of a Redis check before its await. */
    method BeginRedis(now: real, armedAt: real) returns (call: bool)
      modifies this`redisRetryAt
      ensures call <==> now >= old(redisRetryAt)
      ensures redisRetryAt == if call then armedAt + 30.0 else old(redisRetryAt)
      ensures (call, redisRetryAt) == Arm(old(redisRetryAt), now, armedAt)
    {
      if now < redisRetryAt {
        return false;
      }
      redisRetryAt := armedAt + REDIS_BACKOFF_SECONDS;
      return true;
    }

    /** The part after its await. */
    method EndRedis(reply: Reply) returns (limited: bool)
      modifies this`redisRetryAt
      ensures redisRetryAt == if reply.Failed? then old(redisRetryAt) else 0.0
      ensures redisRetryAt == Settle(old(redisRetryAt), reply)
      ensures limited <==> reply.Counted? && reply.count >= max
    {
      if reply.Failed? {
        return false;
      }
      redisRetryAt := 0.0;
      return reply.Counted? && reply.count >= max;
    }

    /** A frame whose Redis call, if one is made, answers `reply` with nothing else running meanwhile.
        `redis` is false when the caller has no Redis client. */
    method IsLimited(key: Key, now: real, redis: bool, reply: Reply) returns (limited: bool)
      requires Valid()
      requires key in log ==> NotAfter(log[key], now)
      modifies this`stamps, this`log, this`redisRetryAt
      ensures Valid()
      ensures limited <==>
        || (key in old(log) && WindowFull(log[key], now, max, window))
        || (redis && now >= old(redisRetryAt) && reply.Counted? && reply.count >= max)
      ensures log == if key in old(log) then old(log)[key := old(log)[key] + [now]] else old(log)
      ensures redisRetryAt ==
        if redis && now >= old(redisRetryAt) then (if reply.Failed? then now + 30.0 else 0.0) else old(redisRetryAt)
    {
      limited := LocalLimited(key, now);
      if redis {
        var call := BeginRedis(now, now);
        if call {
          var over := EndRedis(reply);
          limited := limited || over;
        }
      }
    }
  }
}
