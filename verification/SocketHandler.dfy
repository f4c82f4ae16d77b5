/** What a chat socket does with each received frame, and its cached answer on room bans
    (app/routers/chat.py:242-301). */
module SocketHandler {
  import opened Common

  /** Seconds for which an answer is used again. */
  const BAN_CACHE_TTL: real := 5.0

  datatype Input = NotAnObject | BadText | Text(text: string)

  /** `limited` is the flood limiter's answer; `now` is the time of the ban check. */
  datatype Frame = Frame(now: real, limited: bool, input: Input)

  datatype Reply = RateLimited | Ignored | InvalidMessage | RoomBanned | Posted

  datatype BanCache = BanCache(result: Option<bool>, expires: real)

  /** Whether the user has an active ban in the room, over time. */
  type BanHistory = real -> bool

  /** The answer, and the cache afterwards. */
  function CheckBan(c: BanCache, now: real, banned: BanHistory): (bool, BanCache) {
    if c.result.Some? && now < c.expires then (c.result.value, c)
    else (banned(now), BanCache(Some(banned(now)), now + BAN_CACHE_TTL))
  }

  function Respond(c: BanCache, f: Frame, banned: BanHistory): (Reply, BanCache) {
    if f.limited then (RateLimited, c)
    else match f.input
      case NotAnObject => (Ignored, c)
      case BadText => (InvalidMessage, c)
      case Text(_) =>
        var (isBanned, after) := CheckBan(c, f.now, banned);
        (if isBanned then RoomBanned else Posted, after)
  }

  const NO_ANSWER: BanCache := BanCache(None, 0.0)

  function CacheAfter(frames: seq<Frame>, banned: BanHistory): BanCache {
    var n := |frames|;
    if n == 0 then NO_ANSWER else Respond(CacheAfter(frames[..n - 1], banned), frames[n - 1], banned).1
  }

  function ReplyTo(frames: seq<Frame>, i: nat, banned: BanHistory): Reply
    requires i < |frames|
  {
    Respond(CacheAfter(frames[..i], banned), frames[i], banned).0
  }

  /** The texts of the frames answered with a post, in order. */
  function PostedBy(frames: seq<Frame>, banned: BanHistory): seq<string> {
    var n := |frames|;
    if n == 0 then []
    else
      var f := frames[n - 1];
      PostedBy(frames[..n - 1], banned)
      + if Respond(CacheAfter(frames[..n - 1], banned), f, banned).0 == Posted then [f.input.text] else []
  }

  /** An answer in the cache was read at the time of some earlier frame. */
  lemma {:induction false} CacheIsFromFrame(frames: seq<Frame>, banned: BanHistory)
    ensures var c := CacheAfter(frames, banned);
      c.result.Some? ==>
        exists j :: 0 <= j < |frames| && c.result == Some(banned(frames[j].now)) && c.expires == frames[j].now + BAN_CACHE_TTL
  {
    if frames != [] {
      var n := |frames| - 1;
      var front := frames[..n];
      CacheIsFromFrame(front, banned);
      var before, c := CacheAfter(front, banned), CacheAfter(frames, banned);
      if c == before && c.result.Some? {
        var j :| 0 <= j < n && c.result == Some(banned(front[j].now)) && c.expires == front[j].now + BAN_CACHE_TTL;
        assert frames[j] == front[j];
      } else if c != before {
        assert c.expires == frames[n].now + BAN_CACHE_TTL;
      }
    }
  }

  /** A text is posted or refused on an answer read less than five seconds earlier. */
  lemma DecisionIsRecent(frames: seq<Frame>, i: nat, banned: BanHistory)
    requires i < |frames| && ReplyTo(frames, i, banned) in {RoomBanned, Posted}
    ensures exists j ::
      && 0 <= j <= i && frames[i].now < frames[j].now + BAN_CACHE_TTL
      && (ReplyTo(frames, i, banned) == RoomBanned <==> banned(frames[j].now))
  {
    var c := CacheAfter(frames[..i], banned);
    CacheIsFromFrame(frames[..i], banned);
    if c.result.Some? && frames[i].now < c.expires {
      var j :| 0 <= j < i && c.result == Some(banned(frames[..i][j].now)) && c.expires == frames[..i][j].now + BAN_CACHE_TTL;
      assert frames[j] == frames[..i][j];
    } else {
      assert frames[i].now < frames[i].now + BAN_CACHE_TTL;
    }
  }

  /** The ban has stood, or not, for the whole time in which an answer at `now` may have been read. */
  ghost predicate Steady(banned: BanHistory, now: real, value: bool) {
    forall t :: now - BAN_CACHE_TTL < t <= now ==> banned(t) == value
  }

  /** While the clock runs, a ban in force for five seconds stops every text, and one lifted for five seconds
      stops none. */
  lemma SteadyBanDecides(frames: seq<Frame>, i: nat, banned: BanHistory, value: bool)
    requires forall a, b :: 0 <= a < b < |frames| ==> frames[a].now <= frames[b].now
    requires i < |frames| && Steady(banned, frames[i].now, value)
    requires !frames[i].limited && frames[i].input.Text?
    ensures ReplyTo(frames, i, banned) == if value then RoomBanned else Posted
  {
    DecisionIsRecent(frames, i, banned);
  }

  /** The frame passes the limiter and carries a text. */
  ghost predicate Speaks(f: Frame) {
    !f.limited && f.input.Text?
  }

  /** The limiter comes first, then the shape of the frame, and only a text is checked against bans. */
  lemma RepliesExactly(frames: seq<Frame>, i: nat, banned: BanHistory)
    requires i < |frames|
    ensures var f, reply := frames[i], ReplyTo(frames, i, banned);
      && (reply == RateLimited <==> f.limited)
      && (reply == Ignored <==> !f.limited && f.input == NotAnObject)
      && (reply == InvalidMessage <==> !f.limited && f.input == BadText)
      && (reply == RoomBanned || reply == Posted <==> Speaks(f))
  {
  }

  /** Frame `i` is a text for which the bans are read: nothing was read before, or what was read is five seconds
      old. */
  ghost predicate Asks(frames: seq<Frame>, i: nat, banned: BanHistory)
    requires i < |frames|
  {
    var c := CacheAfter(frames[..i], banned);
    Speaks(frames[i]) && (c.result.None? || frames[i].now >= c.expires)
  }

  /** The texts after frame `i` and up to `k` come less than five seconds after it. */
  ghost predicate SoonAfter(frames: seq<Frame>, i: nat, k: nat)
    requires i < |frames|
  {
    forall j :: i < j < k && j < |frames| && Speaks(frames[j]) ==> frames[j].now < frames[i].now + 5.0
  }

  lemma {:induction false} AnswerStays(frames: seq<Frame>, i: nat, k: nat, banned: BanHistory)
    requires i < k <= |frames| && Asks(frames, i, banned) && SoonAfter(frames, i, k)
    ensures CacheAfter(frames[..k], banned) == BanCache(Some(banned(frames[i].now)), frames[i].now + 5.0)
    decreases k - i
  {
    assert frames[..k][..k - 1] == frames[..k - 1];
    if k - 1 > i { AnswerStays(frames, i, k - 1, banned); }
  }

  /** One reading of the bans decides its own text and every further one that comes within five seconds; the next one
      after that reads again, and so does the first text of all. */
  lemma OneReadingServes(frames: seq<Frame>, i: nat, k: nat, banned: BanHistory)
    requires i <= k < |frames| && Speaks(frames[k]) && SoonAfter(frames, i, k)
    requires Asks(frames, i, banned) || (i == k && forall j :: 0 <= j < i ==> !Speaks(frames[j]))
    ensures Asks(frames, k, banned) <==> k == i || frames[k].now >= frames[i].now + 5.0
    ensures ReplyTo(frames, k, banned)
         == if banned(if Asks(frames, k, banned) then frames[k].now else frames[i].now) then RoomBanned else Posted
  {
    if i < k { AnswerStays(frames, i, k, banned); }
    else if forall j :: 0 <= j < i ==> !Speaks(frames[j]) { NothingRead(frames, i, banned); }
  }

  lemma {:induction false} NothingRead(frames: seq<Frame>, i: nat, banned: BanHistory)
    requires i <= |frames| && forall j :: 0 <= j < i ==> !Speaks(frames[j])
    ensures CacheAfter(frames[..i], banned) == NO_ANSWER
  {
    if i > 0 {
      assert frames[..i][..i - 1] == frames[..i - 1];
      NothingRead(frames, i - 1, banned);
    }
  }

  ghost function PostedFrames(frames: seq<Frame>, banned: BanHistory): set<nat> {
    set i: nat | i < |frames| && ReplyTo(frames, i, banned) == Posted
  }

  lemma PostedFramesLast(frames: seq<Frame>, banned: BanHistory)
    requires frames != []
    ensures var n := |frames| - 1;
      PostedFrames(frames, banned)
        == PostedFrames(frames[..n], banned) + if ReplyTo(frames, n, banned) == Posted then {n} else {}
  {
    var n := |frames| - 1;
    forall i: nat | i < n ensures ReplyTo(frames[..n], i, banned) == ReplyTo(frames, i, banned) {
      assert frames[..n][..i] == frames[..i];
    }
  }

  /** One text is stored for each frame answered with a post. */
  lemma {:induction false} PostedCount(frames: seq<Frame>, banned: BanHistory)
    ensures |PostedBy(frames, banned)| == |PostedFrames(frames, banned)|
  {
    if frames == [] {
      assert PostedFrames(frames, banned) == {};
    } else {
      PostedCount(frames[..|frames| - 1], banned);
      PostedFramesLast(frames, banned);
    }
  }

  /** It is that frame's text, in the place after those of the frames before. */
  lemma {:induction false} PostedPlace(frames: seq<Frame>, i: nat, banned: BanHistory)
    requires i < |frames| && ReplyTo(frames, i, banned) == Posted
    ensures var k := |PostedFrames(frames[..i], banned)|;
      k < |PostedBy(frames, banned)| && frames[i].input == Text(PostedBy(frames, banned)[k])
    decreases |frames|
  {
    PostedCount(frames[..i], banned);
    var n := |frames| - 1;
    if i < n {
      var front := frames[..n];
      assert front[..i] == frames[..i];
      PostedPlace(front, i, banned);
    }
  }

  class Handler {
    var cacheResult: Option<bool>
    var cacheExpires: real
    /** The texts committed to the room, oldest first. */
    var posted: seq<string>

    ghost function Cache(): BanCache
      reads this
    {
      BanCache(cacheResult, cacheExpires)
    }

    /** What the fields hold once `frames` have been handled. */
    ghost predicate Handled(frames: seq<Frame>, banned: BanHistory)
      reads this
    {
      Cache() == CacheAfter(frames, banned) && posted == PostedBy(frames, banned)
    }

    constructor ()
      ensures forall banned :: Handled([], banned)
    {
      cacheResult, cacheExpires, posted := None, 0.0, [];
    }

    method CheckBanCached(now: real, banned: BanHistory) returns (r: bool)
      modifies this`cacheResult, this`cacheExpires
      ensures (r, Cache()) == CheckBan(old(Cache()), now, banned)
    {
      if cacheResult.Some? && now < cacheExpires {
        return cacheResult.value;
      }
      cacheResult, cacheExpires := Some(banned(now)), now + BAN_CACHE_TTL;
      return banned(now);
    }

    method OnFrame(f: Frame, banned: BanHistory, ghost frames: seq<Frame>) returns (reply: Reply)
      requires Handled(frames, banned)
      modifies this
      ensures Handled(frames + [f], banned)
      ensures reply == ReplyTo(frames + [f], |frames|, banned)
    {
      assert (frames + [f])[..|frames|] == frames;
      if f.limited {
        return RateLimited;
      }
      match f.input
      case NotAnObject =>
        return Ignored;
      case BadText =>
        return InvalidMessage;
      case Text(text) =>
        var isBanned := CheckBanCached(f.now, banned);
        if isBanned {
          return RoomBanned;
        }
        posted := posted + [text];
        return Posted;
    }

    /** The receive loop over what arrives until the client disconnects. */
    method Serve(frames: seq<Frame>, banned: BanHistory) returns (replies: seq<Reply>)
      requires Handled([], banned)
      modifies this
      ensures Handled(frames, banned)
      ensures |replies| == |frames| && forall i :: 0 <= i < |frames| ==> replies[i] == ReplyTo(frames, i, banned)
    {
      replies := [];
      for i := 0 to |frames|
        invariant |replies| == i
        invariant Handled(frames[..i], banned)
        invariant forall k :: 0 <= k < i ==> replies[k] == ReplyTo(frames, k, banned)
      {
        assert frames[..i + 1] == frames[..i] + [frames[i]];
        var reply := OnFrame(frames[i], banned, frames[..i]);
        assert frames[..i + 1][..i] == frames[..i];
        replies := replies + [reply];
      }
      assert frames[..|frames|] == frames;
    }
  }
}
