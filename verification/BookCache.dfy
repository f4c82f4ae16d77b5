/** The book lookup cache, a dictionary in insertion order (app/services/google_books_service.py). */
module BookCache {
  import opened Common

  const CACHE_TTL: real := 3600.0
  const CACHE_MAX_SIZE: nat := 1000

  type Payload = string

  datatype Request = Search(query: string, limit: nat) | Book(id: string)
  datatype Slot = Slot(key: string, payload: Payload, expiry: real)

  function CacheKey(r: Request): string {
    match r
    case Search(query, limit) => "search:" + query + ":" + Decimal(limit)
    case Book(id) => "id:" + id
  }

  /** Two queries with separators in them still get different keys: the limit is what follows the last one. */
  lemma KeyTellsRequest(a: Request, b: Request)
    requires CacheKey(a) == CacheKey(b)
    ensures a == b
  {
    assert CacheKey(a)[0] == if a.Search? then 's' else 'i';
    assert CacheKey(b)[0] == if b.Search? then 's' else 'i';
    if a.Book? {
      assert CacheKey(a)[3..] == a.id && CacheKey(b)[3..] == b.id;
    } else {
      SameTail(a.query, a.limit, b.query, b.limit);
    }
  }

  lemma SameTail(p: string, m: nat, q: string, n: nat)
    requires "search:" + p + ":" + Decimal(m) == "search:" + q + ":" + Decimal(n)
    ensures p == q && m == n
  {
    var s, a, b := "search:" + p + ":" + Decimal(m), 7 + |p|, 7 + |q|;
    assert s[a] == ':' && s[b] == ':';
    assert s[a + 1..] == Decimal(m) && s[b + 1..] == Decimal(n);
    forall k | a < k < |s| ensures s[k] != ':' {
      assert s[k] == s[a + 1..][k - a - 1];
    }
    forall k | b < k < |s| ensures s[k] != ':' {
      assert s[k] == s[b + 1..][k - b - 1];
    }
    assert a == b;
    DecimalInjective(m, n);
    assert s[7..a] == p && s[7..b] == q;
  }

  // ----- the dictionary -----

  ghost predicate DistinctKeys(c: seq<Slot>) {
    forall i, j :: 0 <= i < j < |c| ==> c[i].key != c[j].key
  }

  function Find(c: seq<Slot>, key: string): Option<Slot> {
    if c == [] then None else if c[0].key == key then Some(c[0]) else Find(c[1..], key)
  }

  function Get(c: seq<Slot>, key: string, now: real): Option<Payload> {
    match Find(c, key)
    case None => None
    case Some(slot) => if now < slot.expiry then Some(slot.payload) else None
  }

  /** Writing a key that is there leaves its place in the order. */
  function Put(c: seq<Slot>, s: Slot): seq<Slot> {
    if c == [] then [s] else if c[0].key == s.key then [s] + c[1..] else [c[0]] + Put(c[1..], s)
  }

  function Live(c: seq<Slot>, now: real): seq<Slot> {
    if c == [] then []
    else
      var n := |c| - 1;
      Live(c[..n], now) + if c[n].expiry <= now then [] else [c[n]]
  }

  /** _cache_set at time `now`. */
  function CacheSet(c: seq<Slot>, s: Slot, now: real): seq<Slot> {
    if |c| < CACHE_MAX_SIZE then Put(c, s)
    else
      var kept := Live(c, now);
      Put(if |kept| >= CACHE_MAX_SIZE then kept[1..] else kept, s)
  }

  lemma {:induction false} FindIs(c: seq<Slot>, key: string)
    ensures Find(c, key).Some? ==> Find(c, key).value in c && Find(c, key).value.key == key
    ensures Find(c, key).None? <==> forall i :: 0 <= i < |c| ==> c[i].key != key
    ensures DistinctKeys(c) ==> forall i :: 0 <= i < |c| && c[i].key == key ==> Find(c, key) == Some(c[i])
  {
    if c != [] && c[0].key != key {
      FindIs(c[1..], key);
    }
  }

  lemma {:induction false} PutHolds(c: seq<Slot>, s: Slot, x: Slot)
    requires DistinctKeys(c)
    ensures x in Put(c, s) <==> x == s || (x in c && x.key != s.key)
  {
    if c != [] {
      assert c == [c[0]] + c[1..];
      if c[0].key != s.key {
        PutHolds(c[1..], s, x);
      } else {
        assert x in c[1..] ==> x.key != s.key;
      }
    }
  }

  lemma {:induction false} PutSize(c: seq<Slot>, s: Slot)
    ensures |c| <= |Put(c, s)| <= |c| + 1
    ensures (exists i :: 0 <= i < |c| && c[i].key == s.key) ==> |Put(c, s)| == |c|
  {
    if c != [] && c[0].key != s.key {
      PutSize(c[1..], s);
      if i :| 0 <= i < |c| && c[i].key == s.key {
        assert c[1..][i - 1].key == s.key;
      }
    }
  }

  lemma {:induction false} PutDistinct(c: seq<Slot>, s: Slot)
    requires DistinctKeys(c)
    ensures DistinctKeys(Put(c, s))
  {
    if c != [] && c[0].key != s.key {
      var rest := Put(c[1..], s);
      PutDistinct(c[1..], s);
      forall i | 0 <= i < |rest| ensures rest[i].key != c[0].key {
        PutHolds(c[1..], s, rest[i]);
      }
    }
  }

  lemma PutIs(c: seq<Slot>, s: Slot)
    requires DistinctKeys(c)
    ensures DistinctKeys(Put(c, s)) && |c| <= |Put(c, s)| <= |c| + 1
    ensures forall x :: x in Put(c, s) <==> x == s || (x in c && x.key != s.key)
  {
    PutDistinct(c, s);
    PutSize(c, s);
    forall x ensures x in Put(c, s) <==> x == s || (x in c && x.key != s.key) {
      PutHolds(c, s, x);
    }
  }

  lemma {:induction false} LiveHolds(c: seq<Slot>, now: real, x: Slot)
    ensures x in Live(c, now) <==> x in c && now < x.expiry
  {
    if c != [] {
      var n := |c| - 1;
      LiveHolds(c[..n], now, x);
      assert c == c[..n] + [c[n]];
    }
  }

  lemma {:induction false} LiveSize(c: seq<Slot>, now: real)
    ensures |Live(c, now)| <= |c|
    ensures |Live(c, now)| == |c| ==> Live(c, now) == c
  {
    if c != [] {
      var n := |c| - 1;
      LiveSize(c[..n], now);
      if |Live(c, now)| == |c| {
        assert Live(c[..n], now) == c[..n];
        assert c == c[..n] + [c[n]];
      }
    }
  }

  lemma {:induction false} LiveDistinct(c: seq<Slot>, now: real)
    requires DistinctKeys(c)
    ensures DistinctKeys(Live(c, now))
  {
    if c != [] {
      var n := |c| - 1;
      LiveDistinct(c[..n], now);
      forall i | 0 <= i < |Live(c[..n], now)| ensures Live(c[..n], now)[i].key != c[n].key {
        LiveHolds(c[..n], now, Live(c[..n], now)[i]);
      }
    }
  }

  lemma LiveIs(c: seq<Slot>, now: real)
    requires DistinctKeys(c)
    ensures DistinctKeys(Live(c, now)) && |Live(c, now)| <= |c|
    ensures forall x :: x in Live(c, now) <==> x in c && now < x.expiry
    ensures |Live(c, now)| == |c| ==> Live(c, now) == c
  {
    LiveDistinct(c, now);
    LiveSize(c, now);
    forall x ensures x in Live(c, now) <==> x in c && now < x.expiry {
      LiveHolds(c, now, x);
    }
  }

  lemma SetIs(c: seq<Slot>, s: Slot, now: real)
    requires DistinctKeys(c) && |c| <= CACHE_MAX_SIZE
    ensures DistinctKeys(CacheSet(c, s, now)) && |CacheSet(c, s, now)| <= CACHE_MAX_SIZE
    ensures s in CacheSet(c, s, now)
    ensures forall x :: x in CacheSet(c, s, now) ==> x == s || (x in c && x.key != s.key)
  {
    if |c| < CACHE_MAX_SIZE {
      PutIs(c, s);
    } else {
      LiveIs(c, now);
      var kept := Live(c, now);
      PutIs(if |kept| >= CACHE_MAX_SIZE then kept[1..] else kept, s);
    }
  }

  /** A live entry of another key is dropped exactly when the cache is full, nothing in it has expired and the
      entry is the first in the order. */
  lemma LiveEntryDropped(c: seq<Slot>, s: Slot, now: real, x: Slot)
    requires DistinctKeys(c) && |c| <= CACHE_MAX_SIZE && x in c && now < x.expiry && x.key != s.key
    ensures x !in CacheSet(c, s, now)
      <==> |c| == CACHE_MAX_SIZE && (forall y :: y in c ==> now < y.expiry) && c[0] == x
  {
    var kept := Live(c, now);
    LiveHolds(c, now, x);
    LiveDistinct(c, now);
    LiveSize(c, now);
    if |c| < CACHE_MAX_SIZE {
      PutHolds(c, s, x);
    } else if |kept| < CACHE_MAX_SIZE {
      PutHolds(kept, s, x);
      NotAllLive(c, now);
    } else {
      NotAllLive(c, now);
      PutHolds(c[1..], s, x);
      assert c == [c[0]] + c[1..];
    }
  }

  lemma NotAllLive(c: seq<Slot>, now: real)
    ensures Live(c, now) == c <==> forall y :: y in c ==> now < y.expiry
  {
    if Live(c, now) == c {
      forall y | y in c ensures now < y.expiry {
        LiveHolds(c, now, y);
      }
    }
    if forall y :: y in c ==> now < y.expiry {
      AllLive(c, now);
    }
  }

  lemma {:induction false} AllLive(c: seq<Slot>, now: real)
    requires forall y :: y in c ==> now < y.expiry
    ensures Live(c, now) == c
  {
    if c != [] {
      var n := |c| - 1;
      AllLive(c[..n], now);
      assert c == c[..n] + [c[n]];
    }
  }

  /** Refreshing an entry of a full cache drops another one without need: 999 remain. */
  lemma RefreshDropsOldest(c: seq<Slot>, s: Slot, now: real)
    requires DistinctKeys(c) && |c| == CACHE_MAX_SIZE && forall y :: y in c ==> now < y.expiry
    requires c[0].key != s.key && exists i :: 0 <= i < |c| && c[i].key == s.key
    ensures |CacheSet(c, s, now)| == CACHE_MAX_SIZE - 1 && c[0] !in CacheSet(c, s, now)
  {
    AllLive(c, now);
    var i :| 0 <= i < |c| && c[i].key == s.key;
    assert c[1..][i - 1].key == s.key;
    PutSize(c[1..], s);
    PutHolds(c[1..], s, c[0]);
    assert c[0] !in c[1..];
  }

  // ----- runs -----

  /** A fetch for `request` asked for at `asked` and stored at `stored`; other requests run in between. */
  datatype Fetch = Fetch(request: Request, payload: Payload, asked: real, stored: real)

  function SlotOf(f: Fetch): Slot {
    Slot(CacheKey(f.request), f.payload, f.asked + CACHE_TTL)
  }

  function After(fetches: seq<Fetch>): seq<Slot> {
    var n := |fetches|;
    if n == 0 then [] else CacheSet(After(fetches[..n - 1]), SlotOf(fetches[n - 1]), fetches[n - 1].stored)
  }

  /** The last fetch for its request. */
  ghost predicate LastFor(fetches: seq<Fetch>, i: int) {
    0 <= i < |fetches| && forall j :: i < j < |fetches| ==> fetches[j].request != fetches[i].request
  }

  /** The cache never has more than 1000 entries, and each is the last fetch stored for its request. */
  lemma {:induction false} CacheIsBounded(fetches: seq<Fetch>)
    ensures DistinctKeys(After(fetches)) && |After(fetches)| <= 1000
    ensures forall x :: x in After(fetches) ==> exists i :: LastFor(fetches, i) && x == SlotOf(fetches[i])
  {
    if fetches != [] {
      var n := |fetches| - 1;
      var front, last := fetches[..n], fetches[n];
      CacheIsBounded(front);
      SetIs(After(front), SlotOf(last), last.stored);
      forall x | x in After(fetches) ensures exists i :: LastFor(fetches, i) && x == SlotOf(fetches[i]) {
        if x == SlotOf(last) {
          assert LastFor(fetches, n);
        } else {
          var i :| LastFor(front, i) && x == SlotOf(front[i]);
          StillLast(fetches, i);
        }
      }
    }
  }

  lemma StillLast(fetches: seq<Fetch>, i: int)
    requires fetches != []
    requires LastFor(fetches[..|fetches| - 1], i)
    requires CacheKey(fetches[i].request) != CacheKey(fetches[|fetches| - 1].request)
    ensures LastFor(fetches, i)
  {
  }

  /** A hit answers with what was last fetched for the same arguments, asked for less than an hour ago. */
  lemma HitIsFresh(fetches: seq<Fetch>, r: Request, now: real)
    requires Get(After(fetches), CacheKey(r), now).Some?
    ensures exists i ::
      && LastFor(fetches, i) && fetches[i].request == r
      && Get(After(fetches), CacheKey(r), now) == Some(fetches[i].payload)
      && now < fetches[i].asked + 3600.0
  {
    var c := After(fetches);
    CacheIsBounded(fetches);
    FindIs(c, CacheKey(r));
    var x := Find(c, CacheKey(r)).value;
    var i :| LastFor(fetches, i) && x == SlotOf(fetches[i]);
    KeyTellsRequest(fetches[i].request, r);
  }

  /** A lookup is a hit exactly when the key has an entry that has not expired. */
  lemma HitExactly(c: seq<Slot>, key: string, now: real, payload: Payload)
    requires DistinctKeys(c)
    ensures Get(c, key, now) == Some(payload)
      <==> exists x :: x in c && x.key == key && x.payload == payload && now < x.expiry
  {
    FindIs(c, key);
    if x :| x in c && x.key == key && x.payload == payload && now < x.expiry {
      var i :| 0 <= i < |c| && c[i] == x;
    }
  }

  /** What was just stored is a hit until an hour after it was asked for, whatever the cache held before. */
  lemma StoredIsHit(c: seq<Slot>, f: Fetch, now: real)
    requires DistinctKeys(c) && |c| <= 1000
    ensures Get(CacheSet(c, SlotOf(f), f.stored), CacheKey(f.request), now)
         == if now < f.asked + 3600.0 then Some(f.payload) else None
  {
    var c' := CacheSet(c, SlotOf(f), f.stored);
    SetIs(c, SlotOf(f), f.stored);
    HitExactly(c', CacheKey(f.request), now, f.payload);
    FindIs(c', CacheKey(f.request));
  }

  lemma {:induction false} AfterSize(fetches: seq<Fetch>)
    requires |fetches| <= 1000
    ensures |After(fetches)| <= |fetches|
  {
    if fetches != [] {
      var front := fetches[..|fetches| - 1];
      AfterSize(front);
      PutSize(After(front), SlotOf(fetches[|fetches| - 1]));
    }
  }

  lemma {:induction false} FewFetchesStay(fetches: seq<Fetch>, i: int)
    requires |fetches| <= 1000 && LastFor(fetches, i)
    ensures SlotOf(fetches[i]) in After(fetches)
    decreases |fetches|
  {
    var n := |fetches| - 1;
    var front, last := fetches[..n], SlotOf(fetches[n]);
    CacheIsBounded(front);
    AfterSize(front);
    PutHolds(After(front), last, SlotOf(fetches[i]));
    if i < n {
      FewFetchesStay(front, i);
      OtherKey(fetches[i].request, fetches[n].request);
    }
  }

  lemma OtherKey(a: Request, b: Request)
    requires a != b
    ensures CacheKey(a) != CacheKey(b)
  {
    if CacheKey(a) == CacheKey(b) { KeyTellsRequest(a, b); }
  }

  /** As long as no more than 1000 fetches were stored, each request hits its last fetch for an hour. */
  lemma FewFetchesHit(fetches: seq<Fetch>, i: int, now: real)
    requires |fetches| <= 1000 && LastFor(fetches, i)
    ensures Get(After(fetches), CacheKey(fetches[i].request), now)
         == if now < fetches[i].asked + 3600.0 then Some(fetches[i].payload) else None
  {
    CacheIsBounded(fetches);
    FewFetchesStay(fetches, i);
    FindIs(After(fetches), CacheKey(fetches[i].request));
  }

  /** Writing a key that is there keeps its place in the order. */
  lemma {:induction false} PutInPlace(c: seq<Slot>, s: Slot, i: nat)
    requires DistinctKeys(c) && i < |c| && c[i].key == s.key
    ensures Put(c, s) == c[i := s]
  {
    if i > 0 {
      PutInPlace(c[1..], s, i - 1);
      assert c[0].key != c[i].key;
      assert [c[0]] + c[1..][i - 1 := s] == c[i := s];
    }
  }

  /** A new key goes to the end. */
  lemma {:induction false} PutLast(c: seq<Slot>, s: Slot)
    requires forall i :: 0 <= i < |c| ==> c[i].key != s.key
    ensures Put(c, s) == c + [s]
  {
    if c != [] { PutLast(c[1..], s); }
  }

  /** Dropping expired entries keeps the order of the others. */
  lemma {:induction false} LiveConcat(c: seq<Slot>, d: seq<Slot>, now: real)
    ensures Live(c + d, now) == Live(c, now) + Live(d, now)
    decreases |d|
  {
    if d == [] {
      assert c + d == c;
    } else {
      var n := |d| - 1;
      assert (c + d)[..|c| + n] == c + d[..n];
      LiveConcat(c, d[..n], now);
    }
  }

  // ----- the module's dictionary -----

  class LookupCache {
    var slots: seq<Slot>

    ghost predicate Valid()
      reads this
    {
      DistinctKeys(slots) && |slots| <= 1000
    }

    constructor ()
      ensures Valid() && slots == []
    {
      slots := [];
    }

    method Lookup(r: Request, now: real) returns (hit: Option<Payload>)
      requires Valid()
      ensures hit == Get(slots, CacheKey(r), now)
    {
      var key, i := CacheKey(r), 0;
      FindIs(slots, key);
      while i < |slots|
        invariant 0 <= i <= |slots|
        invariant forall k :: 0 <= k < i ==> slots[k].key != key
      {
        if slots[i].key == key {
          return if now < slots[i].expiry then Some(slots[i].payload) else None;
        }
        i := i + 1;
      }
      return None;
    }

    method DropExpired(now: real)
      modifies this
      ensures slots == Live(old(slots), now)
    {
      var kept: seq<Slot> := [];
      for i := 0 to |slots|
        invariant kept == Live(slots[..i], now)
      {
        assert slots[..i + 1][..i] == slots[..i];
        if slots[i].expiry > now {
          kept := kept + [slots[i]];
        }
      }
      assert slots[..|slots|] == slots;
      slots := kept;
    }

    /** What a fetch asked for at `asked` found is written at `stored`. */
    method Remember(f: Fetch)
      requires Valid()
      modifies this
      ensures slots == CacheSet(old(slots), SlotOf(f), f.stored)
      ensures Valid()
    {
      SetIs(slots, SlotOf(f), f.stored);
      if |slots| >= CACHE_MAX_SIZE {
        DropExpired(f.stored);
        if |slots| >= CACHE_MAX_SIZE {
          slots := slots[1..];
        }
      }
      slots := Put(slots, SlotOf(f));
    }
  }
}
