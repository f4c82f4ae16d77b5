/** The OAuth handoff of app/routers/auth.py as Redis steps: a start stores a PKCE verifier under a flow id, a
    callback takes it once and stores a one-time handoff code, an exchange takes the code once. The challenge
    method S256 (section 4.2 of RFC 7636) is any function on text, passed as `s256`. */
module OAuthHandoff {
  import opened Common

  type Flow = string
  type Code = string
  type Session = nat
  type RequestId = nat

  datatype Handoff = Handoff(session: Session, challenge: Option<string>)
  datatype Redis = Redis(flows: map<Flow, string>, handoffs: map<Code, Handoff>)

  predicate UrlSafe(c: char) {
    'A' <= c <= 'Z' || 'a' <= c <= 'z' || '0' <= c <= '9' || c == '_' || c == '-'
  }

  /** The shape of a challenge, a flow id and a handoff code: 43 URL-safe characters. */
  predicate Token(s: string) {
    |s| == 43 && forall i :: 0 <= i < |s| ==> UrlSafe(s[i])
  }

  /** GETDEL on a flow cookie; a missing or malformed cookie, an unknown flow and an empty value yield nothing. */
  function TakeFlow(r: Redis, cookie: Option<Flow>): (Redis, Option<string>) {
    if cookie.None? || !Token(cookie.value) || cookie.value !in r.flows then (r, None)
    else
      var verifier := r.flows[cookie.value];
      (r.(flows := r.flows - {cookie.value}), if verifier == "" then None else Some(verifier))
  }

  function ValidChallenge(cookie: Option<string>): Option<string> {
    if cookie.Some? && Token(cookie.value) then cookie else None
  }

  datatype ExchangeResult = Granted(session: Session) | Refused

  /** GETDEL on a handoff code, then the verifier check of section 4.6 of RFC 7636. */
  function TakeCode(s256: string -> string, requirePkce: bool, r: Redis, code: Code, verifier: Option<string>)
    : (Redis, ExchangeResult)
  {
    if code !in r.handoffs then (r, Refused)
    else
      var handoff := r.handoffs[code];
      var r' := r.(handoffs := r.handoffs - {code});
      var checked := handoff.challenge.Some? || requirePkce;
      if checked && !(handoff.challenge.Some? && verifier.Some? && s256(verifier.value) == handoff.challenge.value)
      then (r', Refused)
      else (r', Granted(handoff.session))
  }

  // ----- runs -----

  datatype Start = Start(flow: Flow, verifier: string)
  datatype Ask = Ask(flow: Flow, verifier: string)
  datatype Callback = Callback(flow: Flow, code: Code, session: Session, challenge: Option<string>)
  datatype Exchange = Exchange(code: Code, session: Session, verifier: Option<string>)

  /** What has happened: started flows, verifiers sent to the provider, and the callbacks and exchanges that
      succeeded. */
  datatype History = History(starts: seq<Start>, asks: seq<Ask>, callbacks: seq<Callback>, exchanges: seq<Exchange>)

  datatype Phase = AskProvider | StoreCode(session: Session)
  datatype Ongoing = Ongoing(flow: Flow, verifier: string, challenge: Option<string>, phase: Phase)

  datatype World = World(redis: Redis, ongoing: map<RequestId, Ongoing>, history: History)

  datatype Event =
    | Starts(flow: Flow, verifier: string)
    | CallbackTakes(id: RequestId, hasCode: bool, flowCookie: Option<Flow>, challengeCookie: Option<string>)
      // the provider answers with a session, refuses, or is never reached
    | ProviderAnswers(id: RequestId, reached: bool, session: Option<Session>)
    | CallbackStores(id: RequestId, handoff: Code, stored: bool)
    | Exchanges(code: Code, presented: Option<string>)
    | FlowExpires(flow: Flow)
    | CodeExpires(code: Code)

  datatype Config = Config(s256: string -> string, requirePkce: bool)

  function Step(config: Config, w: World, e: Event): World {
    match e
    case Starts(flow, verifier) =>
      w.(redis := w.redis.(flows := w.redis.flows[flow := verifier]),
         history := w.history.(starts := w.history.starts + [Start(flow, verifier)]))
    case CallbackTakes(id, hasCode, flowCookie, challengeCookie) =>
      var (redis, verifier) := TakeFlow(w.redis, flowCookie);
      var challenge := ValidChallenge(challengeCookie);
      if !hasCode || verifier.None? || (config.requirePkce && challenge.None?) then w.(redis := redis)
      else World(redis, w.ongoing[id := Ongoing(flowCookie.value, verifier.value, challenge, AskProvider)], w.history)
    case ProviderAnswers(id, reached, session) =>
      if id !in w.ongoing || w.ongoing[id].phase != AskProvider then w
      else
        var c := w.ongoing[id];
        var h := if reached then w.history.(asks := w.history.asks + [Ask(c.flow, c.verifier)]) else w.history;
        if reached && session.Some? then World(w.redis, w.ongoing[id := c.(phase := StoreCode(session.value))], h)
        else World(w.redis, w.ongoing - {id}, h)
    case CallbackStores(id, handoff, stored) =>
      if id !in w.ongoing || w.ongoing[id].phase == AskProvider then w
      else
        var c := w.ongoing[id];
        var w' := w.(ongoing := w.ongoing - {id});
        if !stored then w'
        else w'.(redis := w.redis.(handoffs := w.redis.handoffs[handoff := Handoff(c.phase.session, c.challenge)]),
                 history := w.history.(callbacks := w.history.callbacks
                                                    + [Callback(c.flow, handoff, c.phase.session, c.challenge)]))
    case Exchanges(code, verifier) =>
      var (redis, result) := TakeCode(config.s256, config.requirePkce, w.redis, code, verifier);
      var w' := w.(redis := redis);
      if result.Refused? then w'
      else w'.(history := w.history.(exchanges := w.history.exchanges + [Exchange(code, result.session, verifier)]))
    case FlowExpires(flow) => w.(redis := w.redis.(flows := w.redis.flows - {flow}))
    case CodeExpires(code) => w.(redis := w.redis.(handoffs := w.redis.handoffs - {code}))
  }

  /** Random identifiers never repeat: flow ids, handoff codes and the requests themselves. */
  ghost predicate Fresh(w: World, e: Event) {
    match e
    case Starts(flow, _) => forall i :: 0 <= i < |w.history.starts| ==> w.history.starts[i].flow != flow
    case CallbackTakes(id, _, _, _) => id !in w.ongoing
    case CallbackStores(_, handoff, _) => !Issued(w.history, handoff)
    case _ => true
  }

  ghost predicate FreshRun(config: Config, w: World, events: seq<Event>)
    decreases |events|
  {
    events == [] || (Fresh(w, events[0]) && FreshRun(config, Step(config, w, events[0]), events[1..]))
  }

  function Run(config: Config, w: World, events: seq<Event>): World
    decreases |events|
  {
    if events == [] then w else Run(config, Step(config, w, events[0]), events[1..])
  }

  const EMPTY := World(Redis(map[], map[]), map[], History([], [], [], []))

  // ----- the invariant -----

  ghost predicate StartedWith(h: History, flow: Flow, verifier: string) {
    Start(flow, verifier) in h.starts
  }

  ghost predicate Asked(h: History, flow: Flow) {
    exists i :: 0 <= i < |h.asks| && h.asks[i].flow == flow
  }

  ghost predicate Answered(h: History, flow: Flow) {
    exists i :: 0 <= i < |h.callbacks| && h.callbacks[i].flow == flow
  }

  ghost predicate Issued(h: History, code: Code) {
    exists i :: 0 <= i < |h.callbacks| && h.callbacks[i].code == code
  }

  ghost predicate Spent(h: History, code: Code) {
    exists i :: 0 <= i < |h.exchanges| && h.exchanges[i].code == code
  }

  /** Each success belongs to one earlier success of its own, and no two share one. */
  ghost predicate HistoryOk(s256: string -> string, h: History) {
    && (forall i, j :: 0 <= i < j < |h.starts| ==> h.starts[i].flow != h.starts[j].flow)
    && (forall i, j :: 0 <= i < j < |h.asks| ==> h.asks[i].flow != h.asks[j].flow)
    && (forall a :: a in h.asks ==> StartedWith(h, a.flow, a.verifier))
    && (forall i, j :: 0 <= i < j < |h.callbacks| ==> h.callbacks[i].flow != h.callbacks[j].flow)
    && (forall i, j :: 0 <= i < j < |h.callbacks| ==> h.callbacks[i].code != h.callbacks[j].code)
    && (forall c :: c in h.callbacks ==> Asked(h, c.flow))
    && (forall i, j :: 0 <= i < j < |h.exchanges| ==> h.exchanges[i].code != h.exchanges[j].code)
    && (forall x :: x in h.exchanges ==> Backed(s256, h, x))
  }

  /** The exchange redeems a callback's code for that callback's session, against its challenge if it has one. */
  ghost predicate Backs(s256: string -> string, c: Callback, x: Exchange) {
    && c.code == x.code && c.session == x.session
    && (c.challenge.Some? ==> x.verifier.Some? && s256(x.verifier.value) == c.challenge.value)
  }

  ghost predicate Backed(s256: string -> string, h: History, x: Exchange) {
    exists c :: c in h.callbacks && Backs(s256, c, x)
  }

  /** A flow nobody has taken yet. */
  ghost predicate Untouched(w: World, flow: Flow) {
    && !Asked(w.history, flow) && !Answered(w.history, flow)
    && forall id :: id in w.ongoing ==> w.ongoing[id].flow != flow
  }

  ghost predicate OngoingOk(w: World, id: RequestId)
    requires id in w.ongoing
  {
    var c := w.ongoing[id];
    && StartedWith(w.history, c.flow, c.verifier)
    && c.flow !in w.redis.flows
    && !Answered(w.history, c.flow)
    && (Asked(w.history, c.flow) <==> c.phase.StoreCode?)
    && (forall other :: other in w.ongoing && w.ongoing[other].flow == c.flow ==> other == id)
  }

  ghost predicate CodeOk(w: World, code: Code)
    requires code in w.redis.handoffs
  {
    && !Spent(w.history, code)
    && exists c :: c in w.history.callbacks && c.code == code
                   && w.redis.handoffs[code] == Handoff(c.session, c.challenge)
  }

  ghost predicate Inv(config: Config, w: World) {
    && HistoryOk(config.s256, w.history)
    && (forall f :: f in w.redis.flows ==> StartedWith(w.history, f, w.redis.flows[f]) && Untouched(w, f))
    && (forall id :: id in w.ongoing ==> OngoingOk(w, id))
    && (forall code :: code in w.redis.handoffs ==> CodeOk(w, code))
  }

  lemma StartKeepsInv(config: Config, w: World, flow: Flow, verifier: string)
    requires Inv(config, w) && Fresh(w, Starts(flow, verifier))
    ensures Inv(config, Step(config, w, Starts(flow, verifier)))
  {
    var w' := Step(config, w, Starts(flow, verifier));
    assert forall f, v :: StartedWith(w.history, f, v) ==> StartedWith(w'.history, f, v) && f != flow;
    NeverStarted(config, w, flow);
    assert Start(flow, verifier) == w'.history.starts[|w.history.starts|];
    SameProgress(w, w');
    forall x | x in w'.history.exchanges ensures Backed(config.s256, w'.history, x) {
      assert Backed(config.s256, w.history, x);
    }
    forall id | id in w'.ongoing ensures OngoingOk(w', id) { assert OngoingOk(w, id); }
    forall code | code in w'.redis.handoffs ensures CodeOk(w', code) { assert CodeOk(w, code); }
  }

  /** A flow that was never started was never asked about, answered or taken. */
  lemma NeverStarted(config: Config, w: World, flow: Flow)
    requires Inv(config, w) && forall i :: 0 <= i < |w.history.starts| ==> w.history.starts[i].flow != flow
    ensures Untouched(w, flow) && flow !in w.redis.flows
  {
  }

  /** Two worlds with the same asks, callbacks and exchanges agree on every flow and code. */
  lemma SameProgress(w: World, w': World)
    requires w'.history.asks == w.history.asks && w'.history.callbacks == w.history.callbacks
    requires w'.history.exchanges == w.history.exchanges
    ensures forall f :: Asked(w'.history, f) == Asked(w.history, f)
    ensures forall f :: Answered(w'.history, f) == Answered(w.history, f)
    ensures forall c :: Spent(w'.history, c) == Spent(w.history, c)
  {
  }

  lemma FewerKeysKeepInv(config: Config, w: World, w': World)
    requires Inv(config, w) && w'.history == w.history && w'.ongoing == w.ongoing
    requires w'.redis.flows.Keys <= w.redis.flows.Keys && w'.redis.handoffs.Keys <= w.redis.handoffs.Keys
    requires forall f :: f in w'.redis.flows ==> w'.redis.flows[f] == w.redis.flows[f]
    requires forall c :: c in w'.redis.handoffs ==> w'.redis.handoffs[c] == w.redis.handoffs[c]
    ensures Inv(config, w')
  {
    forall id | id in w'.ongoing ensures OngoingOk(w', id) { assert OngoingOk(w, id); }
    forall code | code in w'.redis.handoffs ensures CodeOk(w', code) { assert CodeOk(w, code); }
    forall f | f in w'.redis.flows ensures Untouched(w', f) { assert Untouched(w, f); }
  }

  lemma TakeKeepsInv(config: Config, w: World, id: RequestId, hasCode: bool, flowCookie: Option<Flow>,
                     challengeCookie: Option<string>)
    requires Inv(config, w) && id !in w.ongoing
    ensures Inv(config, Step(config, w, CallbackTakes(id, hasCode, flowCookie, challengeCookie)))
  {
    var w' := Step(config, w, CallbackTakes(id, hasCode, flowCookie, challengeCookie));
    if w'.ongoing == w.ongoing {
      FewerKeysKeepInv(config, w, w');
    } else {
      var flow := flowCookie.value;
      assert Untouched(w, flow);
      forall other | other in w'.ongoing ensures OngoingOk(w', other) {
        if other != id { assert OngoingOk(w, other); }
      }
      forall code | code in w'.redis.handoffs ensures CodeOk(w', code) { assert CodeOk(w, code); }
      forall f | f in w'.redis.flows ensures Untouched(w', f) { assert Untouched(w, f); }
    }
  }

  /** A request that ends leaves its flow to nobody. */
  lemma EndKeepsInv(config: Config, w: World, w': World, id: RequestId)
    requires Inv(config, w) && w' == w.(ongoing := w.ongoing - {id})
    ensures Inv(config, w')
  {
  }

  lemma AskAppended(h: History, h': History, a: Ask)
    requires h' == h.(asks := h.asks + [a])
    ensures forall f :: Asked(h', f) <==> Asked(h, f) || f == a.flow
    ensures forall f :: Answered(h', f) <==> Answered(h, f)
    ensures forall c :: Spent(h', c) <==> Spent(h, c)
    ensures forall x, s256: string -> string :: Backed(s256, h, x) ==> Backed(s256, h', x)
  {
    assert h'.asks[|h.asks|] == a;
    forall f | Asked(h, f) ensures Asked(h', f) {
      var i :| 0 <= i < |h.asks| && h.asks[i].flow == f;
      assert h'.asks[i].flow == f;
    }
  }

  /** The provider is asked: the request moves on, whatever the answer. */
  lemma AskKeepsInv(config: Config, w: World, id: RequestId, session: Session)
    requires Inv(config, w) && id in w.ongoing && w.ongoing[id].phase == AskProvider
    ensures Inv(config, Step(config, w, ProviderAnswers(id, true, Some(session))))
  {
    var w' := Step(config, w, ProviderAnswers(id, true, Some(session)));
    var c := w.ongoing[id];
    assert OngoingOk(w, id);
    AskAppended(w.history, w'.history, Ask(c.flow, c.verifier));
    forall other | other in w'.ongoing ensures OngoingOk(w', other) {
      assert OngoingOk(w, other);
      assert other != id ==> w.ongoing[other].flow != c.flow;
    }
    forall code | code in w'.redis.handoffs ensures CodeOk(w', code) { assert CodeOk(w, code); }
    forall f | f in w'.redis.flows ensures Untouched(w', f) { assert Untouched(w, f); }
    AskedOnce(w.history, w'.history, Ask(c.flow, c.verifier));
  }

  lemma AskedOnce(h: History, h': History, a: Ask)
    requires h' == h.(asks := h.asks + [a]) && !Asked(h, a.flow)
    requires forall i, j :: 0 <= i < j < |h.asks| ==> h.asks[i].flow != h.asks[j].flow
    ensures forall i, j :: 0 <= i < j < |h'.asks| ==> h'.asks[i].flow != h'.asks[j].flow
  {
  }

  lemma ProviderKeepsInv(config: Config, w: World, id: RequestId, reached: bool, session: Option<Session>)
    requires Inv(config, w)
    ensures Inv(config, Step(config, w, ProviderAnswers(id, reached, session)))
  {
    if id in w.ongoing && w.ongoing[id].phase == AskProvider {
      var w' := Step(config, w, ProviderAnswers(id, reached, session));
      if !reached {
        EndKeepsInv(config, w, w', id);
      } else {
        var s := if session.Some? then session.value else 0;
        AskKeepsInv(config, w, id, s);
        if session.None? {
          var asked := Step(config, w, ProviderAnswers(id, true, Some(s)));
          assert asked.ongoing - {id} == w.ongoing - {id};
          EndKeepsInv(config, asked, w', id);
        }
      }
    }
  }

  lemma CallbackAppended(h: History, h': History, c: Callback)
    requires h' == h.(callbacks := h.callbacks + [c])
    ensures forall f :: Answered(h', f) <==> Answered(h, f) || f == c.flow
    ensures forall f :: Asked(h', f) <==> Asked(h, f)
    ensures forall code :: Spent(h', code) <==> Spent(h, code)
    ensures forall s256: string -> string, x :: Backed(s256, h, x) ==> Backed(s256, h', x)
  {
    assert h'.callbacks[|h.callbacks|] == c;
    forall f | Answered(h, f) ensures Answered(h', f) {
      var i :| 0 <= i < |h.callbacks| && h.callbacks[i].flow == f;
      assert h'.callbacks[i].flow == f;
    }
    forall s256: string -> string, x | Backed(s256, h, x) ensures Backed(s256, h', x) {
      var b :| b in h.callbacks && Backs(s256, b, x);
      assert b in h'.callbacks;
    }
  }

  lemma NotIssuedNotSpent(config: Config, h: History, code: Code)
    requires HistoryOk(config.s256, h) && !Issued(h, code)
    ensures !Spent(h, code)
  {
    forall i | 0 <= i < |h.exchanges| ensures h.exchanges[i].code != code {
      assert h.exchanges[i] in h.exchanges && Backed(config.s256, h, h.exchanges[i]);
    }
  }

  lemma CallbacksStayDistinct(h: History, h': History, c: Callback)
    requires h' == h.(callbacks := h.callbacks + [c]) && !Issued(h, c.code) && !Answered(h, c.flow)
    requires forall i, j :: 0 <= i < j < |h.callbacks| ==> h.callbacks[i].flow != h.callbacks[j].flow
    requires forall i, j :: 0 <= i < j < |h.callbacks| ==> h.callbacks[i].code != h.callbacks[j].code
    ensures forall i, j :: 0 <= i < j < |h'.callbacks| ==> h'.callbacks[i].flow != h'.callbacks[j].flow
    ensures forall i, j :: 0 <= i < j < |h'.callbacks| ==> h'.callbacks[i].code != h'.callbacks[j].code
  {
  }

  lemma StoreKeepsInv(config: Config, w: World, id: RequestId, code: Code, stored: bool)
    requires Inv(config, w) && Fresh(w, CallbackStores(id, code, stored))
    ensures Inv(config, Step(config, w, CallbackStores(id, code, stored)))
  {
    var w' := Step(config, w, CallbackStores(id, code, stored));
    if id in w.ongoing && w.ongoing[id].phase != AskProvider {
      if !stored {
        EndKeepsInv(config, w, w', id);
      } else {
        var c := w.ongoing[id];
        var done := Callback(c.flow, code, c.phase.session, c.challenge);
        assert OngoingOk(w, id);
        CallbackAppended(w.history, w'.history, done);
        CallbacksStayDistinct(w.history, w'.history, done);
        NotIssuedNotSpent(config, w.history, code);
        forall other | other in w'.ongoing ensures OngoingOk(w', other) {
          assert OngoingOk(w, other);
          assert w.ongoing[other].flow != c.flow;
        }
        forall k | k in w'.redis.handoffs ensures CodeOk(w', k) {
          if k == code {
            assert done in w'.history.callbacks;
          } else {
            assert CodeOk(w, k);
            var d :| d in w.history.callbacks && d.code == k && w.redis.handoffs[k] == Handoff(d.session, d.challenge);
            assert d in w'.history.callbacks;
          }
        }
        forall f | f in w'.redis.flows ensures Untouched(w', f) { assert Untouched(w, f); }
      }
    }
  }

  lemma ExchangeKeepsInv(config: Config, w: World, code: Code, verifier: Option<string>)
    requires Inv(config, w)
    ensures Inv(config, Step(config, w, Exchanges(code, verifier)))
  {
    var w' := Step(config, w, Exchanges(code, verifier));
    if w'.history == w.history {
      FewerKeysKeepInv(config, w, w');
    } else {
      assert CodeOk(w, code);
      var c :| c in w.history.callbacks && c.code == code && w.redis.handoffs[code] == Handoff(c.session, c.challenge);
      var x := Exchange(code, c.session, verifier);
      assert w'.history == w.history.(exchanges := w.history.exchanges + [x]);
      assert Backs(config.s256, c, x) && Backed(config.s256, w'.history, x);
      ExchangeRecorded(config, w.history, w'.history, x);
      forall other | other in w'.ongoing ensures OngoingOk(w', other) { assert OngoingOk(w, other); }
      forall f | f in w'.redis.flows ensures Untouched(w', f) { assert Untouched(w, f); }
      forall k | k in w'.redis.handoffs ensures CodeOk(w', k) { assert CodeOk(w, k); }
    }
  }

  lemma ExchangeRecorded(config: Config, h: History, h': History, x: Exchange)
    requires HistoryOk(config.s256, h) && h' == h.(exchanges := h.exchanges + [x])
    requires !Spent(h, x.code) && Backed(config.s256, h', x)
    ensures HistoryOk(config.s256, h')
    ensures forall c :: Spent(h', c) <==> Spent(h, c) || c == x.code
    ensures forall f :: Asked(h', f) == Asked(h, f) && Answered(h', f) == Answered(h, f)
  {
    assert forall i :: 0 <= i < |h.exchanges| ==> h.exchanges[i].code != x.code;
    assert h'.exchanges[|h.exchanges|] == x;
    forall c | Spent(h, c) ensures Spent(h', c) {
      var i :| 0 <= i < |h.exchanges| && h.exchanges[i].code == c;
      assert h'.exchanges[i].code == c;
    }
    forall y | y in h'.exchanges ensures Backed(config.s256, h', y) {
      if y in h.exchanges { assert Backed(config.s256, h, y); }
    }
    forall c | c in h'.callbacks ensures Asked(h', c.flow) { assert Asked(h, c.flow); }
  }

  lemma EventKeepsInv(config: Config, w: World, e: Event)
    requires Inv(config, w) && Fresh(w, e)
    ensures Inv(config, Step(config, w, e))
  {
    match e
    case Starts(flow, verifier) => StartKeepsInv(config, w, flow, verifier);
    case CallbackTakes(id, c, f, ch) => TakeKeepsInv(config, w, id, c, f, ch);
    case ProviderAnswers(id, reached, session) => ProviderKeepsInv(config, w, id, reached, session);
    case CallbackStores(id, code, stored) => StoreKeepsInv(config, w, id, code, stored);
    case Exchanges(code, verifier) => ExchangeKeepsInv(config, w, code, verifier);
    case FlowExpires(_) => FewerKeysKeepInv(config, w, Step(config, w, e));
    case CodeExpires(_) => FewerKeysKeepInv(config, w, Step(config, w, e));
  }

  lemma {:induction false} RunKeepsInv(config: Config, w: World, events: seq<Event>)
    requires Inv(config, w) && FreshRun(config, w, events)
    ensures Inv(config, Run(config, w, events))
    decreases |events|
  {
    if events != [] {
      EventKeepsInv(config, w, events[0]);
      RunKeepsInv(config, Step(config, w, events[0]), events[1..]);
    }
  }

  // ----- what every run guarantees -----

  /** The position of the callback whose code exchange `k` redeemed. */
  ghost function CallbackOf(s256: string -> string, h: History, k: nat): (c: nat)
    requires HistoryOk(s256, h) && k < |h.exchanges|
    ensures c < |h.callbacks| && Backs(s256, h.callbacks[c], h.exchanges[k])
  {
    assert h.exchanges[k] in h.exchanges && Backed(s256, h, h.exchanges[k]);
    var c :| 0 <= c < |h.callbacks| && Backs(s256, h.callbacks[c], h.exchanges[k]);
    c
  }

  /** The position of the start whose verifier was sent to the provider as ask `a`. */
  ghost function StartOfAsk(s256: string -> string, h: History, a: nat): (s: nat)
    requires HistoryOk(s256, h) && a < |h.asks|
    ensures s < |h.starts| && h.starts[s] == Start(h.asks[a].flow, h.asks[a].verifier)
  {
    assert h.asks[a] in h.asks && StartedWith(h, h.asks[a].flow, h.asks[a].verifier);
    var s :| 0 <= s < |h.starts| && h.starts[s] == Start(h.asks[a].flow, h.asks[a].verifier);
    s
  }

  /** The position of the ask that callback `c` made. */
  ghost function AskOf(s256: string -> string, h: History, c: nat): (a: nat)
    requires HistoryOk(s256, h) && c < |h.callbacks|
    ensures a < |h.asks| && h.asks[a].flow == h.callbacks[c].flow
  {
    assert h.callbacks[c] in h.callbacks && Asked(h, h.callbacks[c].flow);
    var a :| 0 <= a < |h.asks| && h.asks[a].flow == h.callbacks[c].flow;
    a
  }

  /** In every run with fresh identifiers: exchanges inject into callbacks, callbacks into provider calls, and
      provider calls into starts; each exchange delivers its own callback's session, and the provider is given
      exactly the verifier of the start. */
  lemma HandoffIsOneToOne(config: Config, events: seq<Event>)
    requires FreshRun(config, EMPTY, events)
    ensures var h := Run(config, EMPTY, events).history;
      && HistoryOk(config.s256, h)
      && (forall i: nat, j: nat :: i < |h.exchanges| && j < |h.exchanges| && i != j ==>
            CallbackOf(config.s256, h, i) != CallbackOf(config.s256, h, j))
      && (forall i: nat, j: nat :: i < |h.callbacks| && j < |h.callbacks| && i != j ==>
            AskOf(config.s256, h, i) != AskOf(config.s256, h, j))
      && (forall i: nat, j: nat :: i < |h.asks| && j < |h.asks| && i != j ==>
            StartOfAsk(config.s256, h, i) != StartOfAsk(config.s256, h, j))
  {
    assert Inv(config, EMPTY);
    RunKeepsInv(config, EMPTY, events);
    var h := Run(config, EMPTY, events).history;
    forall i: nat, j: nat | i < |h.exchanges| && j < |h.exchanges| && i != j
      ensures CallbackOf(config.s256, h, i) != CallbackOf(config.s256, h, j)
    {
      assert h.exchanges[i].code != h.exchanges[j].code;
    }
    forall i: nat, j: nat | i < |h.callbacks| && j < |h.callbacks| && i != j
      ensures AskOf(config.s256, h, i) != AskOf(config.s256, h, j)
    {
      assert h.callbacks[i].flow != h.callbacks[j].flow;
    }
    forall i: nat, j: nat | i < |h.asks| && j < |h.asks| && i != j
      ensures StartOfAsk(config.s256, h, i) != StartOfAsk(config.s256, h, j)
    {
      assert h.asks[i].flow != h.asks[j].flow;
    }
  }

  /** A code that was issued and is no longer stored is never exchanged again. */
  lemma {:induction false} BurntStaysBurnt(config: Config, w: World, events: seq<Event>, code: Code)
    requires FreshRun(config, w, events)
    requires Issued(w.history, code) && code !in w.redis.handoffs
    ensures var h := Run(config, w, events).history;
      && |h.exchanges| >= |w.history.exchanges|
      && (forall k :: |w.history.exchanges| <= k < |h.exchanges| ==> h.exchanges[k].code != code)
    decreases |events|
  {
    if events != [] {
      var w' := Step(config, w, events[0]);
      var i :| 0 <= i < |w.history.callbacks| && w.history.callbacks[i].code == code;
      assert w'.history.callbacks[i].code == code;
      BurntStaysBurnt(config, w', events[1..], code);
      if |w'.history.exchanges| > |w.history.exchanges| {
        assert w'.history.exchanges[|w.history.exchanges|].code != code;
      }
      KeepsExchanges(config, w', events[1..]);
    }
  }

  lemma {:induction false} KeepsExchanges(config: Config, w: World, events: seq<Event>)
    ensures w.history.exchanges <= Run(config, w, events).history.exchanges
    decreases |events|
  {
    if events != [] { KeepsExchanges(config, Step(config, w, events[0]), events[1..]); }
  }

  /** Against a bound challenge, anything but a verifier hashing to it is refused, and the code is spent for
      good: no later exchange with it succeeds, not even with the right verifier. */
  lemma WrongVerifierBurnsCode(config: Config, before: seq<Event>, code: Code, presented: Option<string>, after: seq<Event>)
    requires FreshRun(config, EMPTY, before)
    requires var w := Run(config, EMPTY, before);
      && code in w.redis.handoffs
      && w.redis.handoffs[code].challenge.Some?
      && (presented.None? || config.s256(presented.value) != w.redis.handoffs[code].challenge.value)
      && FreshRun(config, Step(config, w, Exchanges(code, presented)), after)
    ensures var w := Step(config, Run(config, EMPTY, before), Exchanges(code, presented));
      forall x :: x in Run(config, w, after).history.exchanges ==> x.code != code
  {
    assert Inv(config, EMPTY);
    RunKeepsInv(config, EMPTY, before);
    var w := Run(config, EMPTY, before);
    var w' := Step(config, w, Exchanges(code, presented));
    assert CodeOk(w, code);
    assert w'.history == w.history && Issued(w'.history, code);
    BurntStaysBurnt(config, w', after, code);
    KeepsExchanges(config, w', after);
    var h := Run(config, w', after).history;
    forall k | 0 <= k < |h.exchanges| ensures h.exchanges[k].code != code {
      if k < |w.history.exchanges| { assert h.exchanges[k] == w.history.exchanges[k]; }
    }
  }

  // ----- the endpoints as steps on Redis -----

  class OAuthBackend {
    var flows: map<Flow, string>
    var handoffs: map<Code, Handoff>
    const requirePkce: bool

    ghost function State(): Redis
      reads this
    {
      Redis(flows, handoffs)
    }

    constructor (requirePkce: bool)
      ensures State() == Redis(map[], map[]) && this.requirePkce == requirePkce
    {
      flows := map[];
      handoffs := map[];
      this.requirePkce := requirePkce;
    }

    /** oauth_google: remember the verifier for the browser that holds the flow cookie. */
    method StartFlow(flow: Flow, verifier: string)
      modifies this`flows
      ensures Token(flow) && verifier != "" ==> TakeFlow(State(), Some(flow)).1 == Some(verifier)
      ensures forall f :: f != flow ==> TakeFlow(State(), Some(f)).1 == TakeFlow(old(State()), Some(f)).1
      ensures flows == old(flows)[flow := verifier]
    {
      flows := flows[flow := verifier];
    }

    /** _take_flow_verifier, and _drop_abandoned_flow, which ignores the result. */
    method TakeFlowVerifier(cookie: Option<Flow>) returns (verifier: Option<string>)
      modifies this`flows
      ensures (State(), verifier) == TakeFlow(old(State()), cookie)
      ensures cookie.Some? && Token(cookie.value) ==> cookie.value !in flows
    {
      if cookie.None? || !Token(cookie.value) {
        return None;
      }
      var raw := Lookup(flows, cookie.value);
      flows := flows - {cookie.value};
      if raw.None? {
        assert flows == old(flows);
        return None;
      }
      return if raw.value == "" then None else raw;
    }

    /** oauth_callback up to the provider call: the flow is consumed even when the callback then fails. */
    method BeginCallback(hasCode: bool, flowCookie: Option<Flow>, challengeCookie: Option<string>)
      returns (verifier: Option<string>, challenge: Option<string>)
      modifies this`flows
      ensures State() == TakeFlow(old(State()), flowCookie).0
      ensures challenge == if challengeCookie.Some? && Token(challengeCookie.value) then challengeCookie else None
      ensures challenge == ValidChallenge(challengeCookie)
      ensures verifier == if hasCode && !(requirePkce && challenge.None?) then TakeFlow(old(State()), flowCookie).1 else None
    {
      challenge := if challengeCookie.Some? && Token(challengeCookie.value) then challengeCookie else None;
      verifier := TakeFlowVerifier(flowCookie);
      if !hasCode || (requirePkce && challenge.None?) {
        verifier := None;
      }
    }

    /** Whoever presents the code next gets the session, exactly if the challenge allows it. */
    method StoreHandoffCode(code: Code, session: Session, challenge: Option<string>)
      modifies this`handoffs
      ensures forall s256, verifier :: TakeCode(s256, requirePkce, State(), code, verifier).1 == Granted(session) <==>
        && (challenge.Some? ==> verifier.Some? && s256(verifier.value) == challenge.value)
        && (requirePkce ==> challenge.Some?)
      ensures forall s256, c, verifier :: c != code ==>
        TakeCode(s256, requirePkce, State(), c, verifier).1 == TakeCode(s256, requirePkce, old(State()), c, verifier).1
      ensures handoffs == old(handoffs)[code := Handoff(session, challenge)]
    {
      handoffs := handoffs[code := Handoff(session, challenge)];
    }

    /** oauth_exchange: the code is consumed before the verifier is looked at. */
    method ExchangeCode(s256: string -> string, code: Code, verifier: Option<string>) returns (result: ExchangeResult)
      modifies this`handoffs
      ensures (State(), result) == TakeCode(s256, requirePkce, old(State()), code, verifier)
      ensures code !in handoffs
    {
      if code !in handoffs {
        return Refused;
      }
      var handoff := handoffs[code];
      handoffs := handoffs - {code};
      if handoff.challenge.Some? || requirePkce {
        if handoff.challenge.None? || verifier.None? || s256(verifier.value) != handoff.challenge.value {
          return Refused;
        }
      }
      return Granted(handoff.session);
    }
  }
}
