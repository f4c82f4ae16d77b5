/** What a browser's way through the handoff comes to: when a callback goes on, that the honest way succeeds, and that a
    challenge cookie binds the code to its verifier. */
module OAuthFlows {
  import opened Common
  import opened OAuthHandoff

  /** A letter, a digit, a hyphen or an underscore, by code point. */
  predicate UrlSafeCode(n: int) {
    65 <= n <= 90 || 97 <= n <= 122 || 48 <= n <= 57 || n == 45 || n == 95
  }

  /** Challenges, flow ids and codes are 43 such characters. */
  lemma TokenIs(s: string)
    ensures Token(s) <==> |s| == 43 && forall i :: 0 <= i < |s| ==> UrlSafeCode(s[i] as int)
  {
  }

  /** The verifier stored for the flow of this cookie, if it is well formed, known and not empty. */
  ghost predicate Stores(w: World, cookie: Option<Flow>, verifier: string) {
    cookie.Some? && Token(cookie.value) && Lookup(w.redis.flows, cookie.value) == Some(verifier) && verifier != ""
  }

  /** A callback goes on exactly with a code, a stored verifier and, where it is required, a well-formed challenge; it
      then carries the flow, its verifier and the challenge of its cookie. In every case the flow is used up. */
  lemma CallbackGoesOn(config: Config, w: World, id: RequestId, hasCode: bool, flow: Option<Flow>, cookie: Option<string>)
    requires id !in w.ongoing
    ensures var w' := Step(config, w, CallbackTakes(id, hasCode, flow, cookie));
      var bound := cookie.Some? && Token(cookie.value);
      && (id in w'.ongoing <==> hasCode && (exists v :: Stores(w, flow, v)) && (config.requirePkce ==> bound))
      && (id in w'.ongoing ==>
            && Stores(w, flow, w'.ongoing[id].verifier)
            && w'.ongoing[id].flow == flow.value && w'.ongoing[id].phase == AskProvider
            && w'.ongoing[id].challenge == if bound then cookie else None)
      && (forall f :: f in w'.redis.flows <==> f in w.redis.flows && !(flow == Some(f) && Token(f)))
      && w'.redis.handoffs == w.redis.handoffs && w'.history == w.history
  {
    var w' := Step(config, w, CallbackTakes(id, hasCode, flow, cookie));
    if id in w'.ongoing {
      assert Stores(w, flow, w'.ongoing[id].verifier);
    }
  }

  /** The honest way: a started flow, its cookie, the provider's session and the verifier of the challenge. */
  function Honest(id: RequestId, flow: Flow, secret: string, cookie: string, session: Session, code: Code, proof: string)
    : seq<Event>
  {
    [Starts(flow, secret), CallbackTakes(id, true, Some(flow), Some(cookie)),
     ProviderAnswers(id, true, Some(session)), CallbackStores(id, code, true), Exchanges(code, Some(proof))]
  }

  /** It delivers the provider's session to whoever presents a verifier hashing to the challenge cookie, after giving
      the provider the verifier of the start. */
  lemma HonestWaySucceeds(config: Config, w: World, id: RequestId, flow: Flow, secret: string, cookie: string,
                          session: Session, code: Code, proof: string)
    requires id !in w.ongoing && Token(flow) && secret != "" && Token(cookie) && config.s256(proof) == cookie
    ensures var w' := Run(config, w, Honest(id, flow, secret, cookie, session, code, proof));
      && w'.history.exchanges == w.history.exchanges + [Exchange(code, session, Some(proof))]
      && w'.history.callbacks == w.history.callbacks + [Callback(flow, code, session, Some(cookie))]
      && w'.history.asks == w.history.asks + [Ask(flow, secret)]
      && code !in w'.redis.handoffs && flow !in w'.redis.flows && id !in w'.ongoing
  {
    var events := Honest(id, flow, secret, cookie, session, code, proof);
    var w1 := Step(config, w, events[0]);
    var w2 := Step(config, w1, events[1]);
    assert w2.ongoing[id] == Ongoing(flow, secret, Some(cookie), AskProvider);
    var w3 := Step(config, w2, events[2]);
    var w4 := Step(config, w3, events[3]);
    assert w4.redis.handoffs[code] == Handoff(session, Some(cookie));
    var w5 := Step(config, w4, events[4]);
    RunFive(config, w, events);
  }

  lemma RunFive(config: Config, w: World, events: seq<Event>)
    requires |events| == 5
    ensures Run(config, w, events)
      == Step(config, Step(config, Step(config, Step(config, Step(config, w, events[0]), events[1]), events[2]), events[3]), events[4])
  {
    var one := events[1..];
    var two, three, four := one[1..], one[1..][1..], one[1..][1..][1..];
    assert one[0] == events[1] && two[0] == events[2] && three[0] == events[3] && four[0] == events[4] && four[1..] == [];
    var w1 := Step(config, w, events[0]);
    assert Run(config, w, events) == Run(config, w1, one);
    var w2 := Step(config, w1, events[1]);
    assert Run(config, w1, one) == Run(config, w2, two);
    var w3 := Step(config, w2, events[2]);
    assert Run(config, w2, two) == Run(config, w3, three);
    assert Run(config, w3, three) == Run(config, Step(config, w3, events[3]), four);
  }

  /** A provider that refuses or is not reached, and a code that is not stored, end the callback with nothing issued. */
  lemma FailedCallbackEnds(config: Config, w: World, id: RequestId, e: Event)
    requires id in w.ongoing
    requires e == ProviderAnswers(id, true, None) || (e.ProviderAnswers? && e.id == id && !e.reached)
             || (exists code :: e == CallbackStores(id, code, false))
    requires e.ProviderAnswers? <==> w.ongoing[id].phase == AskProvider
    ensures var w' := Step(config, w, e);
      id !in w'.ongoing && w'.redis == w.redis && w'.history.callbacks == w.history.callbacks
  {
  }

  /** An expired code is refused, and an expired flow ends the callback that brings it. */
  lemma ExpiredIsRefused(config: Config, w: World, code: Code, presented: Option<string>, id: RequestId, flow: Flow,
                         cookie: Option<string>)
    requires id !in w.ongoing
    ensures Step(config, Step(config, w, CodeExpires(code)), Exchanges(code, presented)).history == w.history
    ensures id !in Step(config, Step(config, w, FlowExpires(flow)), CallbackTakes(id, true, Some(flow), cookie)).ongoing
    ensures forall c :: c != code ==> Lookup(Step(config, w, CodeExpires(code)).redis.handoffs, c) == Lookup(w.redis.handoffs, c)
    ensures forall f :: f != flow ==> Lookup(Step(config, w, FlowExpires(flow)).redis.flows, f) == Lookup(w.redis.flows, f)
  {
  }

  // ----- the challenge cookie binds -----

  ghost predicate StaysOngoing(config: Config, w: World, events: seq<Event>, id: RequestId)
    decreases |events|
  {
    id in w.ongoing && (events != [] ==> StaysOngoing(config, Step(config, w, events[0]), events[1..], id))
  }

  lemma {:induction false} KeepsChallenge(config: Config, w: World, events: seq<Event>, id: RequestId)
    requires FreshRun(config, w, events) && StaysOngoing(config, w, events, id)
    ensures var w' := Run(config, w, events);
      id in w'.ongoing && w'.ongoing[id].challenge == w.ongoing[id].challenge
    decreases |events|
  {
    if events != [] {
      KeepsChallenge(config, Step(config, w, events[0]), events[1..], id);
    }
  }

  lemma {:induction false} KeepsCallbacks(config: Config, w: World, events: seq<Event>, c: Callback)
    requires c in w.history.callbacks
    ensures c in Run(config, w, events).history.callbacks
    decreases |events|
  {
    if events != [] { KeepsCallbacks(config, Step(config, w, events[0]), events[1..], c); }
  }

  /** In every run: once a callback with a well-formed challenge cookie has stored its code, that code is exchanged
      only with a verifier hashing to the cookie. */
  lemma CookieBindsCode(config: Config, before: seq<Event>, id: RequestId, flow: Option<Flow>, cookie: string,
                        middle: seq<Event>, code: Code, after: seq<Event>)
    requires Token(cookie) && FreshRun(config, EMPTY, before)
    requires var w := Run(config, EMPTY, before);
      var take := CallbackTakes(id, true, flow, Some(cookie));
      var w1 := Step(config, w, take);
      var w2 := Run(config, w1, middle);
      && Fresh(w, take) && FreshRun(config, w1, middle) && StaysOngoing(config, w1, middle, id)
      && id in w2.ongoing && w2.ongoing[id].phase != AskProvider && Fresh(w2, CallbackStores(id, code, true))
      && FreshRun(config, Step(config, w2, CallbackStores(id, code, true)), after)
    ensures var w1 := Step(config, Run(config, EMPTY, before), CallbackTakes(id, true, flow, Some(cookie)));
      var w3 := Step(config, Run(config, w1, middle), CallbackStores(id, code, true));
      forall x :: x in Run(config, w3, after).history.exchanges && x.code == code ==>
        x.verifier.Some? && config.s256(x.verifier.value) == cookie
  {
    var w, take := Run(config, EMPTY, before), CallbackTakes(id, true, flow, Some(cookie));
    var w1 := Step(config, w, take);
    var w2 := Run(config, w1, middle);
    var w3 := Step(config, w2, CallbackStores(id, code, true));
    assert Inv(config, EMPTY);
    RunKeepsInv(config, EMPTY, before);
    EventKeepsInv(config, w, take);
    CallbackGoesOn(config, w, id, true, flow, Some(cookie));
    RunKeepsInv(config, w1, middle);
    KeepsChallenge(config, w1, middle, id);
    EventKeepsInv(config, w2, CallbackStores(id, code, true));
    var c := Callback(w2.ongoing[id].flow, code, w2.ongoing[id].phase.session, Some(cookie));
    assert c == w3.history.callbacks[|w2.history.callbacks|];
    RunKeepsInv(config, w3, after);
    KeepsCallbacks(config, w3, after, c);
    CodeTellsCallback(config, Run(config, w3, after).history, c);
  }

  lemma CodeTellsCallback(config: Config, h: History, c: Callback)
    requires HistoryOk(config.s256, h) && c in h.callbacks && c.challenge.Some?
    ensures forall x :: x in h.exchanges && x.code == c.code ==>
      x.verifier.Some? && config.s256(x.verifier.value) == c.challenge.value
  {
    forall x | x in h.exchanges && x.code == c.code
      ensures x.verifier.Some? && config.s256(x.verifier.value) == c.challenge.value
    {
      assert Backed(config.s256, h, x);
    }
  }

  /** Where PKCE is required, nothing is exchanged without a verifier. */
  lemma {:induction false} RequiredPkceNeedsVerifier(config: Config, w: World, events: seq<Event>)
    requires config.requirePkce && forall x :: x in w.history.exchanges ==> x.verifier.Some?
    ensures forall x :: x in Run(config, w, events).history.exchanges ==> x.verifier.Some?
    decreases |events|
  {
    if events != [] { RequiredPkceNeedsVerifier(config, Step(config, w, events[0]), events[1..]); }
  }
}
