/** What the trade lock answers: in every run a request is answered with a trade that was begun
    for its idempotency key.  The cache is keyed by that key alone, so the trade may be another
    user's.  Everybody is sure to get their own trades exactly when the requests that may be
    submitted give no key to two users. */
module TradeLockAnswers {
  import opened TradeLock
  import opened TradeLockSafety

  /** Some request with this key began this trade. */
  ghost predicate TradedFor(s: State, key: IdempotencyKey, trade: TradeId) {
    exists q :: BeganFor(s, q, key, trade)
  }

  ghost predicate BeganFor(s: State, q: Req, key: IdempotencyKey, trade: TradeId) {
    q in s.started && q in s.requests && s.requests[q].key == key && s.started[q] == trade
  }

  ghost predicate CacheHoldsTrades(s: State) {
    forall k :: k in s.cache ==> TradedFor(s, k, s.cache[k].result)
  }

  /** A request on its way out carries a trade of its key. */
  ghost predicate AnswerOk(s: State, r: Req) {
    r in s.phase && r in s.requests && (s.phase[r].Finishing? || s.phase[r].Done?) ==>
      TradedFor(s, s.requests[r].key, s.phase[r].result)
  }

  ghost predicate AnswersOk(s: State) {
    forall r :: AnswerOk(s, r)
  }

  /** Trades that were begun are not forgotten. */
  ghost predicate KeepsTrades(s: State, t: State) {
    forall q :: q in s.started && q in s.requests ==>
      q in t.started && q in t.requests && t.started[q] == s.started[q] && t.requests[q] == s.requests[q]
  }

  lemma TradedStays(s: State, t: State, key: IdempotencyKey, trade: TradeId)
    requires KeepsTrades(s, t) && TradedFor(s, key, trade)
    ensures TradedFor(t, key, trade)
  {
    var q :| BeganFor(s, q, key, trade);
    assert BeganFor(t, q, key, trade);
  }

  /** A step that changes the phase of `r` only, to one whose answer is in order. */
  lemma AnswersCarryOver(s: State, t: State, r: Req)
    requires AnswersOk(s) && KeepsTrades(s, t) && AnswerOk(t, r)
    requires s.requests.Keys <= t.requests.Keys && t.requests.Keys <= s.requests.Keys + {r}
    requires forall q :: q in s.requests ==> t.requests[q] == s.requests[q]
    requires forall q :: q != r && q in t.phase ==> q in s.phase && t.phase[q] == s.phase[q]
    ensures AnswersOk(t)
  {
    hide TradedFor, KeepsTrades;
    forall q ensures AnswerOk(t, q) {
      if q != r && q in t.phase && q in t.requests && (t.phase[q].Finishing? || t.phase[q].Done?) {
        assert AnswerOk(s, q);
        TradedStays(s, t, s.requests[q].key, s.phase[q].result);
      }
    }
  }

  lemma CacheCarriesOver(s: State, t: State)
    requires CacheHoldsTrades(s) && KeepsTrades(s, t)
    requires forall k :: k in t.cache ==> k in s.cache && t.cache[k] == s.cache[k]
    ensures CacheHoldsTrades(t)
  {
    hide TradedFor, KeepsTrades;
    forall k | k in t.cache ensures TradedFor(t, k, t.cache[k].result) {
      TradedStays(s, t, k, s.cache[k].result);
    }
  }

  lemma EnterKeepsAnswers(s: State, r: Req, request: Request)
    requires AtDoor(s, r, request) && CacheHoldsTrades(s) && AnswersOk(s)
    ensures var t := Enter(s, r, request); CacheHoldsTrades(t) && AnswersOk(t) && KeepsTrades(s, t)
  {
    hide TradedFor, AnswersOk, CacheHoldsTrades;
    var t := Enter(s, r, request);
    assert KeepsTrades(s, t);
    CacheCarriesOver(s, t);
    assert AnswerOk(t, r) by {
      if Live(s, request.key) {
        CachedIsTraded(s, request.key);
        TradedStays(s, t, request.key, s.cache[request.key].result);
      }
    }
    AnswersCarryOver(s, t, r);
  }

  lemma CachedIsTraded(s: State, key: IdempotencyKey)
    requires CacheHoldsTrades(s) && key in s.cache
    ensures TradedFor(s, key, s.cache[key].result)
  {
  }

  lemma CachedSubmitKeepsAnswers(s: State, r: Req, request: Request)
    requires Inv(s) && CacheHoldsTrades(s) && AnswersOk(s) && r !in s.phase && Live(s, request.key)
    ensures var t := SubmitStep(s, r, request); CacheHoldsTrades(t) && AnswersOk(t)
  {
    hide TradedFor, AnswersOk, CacheHoldsTrades, LocksHeld, WaitsOnEntered, TradesDistinct, TradePhases, CacheCovers;
    var t := SubmitStep(s, r, request);
    assert r !in s.requests;
    assert KeepsTrades(s, t);
    CacheCarriesOver(s, t);
    CachedIsTraded(s, request.key);
    TradedStays(s, t, request.key, s.cache[request.key].result);
    AnswersCarryOver(s, t, r);
  }

  lemma RegisterKeepsAnswers(s: State, r: Req, request: Request)
    requires Inv(s) && CacheHoldsTrades(s) && AnswersOk(s) && r !in s.phase
    ensures var t := Registered(s, r, request);
      CacheHoldsTrades(t) && AnswersOk(t) && AtDoor(t, r, request) && r !in t.phase
  {
    hide TradedFor, AnswersOk, CacheHoldsTrades, LocksHeld, WaitsOnEntered, TradesDistinct, CacheCovers;
    var t := Registered(s, r, request);
    assert r !in s.requests && r !in s.started;
    assert KeepsTrades(s, t);
    CacheCarriesOver(s, t);
    AnswersCarryOver(s, t, r);
  }

  lemma QueueKeepsAnswers(s: State, r: Req, lock: Req)
    requires CacheHoldsTrades(s) && AnswersOk(s)
    ensures var t := s.(phase := s.phase[r := Waiting(lock)]); CacheHoldsTrades(t) && AnswersOk(t)
  {
    hide TradedFor, AnswersOk, CacheHoldsTrades;
    var t := s.(phase := s.phase[r := Waiting(lock)]);
    CacheCarriesOver(s, t);
    AnswersCarryOver(s, t, r);
  }

  lemma SubmitKeepsAnswers(s: State, r: Req, request: Request)
    requires Inv(s) && CacheHoldsTrades(s) && AnswersOk(s) && r !in s.phase
    ensures var t := SubmitStep(s, r, request); CacheHoldsTrades(t) && AnswersOk(t)
  {
    hide Inv, AnswersOk, CacheHoldsTrades, Enter, Live, AtDoor;
    if Live(s, request.key) {
      CachedSubmitKeepsAnswers(s, r, request);
    } else {
      RegisterKeepsAnswers(s, r, request);
      var s2 := Registered(s, r, request);
      if request.user in s.userLocks {
        QueueKeepsAnswers(s2, r, s.userLocks[request.user]);
      } else {
        EnterKeepsAnswers(s2, r, request);
      }
    }
  }

  lemma ResumeKeepsAnswers(s: State, r: Req)
    requires Inv(s) && CacheHoldsTrades(s) && AnswersOk(s) && Enabled(s, Resume(r))
    ensures var t := Apply(s, Resume(r)); CacheHoldsTrades(t) && AnswersOk(t)
  {
    hide AnswersOk, CacheHoldsTrades, LocksHeld, WaitsOnEntered, TradesDistinct, CacheCovers, Enter;
    assert Waits(s, r);
    EnterKeepsAnswers(s, r, s.requests[r]);
  }

  lemma CacheKeepsAnswers(s: State, r: Req)
    requires Inv(s) && CacheHoldsTrades(s) && AnswersOk(s) && Enabled(s, CacheResult(r))
    ensures var t := CacheStep(s, r); CacheHoldsTrades(t) && AnswersOk(t)
  {
    hide TradedFor, AnswersOk, LocksHeld, WaitsOnEntered, TradesDistinct, CacheCovers;
    var t := CacheStep(s, r);
    assert KeepsTrades(s, t);
    OwnTrade(s, t, r);
    forall k | k in t.cache ensures TradedFor(t, k, t.cache[k].result) {
      if k != s.requests[r].key {
        TradedStays(s, t, k, s.cache[k].result);
      }
    }
    AnswersCarryOver(s, t, r);
  }

  lemma OwnTrade(s: State, t: State, r: Req)
    requires TradePhases(s) && r in s.phase && r in s.requests && s.phase[r].Traded?
    requires t.started == s.started && t.requests == s.requests
    ensures TradedFor(t, s.requests[r].key, s.phase[r].trade)
  {
    assert BeganFor(t, r, s.requests[r].key, s.phase[r].trade);
  }

  lemma OtherStepsKeepAnswers(s: State, e: Event)
    requires Inv(s) && CacheHoldsTrades(s) && AnswersOk(s) && Enabled(s, e)
    requires !e.Submit? && !e.Resume? && !e.CacheResult?
    ensures var t := Apply(s, e); CacheHoldsTrades(t) && AnswersOk(t)
  {
    hide TradedFor, AnswersOk, CacheHoldsTrades, LocksHeld, WaitsOnEntered, TradesDistinct, TradePhases, CacheCovers;
    var t := Apply(s, e);
    assert KeepsTrades(s, t);
    CacheCarriesOver(s, t);
    var r := if e.TradeReturns? || e.Release? then e.r else 0;
    assert AnswerOk(t, r) by {
      AnswerAt(s, r);
      if AnswerOk(s, r) && r in s.phase && r in s.requests && (s.phase[r].Finishing? || s.phase[r].Done?) {
        TradedStays(s, t, s.requests[r].key, s.phase[r].result);
      }
    }
    AnswersCarryOver(s, t, r);
  }

  lemma AnswerAt(s: State, r: Req)
    requires AnswersOk(s)
    ensures AnswerOk(s, r)
  {
  }

  lemma {:induction false} RunKeepsAnswers(s: State, es: seq<Event>)
    requires Inv(s) && CacheHoldsTrades(s) && AnswersOk(s) && IsRun(s, es)
    ensures CacheHoldsTrades(After(s, es)) && AnswersOk(After(s, es))
    decreases |es|
  {
    hide Inv, AnswersOk, CacheHoldsTrades;
    if es != [] {
      var e := es[0];
      match e {
        case Submit(r, request) => SubmitKeepsAnswers(s, r, request);
        case Resume(r) => ResumeKeepsAnswers(s, r);
        case CacheResult(r) => CacheKeepsAnswers(s, r);
        case _ => OtherStepsKeepAnswers(s, e);
      }
      StepKeepsInv(s, e);
      RunKeepsAnswers(Apply(s, e), es[1..]);
    }
  }

  /** In every run a finished request was answered with a trade begun for its own key, and with
      one begun for its own user whenever nobody else used that key. */
  lemma EveryAnswerIsATrade(now: int, es: seq<Event>, r: Req) returns (q: Req)
    requires IsRun(Init(now), es) && IsDone(After(Init(now), es), r)
    ensures var s := After(Init(now), es);
      && r in s.requests && BeganFor(s, q, s.requests[r].key, s.phase[r].result)
      && ((forall p :: p in s.requests && s.requests[p].key == s.requests[r].key ==>
             s.requests[p].user == s.requests[r].user) ==> s.requests[q] == s.requests[r])
  {
    hide IsRun, After;
    EveryRunKeepsInv(now, es);
    RunKeepsAnswers(Init(now), es);
    var s := After(Init(now), es);
    AnswerAt(s, r);
    q :| BeganFor(s, q, s.requests[r].key, s.phase[r].result);
  }

  /** A key used by two users: the second is handed the first one's trade. */
  lemma AnotherUsersTrade(now: int, alice: UserId, bob: UserId, key: IdempotencyKey)
    requires alice != bob
    ensures var es := [Submit(0, Request(alice, key)), TradeReturns(0), CacheResult(0), Submit(1, Request(bob, key))];
      && IsRun(Init(now), es)
      && var s := After(Init(now), es);
      && IsDone(s, 1) && Of(s, 1, bob) && 1 !in s.started
      && 0 in s.started && Of(s, 0, alice) && s.phase[1].result == s.started[0]
  {
    hide IsRun, After;
    var es := [Submit(0, Request(alice, key)), TradeReturns(0), CacheResult(0), Submit(1, Request(bob, key))];
    var s1 := Apply(Init(now), es[0]);
    var s2 := Apply(s1, es[1]);
    var s3 := Apply(s2, es[2]);
    var s4 := Apply(s3, es[3]);
    FourSteps(Init(now), es);
  }

  // ---------------------------------------------------------------- one's own trades

  /** The run submits no other requests than these. */
  ghost predicate SubmitsOnly(es: seq<Event>, allowed: iset<Request>) {
    forall i :: 0 <= i < |es| && es[i].Submit? ==> es[i].request in allowed
  }

  /** No key belongs to two users. */
  ghost predicate KeysOwned(allowed: iset<Request>) {
    forall a, b :: a in allowed && b in allowed && a.key == b.key ==> a.user == b.user
  }

  /** If the request is done, it was answered with a trade begun for its user and key. */
  ghost predicate AnsweredWithOwn(s: State, r: Req) {
    IsDone(s, r) ==> exists q :: r in s.requests && q in s.requests && s.requests[q] == s.requests[r]
                                 && BeganFor(s, q, s.requests[r].key, s.phase[r].result)
  }

  ghost predicate RequestsFrom(s: State, allowed: iset<Request>) {
    forall r :: r in s.requests ==> s.requests[r] in allowed
  }

  lemma {:induction false} RequestsStayAllowed(s: State, es: seq<Event>, allowed: iset<Request>)
    requires IsRun(s, es) && SubmitsOnly(es, allowed) && RequestsFrom(s, allowed)
    ensures RequestsFrom(After(s, es), allowed)
    decreases |es|
  {
    hide Enter, Live;
    if es != [] {
      match es[0] {
        case Submit(r, request) =>
          assert request in allowed;
          SubmitTouches(s, r, request);
        case Resume(r) => EnterTouches(s, r, s.requests[r]);
        case _ =>
      }
      RequestsStayAllowed(Apply(s, es[0]), es[1..], allowed);
    }
  }

  /** Everybody gets their own trades in every run of these requests exactly when no two of them
      share a key and differ in the user. */
  lemma OwnAnswersExactly(now: int, allowed: iset<Request>)
    ensures KeysOwned(allowed) <==>
      forall es, r :: IsRun(Init(now), es) && SubmitsOnly(es, allowed) ==> AnsweredWithOwn(After(Init(now), es), r)
  {
    hide IsRun, After, IsDone, SubmitsOnly;
    if KeysOwned(allowed) {
      forall es, r | IsRun(Init(now), es) && SubmitsOnly(es, allowed)
        ensures AnsweredWithOwn(After(Init(now), es), r)
      {
        if IsDone(After(Init(now), es), r) {
          var q := EveryAnswerIsATrade(now, es, r);
          RequestsStayAllowed(Init(now), es, allowed);
        }
      }
    } else {
      var a, b :| a in allowed && b in allowed && a.key == b.key && a.user != b.user;
      var es := SharedKeyRun(now, a, b);
      assert SubmitsOnly(es, allowed) by { OnlyTheseTwo(es, a, b, allowed); }
      assert !AnsweredWithOwn(After(Init(now), es), 1);
    }
  }

  ghost predicate FromThese(es: seq<Event>, a: Request, b: Request) {
    forall i :: 0 <= i < |es| && es[i].Submit? ==> es[i].request == a || es[i].request == b
  }

  lemma OnlyTheseTwo(es: seq<Event>, a: Request, b: Request, allowed: iset<Request>)
    requires FromThese(es, a, b) && a in allowed && b in allowed
    ensures SubmitsOnly(es, allowed)
  {
  }

  lemma SharedKeyRun(now: int, a: Request, b: Request) returns (es: seq<Event>)
    requires a.key == b.key && a.user != b.user
    ensures IsRun(Init(now), es) && FromThese(es, a, b)
    ensures !AnsweredWithOwn(After(Init(now), es), 1)
  {
    hide IsRun, After;
    es := [Submit(0, a), TradeReturns(0), CacheResult(0), Submit(1, b)];
    AnotherUsersTrade(now, a.user, b.user, a.key);
    assert Request(a.user, a.key) == a && Request(b.user, a.key) == b;
    EveryRunKeepsInv(now, es);
    var s := After(Init(now), es);
    OneTrader(s, 0);
  }

  /** A trade was begun by one request only. */
  lemma OneTrader(s: State, r: Req)
    requires Inv(s) && r in s.started
    ensures forall q :: q in s.started && s.started[q] == s.started[r] ==> q == r
  {
  }
}
