/** The per-user trade lock of src/defi/trade-lock.service.ts as a step system.

    An async function runs without interruption from one `await` to the next, so
    one step is one such stretch.  A request is known by a number; the lock it
    installs is a promise that is resolved when the request is done, so the
    request's number also names its lock.

    `withUserLock` awaits the lock it finds once and does not look again, and a
    holder whose map entry was replaced leaves the map empty behind it.  Mutual
    exclusion is therefore conditional, and the condition is stated exactly: a
    submission keeps a user's requests apart exactly when they were apart before
    and the answer is cached, or nobody waits for that user's lock and whoever
    holds it is named in the lock map. */
module TradeLock {

  type Req = nat
  datatype UserId = UserId(name: string)
  datatype IdempotencyKey = IdempotencyKey(text: string)

  /** A validated request; asset, amount and side play no part in locking. */
  datatype Request = Request(user: UserId, key: IdempotencyKey)

  /** `trade_${++this.tradeCounter}_${Date.now()}` */
  datatype TradeId = TradeId(counter: nat, at: int)

  datatype CacheEntry = CacheEntry(result: TradeId, expiresAt: int)

  /** Where a request stands: which `await` it is suspended at. */
  datatype Phase =
    | Waiting(lock: Req)        // await existingLock
    | Trading(trade: TradeId)   // await setTimeout inside performTrade
    | Traded(trade: TradeId)    // await this.performTrade(request)
    | Finishing(result: TradeId) // await fn()
    | Done(result: TradeId)

  const DAY_MS := 86400000

  /** The service's fields, the clock, and the suspended requests.  `started` and
      `cachedUntil` log the trade a request began and the life of its cache entry. */
  datatype State = State(
    userLocks: map<UserId, Req>,
    cache: map<IdempotencyKey, CacheEntry>,
    tradeCounter: nat,
    now: int,
    requests: map<Req, Request>,
    phase: map<Req, Phase>,
    started: map<Req, TradeId>,
    cachedUntil: map<Req, int>)

  function Init(now: int): State {
    State(map[], map[], 0, now, map[], map[], map[], map[])
  }

  datatype Event =
    | Submit(r: Req, request: Request) // executeTrade up to its first await
    | Resume(r: Req)                   // the awaited lock was released
    | TradeReturns(r: Req)             // performTrade returns
    | CacheResult(r: Req)              // the locked section stores the result and returns
    | Release(r: Req)                  // the finally block
    | Tick(to: int)
    | Cleanup                          // cleanupExpiredCache

  predicate Live(s: State, key: IdempotencyKey) {
    key in s.cache && s.now < s.cache[key].expiresAt
  }

  predicate IsDone(s: State, r: Req) {
    r in s.phase && s.phase[r].Done?
  }

  predicate Enabled(s: State, e: Event) {
    match e
    case Submit(r, _) => r !in s.phase
    case Resume(r) => r in s.phase && r in s.requests && s.phase[r].Waiting? && IsDone(s, s.phase[r].lock)
    case TradeReturns(r) => r in s.phase && s.phase[r].Trading?
    case CacheResult(r) => r in s.phase && r in s.requests && s.phase[r].Traded?
    case Release(r) => r in s.phase && r in s.requests && s.phase[r].Finishing?
    case Tick(to) => s.now <= to
    case Cleanup => true
  }

  /** Install the lock, look at the cache again, and begin the trade if it is not there. */
  function Enter(s: State, r: Req, request: Request): State {
    var locked := s.(userLocks := s.userLocks[request.user := r]);
    if Live(s, request.key) then
      locked.(phase := s.phase[r := Finishing(s.cache[request.key].result)])
    else
      var trade := TradeId(s.tradeCounter + 1, s.now);
      locked.(tradeCounter := s.tradeCounter + 1,
              phase := s.phase[r := Trading(trade)],
              started := s.started[r := trade])
  }

  function SubmitStep(s: State, r: Req, request: Request): State {
    var s1 := s.(requests := s.requests[r := request]);
    if Live(s, request.key) then s1.(phase := s.phase[r := Done(s.cache[request.key].result)])
    else
      var s2 := s1.(cache := s.cache - {request.key});
      if request.user in s.userLocks then s2.(phase := s.phase[r := Waiting(s.userLocks[request.user])])
      else Enter(s2, r, request)
  }

  function CacheStep(s: State, r: Req): State
    requires Enabled(s, CacheResult(r))
  {
    var trade := s.phase[r].trade;
    s.(cache := s.cache[s.requests[r].key := CacheEntry(trade, s.now + DAY_MS)],
       cachedUntil := s.cachedUntil[r := s.now + DAY_MS],
       phase := s.phase[r := Finishing(trade)])
  }

  function ReleaseStep(s: State, r: Req): State
    requires Enabled(s, Release(r))
  {
    var user := s.requests[r].user;
    var locks := if user in s.userLocks && s.userLocks[user] == r then s.userLocks - {user} else s.userLocks;
    s.(phase := s.phase[r := Done(s.phase[r].result)], userLocks := locks)
  }

  function Apply(s: State, e: Event): State
    requires Enabled(s, e)
  {
    match e
    case Submit(r, request) => SubmitStep(s, r, request)
    case Resume(r) => Enter(s, r, s.requests[r])
    case TradeReturns(r) => s.(phase := s.phase[r := Traded(s.phase[r].trade)])
    case CacheResult(r) => CacheStep(s, r)
    case Release(r) => ReleaseStep(s, r)
    case Tick(to) => s.(now := to)
    case Cleanup => s.(cache := map k | k in s.cache && s.now < s.cache[k].expiresAt :: s.cache[k])
  }

  // ---------------------------------------------------------------- runs

  ghost predicate IsRun(s: State, es: seq<Event>)
    decreases |es|
  {
    es == [] || (Enabled(s, es[0]) && IsRun(Apply(s, es[0]), es[1..]))
  }

  ghost function After(s: State, es: seq<Event>): State
    requires IsRun(s, es)
    decreases |es|
  {
    if es == [] then s else After(Apply(s, es[0]), es[1..])
  }

  lemma {:induction false} RunAppend(s: State, a: seq<Event>, b: seq<Event>)
    requires IsRun(s, a) && IsRun(After(s, a), b)
    ensures IsRun(s, a + b) && After(s, a + b) == After(After(s, a), b)
    decreases |a|
  {
    if a == [] {
      assert a + b == b;
    } else {
      assert (a + b)[0] == a[0] && (a + b)[1..] == a[1..] + b;
      RunAppend(Apply(s, a[0]), a[1..], b);
    }
  }

  lemma OneStep(s: State, e: Event)
    requires Enabled(s, e)
    ensures IsRun(s, [e]) && After(s, [e]) == Apply(s, e)
  {
    assert [e][1..] == [];
    assert IsRun(Apply(s, e), []);
  }

  // ---------------------------------------------------------------- what every step keeps

  /** The request has installed its lock and not released it. */
  predicate Holds(s: State, r: Req) {
    r in s.phase && (s.phase[r].Trading? || s.phase[r].Traded? || s.phase[r].Finishing?)
  }

  predicate Waits(s: State, r: Req) {
    r in s.phase && s.phase[r].Waiting?
  }

  predicate Of(s: State, r: Req, user: UserId) {
    r in s.requests && s.requests[r].user == user
  }

  /** The lock map names requests that hold. */
  ghost predicate LocksHeld(s: State) {
    forall u :: u in s.userLocks ==> Holds(s, s.userLocks[u]) && Of(s, s.userLocks[u], u)
  }

  /** Nobody waits for a waiter: every awaited lock was installed by a request of
      the same user that is in its locked section or done. */
  ghost predicate WaitsOnEntered(s: State) {
    forall r :: Waits(s, r) && r in s.requests ==>
      && (Holds(s, s.phase[r].lock) || IsDone(s, s.phase[r].lock))
      && Of(s, s.phase[r].lock, s.requests[r].user)
  }

  /** Trade numbers are below the counter and never repeat. */
  ghost predicate TradesDistinct(s: State) {
    && (forall r :: r in s.started ==> s.started[r].counter <= s.tradeCounter && s.started[r].at <= s.now)
    && (forall r, q :: r in s.started && q in s.started && r != q ==> s.started[r].counter != s.started[q].counter)
  }

  /** A request trades before it caches, and is between the two while `Trading` or `Traded`. */
  ghost predicate TradePhases(s: State) {
    && (forall r :: r in s.started ==> r in s.phase)
    && (forall r :: r in s.phase ==> (Waits(s, r) ==> r !in s.started))
    && (forall r :: r in s.phase && s.phase[r].Trading? ==> r in s.started && s.phase[r].trade == s.started[r])
    && (forall r :: r in s.phase && s.phase[r].Traded? ==> r in s.started && s.phase[r].trade == s.started[r])
    && (forall r :: r in s.started ==> (r !in s.cachedUntil <==> s.phase[r].Trading? || s.phase[r].Traded?))
    && (forall r :: r in s.cachedUntil ==> r in s.started && s.started[r].at + DAY_MS <= s.cachedUntil[r])
  }

  /** While a cached result should live, the cache answers for its key at least that long. */
  ghost predicate CacheCovers(s: State) {
    && (forall r :: r in s.cachedUntil ==> r in s.requests && s.cachedUntil[r] <= s.now + DAY_MS)
    && (forall r :: r in s.cachedUntil && r in s.requests && s.now < s.cachedUntil[r] ==>
          s.requests[r].key in s.cache && s.cachedUntil[r] <= s.cache[s.requests[r].key].expiresAt)
  }

  ghost predicate Inv(s: State) {
    && s.phase.Keys == s.requests.Keys
    && LocksHeld(s)
    && WaitsOnEntered(s)
    && TradesDistinct(s)
    && TradePhases(s)
    && CacheCovers(s)
  }

  /** A request that is about to enter the locked section. */
  predicate AtDoor(s: State, r: Req, request: Request) {
    r in s.requests && s.requests[r] == request && !Holds(s, r) && !IsDone(s, r) && r !in s.started
  }

  /** Entering changes the phase of `r` and the lock of its user. */
  lemma EnterTouches(s: State, r: Req, request: Request)
    ensures var t := Enter(s, r, request);
      && t.requests == s.requests
      && r in t.phase && t.phase == s.phase[r := t.phase[r]]
      && t.userLocks == s.userLocks[request.user := r]
      && Holds(t, r)
  {
    hide Live;
    var t := Enter(s, r, request);
    if Live(s, request.key) {
      assert t.phase[r].Finishing?;
    } else {
      assert t.phase[r].Trading?;
    }
  }

  lemma EnterKeepsLocks(s: State, r: Req, request: Request)
    requires AtDoor(s, r, request) && LocksHeld(s)
    ensures LocksHeld(Enter(s, r, request))
  {
    hide Enter, Live;
    EnterTouches(s, r, request);
  }

  lemma EnterKeepsWaits(s: State, r: Req, request: Request)
    requires AtDoor(s, r, request) && WaitsOnEntered(s)
    ensures WaitsOnEntered(Enter(s, r, request))
  {
    hide Enter, Live;
    EnterTouches(s, r, request);
    var t := Enter(s, r, request);
    forall w | Waits(t, w) && w in t.requests
      ensures (Holds(t, t.phase[w].lock) || IsDone(t, t.phase[w].lock)) && Of(t, t.phase[w].lock, t.requests[w].user)
    {
      assert w != r && Waits(s, w);
    }
  }

  lemma EnterKeepsDistinct(s: State, r: Req, request: Request)
    requires AtDoor(s, r, request) && TradesDistinct(s)
    ensures TradesDistinct(Enter(s, r, request))
  {
    var t := Enter(s, r, request);
    forall a, b | a in t.started && b in t.started && a != b
      ensures t.started[a].counter != t.started[b].counter
    {
      assert a != r ==> a in s.started;
      assert b != r ==> b in s.started;
    }
  }

  lemma EnterKeepsPhases(s: State, r: Req, request: Request)
    requires AtDoor(s, r, request) && TradePhases(s)
    ensures TradePhases(Enter(s, r, request))
  {
    hide TradesDistinct;
  }

  lemma EnterKeepsCache(s: State, r: Req, request: Request)
    requires CacheCovers(s)
    ensures CacheCovers(Enter(s, r, request))
  {
  }

  lemma EnterKeepsInv(s: State, r: Req, request: Request)
    requires AtDoor(s, r, request) && s.phase.Keys + {r} == s.requests.Keys
    requires LocksHeld(s) && WaitsOnEntered(s) && TradesDistinct(s) && TradePhases(s) && CacheCovers(s)
    ensures Inv(Enter(s, r, request))
  {
    hide LocksHeld, WaitsOnEntered, TradesDistinct, TradePhases, CacheCovers;
    EnterKeepsLocks(s, r, request);
    EnterKeepsWaits(s, r, request);
    EnterKeepsDistinct(s, r, request);
    EnterKeepsPhases(s, r, request);
    EnterKeepsCache(s, r, request);
  }

  /** Registering a fresh request and dropping a dead cache entry change nothing that matters. */
  lemma RegisterKeeps(s: State, r: Req, request: Request)
    requires Inv(s) && r !in s.phase && !Live(s, request.key)
    ensures var s2 := s.(requests := s.requests[r := request], cache := s.cache - {request.key});
      LocksHeld(s2) && WaitsOnEntered(s2) && TradesDistinct(s2) && TradePhases(s2) && CacheCovers(s2)
  {
    hide Inv;
    var s1 := s.(requests := s.requests[r := request]);
    assert Live(s1, request.key) == Live(s, request.key);
    var s2 := s1.(cache := s.cache - {request.key});
    RegisterLiveKeeps(s, r, request);
    hide LocksHeld, WaitsOnEntered, TradesDistinct, TradePhases, CacheCovers, Live;
    CacheFree(s1, s2);
    TradeFree(s1, s2);
    DropDeadEntry(s1, request.key);
  }

  lemma DropDeadEntry(s: State, key: IdempotencyKey)
    requires CacheCovers(s) && !Live(s, key)
    ensures CacheCovers(s.(cache := s.cache - {key}))
  {
  }

  /** These two look at trades, phases and the clock only. */
  lemma TradeFree(s: State, t: State)
    requires t.started == s.started && t.tradeCounter == s.tradeCounter && t.now == s.now
    requires t.phase == s.phase && t.cachedUntil == s.cachedUntil
    ensures TradesDistinct(s) == TradesDistinct(t) && TradePhases(s) == TradePhases(t)
  {
  }

  lemma RegisterLiveKeeps(s: State, r: Req, request: Request)
    requires Inv(s) && r !in s.phase
    ensures var s1 := s.(requests := s.requests[r := request]);
      LocksHeld(s1) && WaitsOnEntered(s1) && TradesDistinct(s1) && TradePhases(s1) && CacheCovers(s1)
  {
    hide TradesDistinct, TradePhases;
    TradeFree(s, s.(requests := s.requests[r := request]));
  }

  /** A new request parks or answers without touching a lock. */
  lemma ParkKeepsLocks(s: State, r: Req, p: Phase)
    requires LocksHeld(s) && WaitsOnEntered(s) && r !in s.phase && r in s.requests
    requires p.Done? || (p.Waiting? && Holds(s, p.lock) && Of(s, p.lock, s.requests[r].user))
    ensures LocksHeld(s.(phase := s.phase[r := p])) && WaitsOnEntered(s.(phase := s.phase[r := p]))
  {
  }

  lemma ParkKeepsTrades(s: State, r: Req, p: Phase)
    requires TradePhases(s) && r !in s.phase && (p.Done? || p.Waiting?)
    ensures TradePhases(s.(phase := s.phase[r := p]))
  {
  }

  lemma ParkKeepsInv(s: State, r: Req, p: Phase)
    requires LocksHeld(s) && WaitsOnEntered(s) && TradesDistinct(s) && TradePhases(s) && CacheCovers(s)
    requires r !in s.phase && s.phase.Keys + {r} == s.requests.Keys
    requires p.Done? || (p.Waiting? && Holds(s, p.lock) && Of(s, p.lock, s.requests[r].user))
    ensures Inv(s.(phase := s.phase[r := p]))
  {
    hide LocksHeld, WaitsOnEntered, TradesDistinct, TradePhases, CacheCovers;
    ParkKeepsLocks(s, r, p);
    ParkKeepsTrades(s, r, p);
    PhaseFree(s, s.(phase := s.phase[r := p]));
  }

  /** These two do not look at phases. */
  lemma PhaseFree(s: State, t: State)
    requires t == s.(phase := t.phase)
    ensures CacheCovers(s) == CacheCovers(t) && TradesDistinct(s) == TradesDistinct(t)
  {
  }

  lemma SubmitKeepsInv(s: State, r: Req, request: Request)
    requires Inv(s) && r !in s.phase
    ensures Inv(SubmitStep(s, r, request))
  {
    if Live(s, request.key) {
      RegisterLiveKeeps(s, r, request);
      ParkKeepsInv(s.(requests := s.requests[r := request]), r, Done(s.cache[request.key].result));
    } else {
      RegisterKeeps(s, r, request);
      var s2 := s.(requests := s.requests[r := request], cache := s.cache - {request.key});
      if request.user in s.userLocks {
        assert Holds(s2, s2.userLocks[request.user]);
        ParkKeepsInv(s2, r, Waiting(s.userLocks[request.user]));
      } else {
        EnterKeepsInv(s2, r, request);
      }
    }
  }

  lemma ResumeKeepsInv(s: State, r: Req)
    requires Inv(s) && Enabled(s, Resume(r))
    ensures Inv(Apply(s, Resume(r)))
  {
    hide LocksHeld, WaitsOnEntered, TradesDistinct, CacheCovers;
    EnterKeepsInv(s, r, s.requests[r]);
  }

  /** A holder moves on inside its locked section. */
  lemma AdvanceKeepsLocks(s: State, r: Req, p: Phase)
    requires LocksHeld(s) && WaitsOnEntered(s) && Holds(s, r) && (p.Traded? || p.Finishing?)
    ensures LocksHeld(s.(phase := s.phase[r := p])) && WaitsOnEntered(s.(phase := s.phase[r := p]))
  {
  }

  lemma TradeReturnsKeepsInv(s: State, r: Req)
    requires Inv(s) && Enabled(s, TradeReturns(r))
    ensures Inv(Apply(s, TradeReturns(r)))
  {
    hide LocksHeld, WaitsOnEntered, TradesDistinct, CacheCovers;
    AdvanceKeepsLocks(s, r, Traded(s.phase[r].trade));
    PhaseFree(s, Apply(s, TradeReturns(r)));
  }

  lemma CacheKeepsTrades(s: State, r: Req)
    requires TradesDistinct(s) && TradePhases(s) && Enabled(s, CacheResult(r))
    ensures TradesDistinct(CacheStep(s, r)) && TradePhases(CacheStep(s, r))
  {
  }

  lemma CacheKeepsCovers(s: State, r: Req)
    requires CacheCovers(s) && Enabled(s, CacheResult(r))
    ensures CacheCovers(CacheStep(s, r))
  {
  }

  /** These two look at phases, requests and locks only. */
  lemma CacheFree(s: State, t: State)
    requires t.userLocks == s.userLocks && t.phase == s.phase && t.requests == s.requests
    ensures LocksHeld(s) == LocksHeld(t) && WaitsOnEntered(s) == WaitsOnEntered(t)
  {
  }

  lemma CacheResultKeepsInv(s: State, r: Req)
    requires Inv(s) && Enabled(s, CacheResult(r))
    ensures Inv(Apply(s, CacheResult(r)))
  {
    hide LocksHeld, WaitsOnEntered, TradesDistinct, TradePhases, CacheCovers;
    CacheKeepsTrades(s, r);
    CacheKeepsCovers(s, r);
    AdvanceKeepsLocks(s, r, Finishing(s.phase[r].trade));
    CacheFree(s.(phase := s.phase[r := Finishing(s.phase[r].trade)]), CacheStep(s, r));
  }

  lemma ReleaseKeepsLocks(s: State, r: Req)
    requires LocksHeld(s) && WaitsOnEntered(s) && Enabled(s, Release(r))
    ensures LocksHeld(ReleaseStep(s, r)) && WaitsOnEntered(ReleaseStep(s, r))
  {
  }

  lemma ReleaseKeepsTrades(s: State, r: Req)
    requires TradesDistinct(s) && TradePhases(s) && CacheCovers(s) && Enabled(s, Release(r))
    ensures TradesDistinct(ReleaseStep(s, r)) && TradePhases(ReleaseStep(s, r)) && CacheCovers(ReleaseStep(s, r))
  {
    hide TradesDistinct, CacheCovers;
    PhaseFree(s.(userLocks := ReleaseStep(s, r).userLocks), ReleaseStep(s, r));
    LockFree(s, s.(userLocks := ReleaseStep(s, r).userLocks));
  }

  lemma LockFree(s: State, t: State)
    requires t == s.(userLocks := t.userLocks)
    ensures CacheCovers(s) == CacheCovers(t) && TradesDistinct(s) == TradesDistinct(t)
  {
  }

  lemma ReleaseKeepsInv(s: State, r: Req)
    requires Inv(s) && Enabled(s, Release(r))
    ensures Inv(Apply(s, Release(r)))
  {
    hide LocksHeld, WaitsOnEntered, TradesDistinct, TradePhases, CacheCovers;
    ReleaseKeepsLocks(s, r);
    ReleaseKeepsTrades(s, r);
  }

  lemma ClockKeepsInv(s: State, e: Event)
    requires Inv(s) && Enabled(s, e) && (e.Tick? || e.Cleanup?)
    ensures Inv(Apply(s, e))
  {
    hide LocksHeld, WaitsOnEntered, TradePhases;
    CacheFree(s, Apply(s, e));
    PhasesTimeless(s, Apply(s, e));
  }

  lemma PhasesTimeless(s: State, t: State)
    requires t.started == s.started && t.phase == s.phase && t.cachedUntil == s.cachedUntil
    ensures TradePhases(s) == TradePhases(t)
  {
  }

  /** Every step keeps the invariant. */
  lemma StepKeepsInv(s: State, e: Event)
    requires Inv(s) && Enabled(s, e)
    ensures Inv(Apply(s, e))
  {
    hide Inv;
    match e
    case Submit(r, request) => SubmitKeepsInv(s, r, request);
    case Resume(r) => ResumeKeepsInv(s, r);
    case TradeReturns(r) => TradeReturnsKeepsInv(s, r);
    case CacheResult(r) => CacheResultKeepsInv(s, r);
    case Release(r) => ReleaseKeepsInv(s, r);
    case Tick(_) => ClockKeepsInv(s, e);
    case Cleanup => ClockKeepsInv(s, e);
  }

  lemma {:induction false} RunKeepsInv(s: State, es: seq<Event>)
    requires Inv(s) && IsRun(s, es)
    ensures Inv(After(s, es))
    decreases |es|
  {
    hide Inv, Enabled, Apply;
    if es != [] {
      StepKeepsInv(s, es[0]);
      RunKeepsInv(Apply(s, es[0]), es[1..]);
    }
  }

  /** In every interleaving of any number of requests: nobody waits for a waiter, the
      lock map names running requests of its user, and trade ids never repeat. */
  lemma EveryRunKeepsInv(now: int, es: seq<Event>)
    requires IsRun(Init(now), es)
    ensures Inv(After(Init(now), es))
  {
    RunKeepsInv(Init(now), es);
  }

  /** What a submission does, by what it finds: it is answered at once with the cached result
      exactly while that has not expired; else it waits exactly when the user has a lock entry;
      else it begins a trade with the next number, at the present time. */
  lemma SubmitOutcome(s: State, r: Req, request: Request)
    requires r !in s.phase
    ensures var t := SubmitStep(s, r, request);
      && r in t.phase
      && (t.phase[r].Done? <==> request.key in s.cache && s.now < s.cache[request.key].expiresAt)
      && (t.phase[r].Done? ==> t.phase[r].result == s.cache[request.key].result && t.started == s.started)
      && (t.phase[r].Waiting? <==> !t.phase[r].Done? && request.user in s.userLocks)
      && (t.phase[r].Waiting? ==> t.phase[r].lock == s.userLocks[request.user] && t.started == s.started)
      && (!t.phase[r].Done? && !t.phase[r].Waiting? ==>
            t.phase[r] == Trading(TradeId(s.tradeCounter + 1, s.now)) && t.started == s.started[r := t.phase[r].trade])
  {
    var t := SubmitStep(s, r, request);
    if Live(s, request.key) {
      assert t.phase[r] == Done(s.cache[request.key].result);
    } else if request.user in s.userLocks {
      assert t.phase[r] == Waiting(s.userLocks[request.user]);
    } else {
      assert t.phase[r] == Trading(TradeId(s.tradeCounter + 1, s.now));
    }
  }

  /** A stored result lives for 24 hours, and the cleanup removes exactly what has expired. */
  lemma ResultsLiveADay(s: State, r: Req, key: IdempotencyKey)
    ensures Enabled(s, CacheResult(r)) && s.requests[r].key == key ==>
      var t := Apply(s, CacheResult(r));
      key in t.cache && t.cache[key] == CacheEntry(s.phase[r].trade, s.now + 24 * 60 * 60 * 1000)
    ensures key in Apply(s, Cleanup).cache <==> key in s.cache && s.now < s.cache[key].expiresAt
    ensures key in Apply(s, Cleanup).cache ==> Apply(s, Cleanup).cache[key] == s.cache[key]
  {
  }

  /** A lock entry disappears only in the `finally` block of the request that installed it. */
  lemma DeletedByInstaller(s: State, e: Event, user: UserId)
    requires Enabled(s, e)
    requires user in s.userLocks && user !in Apply(s, e).userLocks
    ensures e == Release(s.userLocks[user])
  {
    hide SubmitStep;
    SubmitDeletesNoLock(s, e);
  }

  lemma SubmitDeletesNoLock(s: State, e: Event)
    ensures e.Submit? ==> s.userLocks.Keys <= SubmitStep(s, e.r, e.request).userLocks.Keys
  {
    hide Live;
  }
}
