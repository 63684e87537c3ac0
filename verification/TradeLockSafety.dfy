/** When the trade lock excludes, when it does not, and that nobody is stuck. */
module TradeLockSafety {
  import opened TradeLock

  ghost predicate HoldsFor(s: State, r: Req, user: UserId) {
    Holds(s, r) && Of(s, r, user)
  }

  ghost predicate WaitsFor(s: State, r: Req, user: UserId) {
    Waits(s, r) && Of(s, r, user)
  }

  /** At most one request of the user is in the locked section. */
  ghost predicate Exclusive(s: State, user: UserId) {
    forall h, k :: HoldsFor(s, h, user) && HoldsFor(s, k, user) ==> h == k
  }

  ghost predicate OneWaiter(s: State, user: UserId) {
    forall v, w :: WaitsFor(s, v, user) && WaitsFor(s, w, user) ==> v == w
  }

  ghost predicate WaitsForHolder(s: State, user: UserId) {
    forall h, w :: HoldsFor(s, h, user) && WaitsFor(s, w, user) ==> s.phase[w].lock == h
  }

  /** One holder at most, one waiter at most, and the waiter waits for that holder. */
  ghost predicate Safe(s: State, user: UserId) {
    Exclusive(s, user) && OneWaiter(s, user) && WaitsForHolder(s, user)
  }

  /** The holder is the one the lock map names. */
  ghost predicate Guarded(s: State, user: UserId) {
    forall h :: HoldsFor(s, h, user) ==> user in s.userLocks && s.userLocks[user] == h
  }

  ghost predicate Orderly(s: State, user: UserId) {
    Safe(s, user) && Guarded(s, user)
  }

  /** The answer is cached, or nobody is waiting for this user's lock. */
  ghost predicate Polite(s: State, e: Event) {
    e.Submit? ==> Live(s, e.request.key) || forall w :: !WaitsFor(s, w, e.request.user)
  }

  // ---------------------------------------------------------------- preservation

  /** Nobody of this user came in or queued up between `s` and `t`. */
  ghost predicate NoNewcomers(s: State, t: State, user: UserId) {
    && (forall r :: HoldsFor(t, r, user) ==> HoldsFor(s, r, user))
    && (forall r :: WaitsFor(t, r, user) ==> WaitsFor(s, r, user) && t.phase[r] == s.phase[r])
  }

  lemma NoNewcomersKeepSafe(s: State, t: State, user: UserId)
    requires NoNewcomers(s, t, user) && Safe(s, user)
    ensures Safe(t, user)
  {
    hide HoldsFor, WaitsFor;
  }

  lemma AdvanceKeepsSafe(s: State, e: Event, user: UserId)
    requires Inv(s) && Safe(s, user) && Enabled(s, e) && !e.Submit? && !e.Resume?
    ensures Safe(Apply(s, e), user)
  {
    hide LocksHeld, WaitsOnEntered, TradesDistinct, TradePhases, CacheCovers, Safe;
    assert NoNewcomers(s, Apply(s, e), user);
    NoNewcomersKeepSafe(s, Apply(s, e), user);
  }

  /** A waiter whose lock is released finds nobody inside. */
  lemma NobodyInside(s: State, r: Req, user: UserId, h: Req)
    requires Safe(s, user) && WaitsFor(s, r, user) && IsDone(s, s.phase[r].lock)
    ensures !HoldsFor(s, h, user)
  {
  }

  lemma ResumeKeepsSafe(s: State, r: Req, user: UserId)
    requires Inv(s) && Safe(s, user) && Enabled(s, Resume(r))
    ensures Safe(Apply(s, Resume(r)), user)
  {
    hide LocksHeld, WaitsOnEntered, TradesDistinct, TradePhases, CacheCovers, Live;
    var t := Apply(s, Resume(r));
    ResumeEnters(s, r);
    if Of(s, r, user) {
      assert WaitsFor(s, r, user);
      forall h ensures HoldsFor(t, h, user) ==> h == r {
        NobodyInside(s, r, user, h);
      }
      forall w ensures !WaitsFor(t, w, user) {
        assert WaitsFor(t, w, user) ==> WaitsFor(s, w, user);
      }
    } else {
      hide Safe;
      assert NoNewcomers(s, t, user);
      NoNewcomersKeepSafe(s, t, user);
    }
  }

  /** Requests that are already in can go on in any order without meeting. */
  lemma ProgressKeepsSafe(s: State, e: Event, user: UserId)
    requires Inv(s) && Safe(s, user) && Enabled(s, e) && !e.Submit?
    ensures Safe(Apply(s, e), user)
  {
    hide Inv, Safe;
    match e
    case Resume(r) => ResumeKeepsSafe(s, r, user);
    case _ => AdvanceKeepsSafe(s, e, user);
  }

  lemma ResumeKeepsGuarded(s: State, r: Req, user: UserId)
    requires Inv(s) && Orderly(s, user) && Enabled(s, Resume(r))
    ensures Guarded(Apply(s, Resume(r)), user)
  {
    hide LocksHeld, WaitsOnEntered, TradesDistinct, TradePhases, CacheCovers, Live;
    var t := Apply(s, Resume(r));
    forall h | HoldsFor(t, h, user) ensures user in t.userLocks && t.userLocks[user] == h {
      if Of(s, r, user) {
        NobodyInside(s, r, user, h);
      } else {
        assert HoldsFor(s, h, user);
      }
    }
  }

  lemma AdvanceKeepsGuarded(s: State, e: Event, user: UserId)
    requires Inv(s) && Orderly(s, user) && Enabled(s, e) && !e.Submit? && !e.Resume?
    ensures Guarded(Apply(s, e), user)
  {
    hide LocksHeld, WaitsOnEntered, TradesDistinct, TradePhases, CacheCovers, Live;
    var t := Apply(s, e);
    forall h | HoldsFor(t, h, user) ensures user in t.userLocks && t.userLocks[user] == h {
      assert HoldsFor(s, h, user);
    }
  }

  lemma OtherUserUntouched(s: State, r: Req, request: Request, user: UserId)
    requires Inv(s) && r !in s.phase && request.user != user && Orderly(s, user)
    ensures Orderly(SubmitStep(s, r, request), user)
  {
    hide LocksHeld, WaitsOnEntered, TradesDistinct, TradePhases, CacheCovers, Live, Safe, SubmitStep;
    var t := SubmitStep(s, r, request);
    SubmitTouches(s, r, request);
    assert NoNewcomers(s, t, user);
    NoNewcomersKeepSafe(s, t, user);
    forall h | HoldsFor(t, h, user) ensures user in t.userLocks && t.userLocks[user] == h {
      assert HoldsFor(s, h, user);
    }
  }

  /** A submission concerns its own request and its own user's lock. */
  lemma SubmitTouches(s: State, r: Req, request: Request)
    requires r !in s.phase
    ensures var t := SubmitStep(s, r, request);
      && t.requests == s.requests[r := request]
      && r in t.phase && t.phase == s.phase[r := t.phase[r]]
      && (t.userLocks == s.userLocks || t.userLocks == s.userLocks[request.user := r])
  {
    hide Live, Enter, Holds;
    var t := SubmitStep(s, r, request);
    if Live(s, request.key) {
      assert t.userLocks == s.userLocks;
    } else if request.user in s.userLocks {
      assert t.userLocks == s.userLocks;
    } else {
      EnterTouches(Registered(s, r, request), r, request);
      assert t == Enter(Registered(s, r, request), r, request);
    }
  }

  /** The state in which a request that finds no cached answer is handed to the lock. */
  ghost function Registered(s: State, r: Req, request: Request): State {
    s.(requests := s.requests[r := request], cache := s.cache - {request.key})
  }

  lemma CachedSubmitKeepsOrderly(s: State, r: Req, request: Request)
    requires Inv(s) && r !in s.phase && Live(s, request.key)
    ensures var t := SubmitStep(s, r, request);
      && NoNewcomers(s, t, request.user)
      && (Guarded(s, request.user) ==> Guarded(t, request.user))
  {
    hide LocksHeld, WaitsOnEntered, TradesDistinct, TradePhases, CacheCovers;
    var t := SubmitStep(s, r, request);
    forall h ensures HoldsFor(t, h, request.user) ==> HoldsFor(s, h, request.user) {
    }
  }

  lemma FirstInLineKeepsOrderly(s: State, r: Req, request: Request)
    requires Inv(s) && r !in s.phase && Orderly(s, request.user) && !Live(s, request.key)
    requires forall w :: !WaitsFor(s, w, request.user)
    ensures Orderly(SubmitStep(s, r, request), request.user)
  {
    hide WaitsOnEntered, TradesDistinct, TradePhases, CacheCovers, Enter, Live;
    var user, t := request.user, SubmitStep(s, r, request);
    EnterTouches(Registered(s, r, request), r, request);
    forall w ensures WaitsFor(t, w, user) ==> w == r {
      assert !WaitsFor(s, w, user);
    }
    forall h ensures HoldsFor(t, h, user) ==> HoldsFor(s, h, user) || h == r {
    }
    if user in s.userLocks {
      forall h ensures HoldsFor(t, h, user) ==> HoldsFor(s, h, user) {
      }
    } else {
      forall h ensures HoldsFor(t, h, user) ==> h == r {
        assert !HoldsFor(s, h, user);
      }
    }
  }

  lemma SecondInLineBreaksSafe(s: State, r: Req, request: Request, w: Req)
    requires Inv(s) && r !in s.phase && !Live(s, request.key)
    requires WaitsFor(s, w, request.user)
    ensures !Safe(SubmitStep(s, r, request), request.user)
  {
    hide LocksHeld, TradesDistinct, TradePhases, CacheCovers, Enter, Live, Exclusive;
    var t := SubmitStep(s, r, request);
    EnterTouches(Registered(s, r, request), r, request);
    assert WaitsFor(t, w, request.user) && t.phase[w] == s.phase[w];
    if request.user in s.userLocks {
      assert WaitsFor(t, r, request.user);
    } else {
      assert HoldsFor(t, r, request.user);
      assert s.phase[w].lock in s.phase;
    }
  }

  /** A holder that the lock map no longer names is walked in on. */
  lemma UnguardedBreaksSafe(s: State, r: Req, request: Request, h: Req)
    requires Inv(s) && r !in s.phase && !Live(s, request.key) && Safe(s, request.user)
    requires HoldsFor(s, h, request.user)
    requires request.user in s.userLocks ==> s.userLocks[request.user] != h
    ensures !Safe(SubmitStep(s, r, request), request.user)
  {
    hide WaitsOnEntered, TradesDistinct, TradePhases, CacheCovers, Enter, Live, OneWaiter, WaitsForHolder;
    var user, t := request.user, SubmitStep(s, r, request);
    EnterTouches(Registered(s, r, request), r, request);
    assert user in s.userLocks ==> HoldsFor(s, s.userLocks[user], user);
    assert HoldsFor(t, h, user) && HoldsFor(t, r, user);
  }

  /** Submitting never brings a user's requests apart again. */
  lemma SubmitRepairsNothing(s: State, r: Req, request: Request, user: UserId)
    requires Inv(s) && r !in s.phase && Safe(SubmitStep(s, r, request), user)
    ensures Safe(s, user)
  {
    hide LocksHeld, WaitsOnEntered, TradesDistinct, TradePhases, CacheCovers, Live, Safe, SubmitStep;
    var t := SubmitStep(s, r, request);
    SubmitTouches(s, r, request);
    assert NoNewcomers(t, s, user);
    NoNewcomersKeepSafe(t, s, user);
  }

  /** What a submission needs: a cached answer, or nobody waiting and every holder in the map. */
  ghost predicate Welcome(s: State, request: Request) {
    Live(s, request.key) || ((forall w :: !WaitsFor(s, w, request.user)) && Guarded(s, request.user))
  }

  /** In every state that keeps the invariant: after a submission the user is safe exactly
      when it was safe before and the submission was welcome. */
  lemma SubmitSafeExact(s: State, r: Req, request: Request)
    requires Inv(s) && r !in s.phase
    ensures Safe(SubmitStep(s, r, request), request.user) <==> Safe(s, request.user) && Welcome(s, request)
  {
    hide Inv, Safe, SubmitStep, Live, WaitsFor, HoldsFor;
    if !Safe(s, request.user) {
      assert Safe(SubmitStep(s, r, request), request.user) ==> Safe(s, request.user) by {
        if Safe(SubmitStep(s, r, request), request.user) {
          SubmitRepairsNothing(s, r, request, request.user);
        }
      }
    } else if Live(s, request.key) {
      CachedSubmitKeepsOrderly(s, r, request);
      NoNewcomersKeepSafe(s, SubmitStep(s, r, request), request.user);
    } else if w :| WaitsFor(s, w, request.user) {
      SecondInLineBreaksSafe(s, r, request, w);
    } else if Guarded(s, request.user) {
      FirstInLineKeepsOrderly(s, r, request);
    } else {
      var h :| HoldsFor(s, h, request.user)
        && (request.user in s.userLocks ==> s.userLocks[request.user] != h);
      UnguardedBreaksSafe(s, r, request, h);
    }
  }

  /** In an orderly state a new request keeps order exactly when it is polite, and an
      impolite one always leaves an unsafe state behind. */
  lemma SubmitExact(s: State, r: Req, request: Request)
    requires Inv(s) && r !in s.phase && Orderly(s, request.user)
    ensures Polite(s, Submit(r, request)) <==> Orderly(SubmitStep(s, r, request), request.user)
    ensures Polite(s, Submit(r, request)) <==> Safe(SubmitStep(s, r, request), request.user)
  {
    hide Inv, Safe, Guarded, SubmitStep, Live, WaitsFor;
    SubmitSafeExact(s, r, request);
    if Live(s, request.key) {
      CachedSubmitKeepsOrderly(s, r, request);
    } else if Polite(s, Submit(r, request)) {
      FirstInLineKeepsOrderly(s, r, request);
    }
  }

  lemma PoliteStepKeepsOrderly(s: State, e: Event, user: UserId)
    requires Inv(s) && Orderly(s, user) && Enabled(s, e) && Polite(s, e)
    ensures Orderly(Apply(s, e), user)
  {
    hide Inv, Safe, Guarded, SubmitStep, Polite;
    match e
    case Submit(r, request) =>
      if request.user == user {
        SubmitExact(s, r, request);
      } else {
        OtherUserUntouched(s, r, request, user);
      }
    case Resume(r) =>
      ResumeKeepsSafe(s, r, user);
      ResumeKeepsGuarded(s, r, user);
    case _ =>
      AdvanceKeepsSafe(s, e, user);
      AdvanceKeepsGuarded(s, e, user);
  }

  /** Every submission of the run was polite when it was made. */
  ghost predicate PoliteRun(s: State, es: seq<Event>)
    requires IsRun(s, es)
    decreases |es|
  {
    es == [] || (Polite(s, es[0]) && PoliteRun(Apply(s, es[0]), es[1..]))
  }

  lemma {:induction false} PoliteRunKeepsOrderly(s: State, es: seq<Event>, user: UserId)
    requires Inv(s) && Orderly(s, user) && IsRun(s, es) && PoliteRun(s, es)
    ensures Orderly(After(s, es), user)
    decreases |es|
  {
    hide Inv, Orderly, Polite, Enabled, Apply;
    if es != [] {
      PoliteStepKeepsOrderly(s, es[0], user);
      StepKeepsInv(s, es[0]);
      PoliteRunKeepsOrderly(Apply(s, es[0]), es[1..], user);
    }
  }

  /** In every polite run at most one request per user is in the locked section. */
  lemma PoliteRunsExclude(now: int, es: seq<Event>, user: UserId)
    requires IsRun(Init(now), es) && PoliteRun(Init(now), es)
    ensures Exclusive(After(Init(now), es), user)
  {
    PoliteRunKeepsOrderly(Init(now), es, user);
  }

  // ---------------------------------------------------------------- progress

  ghost predicate NoSubmit(es: seq<Event>) {
    forall i :: 0 <= i < |es| ==> !es[i].Submit?
  }

  /** Steps of the holder `h` alone that bring it to its end. */
  ghost function FinishingSteps(s: State, h: Req): (es: seq<Event>)
    requires Holds(s, h)
    ensures |es| <= 3 && NoSubmit(es)
  {
    match s.phase[h]
    case Trading(_) => [TradeReturns(h), CacheResult(h), Release(h)]
    case Traded(_) => [CacheResult(h), Release(h)]
    case _ => [Release(h)]
  }

  /** Only `h` moved, and it is done. */
  ghost predicate OnlyFinished(s: State, t: State, h: Req) {
    && t.requests == s.requests
    && IsDone(t, h)
    && t.phase.Keys == s.phase.Keys
    && (forall r :: r in s.phase && r != h ==> t.phase[r] == s.phase[r])
  }

  lemma ReleaseFinishes(s: State, h: Req)
    requires h in s.requests && h in s.phase && s.phase[h].Finishing?
    ensures IsRun(s, [Release(h)]) && OnlyFinished(s, After(s, [Release(h)]), h)
  {
    OneStep(s, Release(h));
  }

  lemma ThenFinishes(s: State, e: Event, es: seq<Event>, h: Req)
    requires Enabled(s, e) && IsRun(Apply(s, e), es) && OnlyFinished(Apply(s, e), After(Apply(s, e), es), h)
    requires Apply(s, e).requests == s.requests && Apply(s, e).phase.Keys == s.phase.Keys
    requires forall r :: r in s.phase && r != h ==> Apply(s, e).phase[r] == s.phase[r]
    ensures IsRun(s, [e] + es) && OnlyFinished(s, After(s, [e] + es), h)
  {
    hide Enabled, Apply;
    assert ([e] + es)[1..] == es;
  }

  lemma CacheThenRelease(s: State, h: Req)
    requires h in s.requests && h in s.phase && s.phase[h].Traded?
    ensures IsRun(s, [CacheResult(h), Release(h)]) && OnlyFinished(s, After(s, [CacheResult(h), Release(h)]), h)
  {
    hide IsRun, After;
    var t := Apply(s, CacheResult(h));
    ReleaseFinishes(t, h);
    ThenFinishes(s, CacheResult(h), [Release(h)], h);
    assert [CacheResult(h)] + [Release(h)] == [CacheResult(h), Release(h)];
  }

  lemma TradeThenRelease(s: State, h: Req)
    requires h in s.requests && h in s.phase && s.phase[h].Trading?
    ensures IsRun(s, [TradeReturns(h), CacheResult(h), Release(h)])
    ensures OnlyFinished(s, After(s, [TradeReturns(h), CacheResult(h), Release(h)]), h)
  {
    hide IsRun, After;
    var t := Apply(s, TradeReturns(h));
    CacheThenRelease(t, h);
    ThenFinishes(s, TradeReturns(h), [CacheResult(h), Release(h)], h);
    assert [TradeReturns(h)] + [CacheResult(h), Release(h)] == [TradeReturns(h), CacheResult(h), Release(h)];
  }

  /** A request in the locked section can always run to its end. */
  lemma HolderFinishes(s: State, h: Req)
    requires Holds(s, h) && h in s.requests
    ensures IsRun(s, FinishingSteps(s, h)) && OnlyFinished(s, After(s, FinishingSteps(s, h)), h)
  {
    hide IsRun, After, OnlyFinished;
    match s.phase[h]
    case Trading(_) => TradeThenRelease(s, h);
    case Traded(_) => CacheThenRelease(s, h);
    case _ => ReleaseFinishes(s, h);
  }

  lemma ResumeEnters(s: State, r: Req)
    requires Enabled(s, Resume(r))
    ensures var t := Apply(s, Resume(r));
      && Holds(t, r) && t.requests == s.requests && t.phase.Keys == s.phase.Keys
      && (forall q :: q in s.phase && q != r ==> t.phase[q] == s.phase[q])
  {
  }

  /** Whatever has happened, every request can finish, within seven steps and without new requests. */
  lemma EveryRequestCanFinish(s: State, r: Req) returns (es: seq<Event>)
    requires Inv(s) && r in s.phase
    ensures IsRun(s, es) && NoSubmit(es) && |es| <= 7
    ensures IsDone(After(s, es), r)
  {
    hide IsRun, After, TradesDistinct, TradePhases, CacheCovers, FinishingSteps;
    if s.phase[r].Done? {
      es := [];
      EmptyRun(s);
    } else if Holds(s, r) {
      es := FinishingSteps(s, r);
      HolderFinishes(s, r);
    } else {
      assert Waits(s, r);
      var lock := s.phase[r].lock;
      if IsDone(s, lock) {
        es := WaiterFinishes(s, r);
      } else {
        HolderFinishes(s, lock);
        var first := FinishingSteps(s, lock);
        var rest := WaiterFinishes(After(s, first), r);
        RunAppend(s, first, rest);
        es := first + rest;
      }
    }
  }

  lemma EmptyRun(s: State)
    ensures IsRun(s, []) && After(s, []) == s
  {
  }

  lemma WaiterFinishes(s: State, r: Req) returns (es: seq<Event>)
    requires Enabled(s, Resume(r))
    ensures IsRun(s, es) && NoSubmit(es) && |es| <= 4
    ensures IsDone(After(s, es), r)
  {
    hide IsRun, After, Apply, FinishingSteps;
    ResumeEnters(s, r);
    OneStep(s, Resume(r));
    var t := Apply(s, Resume(r));
    HolderFinishes(t, r);
    var rest := FinishingSteps(t, r);
    RunAppend(s, [Resume(r)], rest);
    es := [Resume(r)] + rest;
  }

  // ---------------------------------------------------------------- exactness

  /** No continuation by the requests already in brings two of the user's together. */
  ghost predicate NeverOverlaps(s: State, user: UserId) {
    forall es :: IsRun(s, es) && NoSubmit(es) ==> Exclusive(After(s, es), user)
  }

  lemma {:induction false} SafeNeverOverlaps(s: State, es: seq<Event>, user: UserId)
    requires Inv(s) && Safe(s, user) && IsRun(s, es) && NoSubmit(es)
    ensures Exclusive(After(s, es), user)
    decreases |es|
  {
    hide Inv, Exclusive, OneWaiter, WaitsForHolder, Enabled, Apply;
    if es != [] {
      ProgressKeepsSafe(s, es[0], user);
      StepKeepsInv(s, es[0]);
      SafeNeverOverlaps(Apply(s, es[0]), es[1..], user);
    }
  }

  /** A waiter whose lock is already released walks in on whoever holds. */
  lemma WalkIn(s: State, h: Req, w: Req, user: UserId)
    requires HoldsFor(s, h, user) && WaitsFor(s, w, user) && IsDone(s, s.phase[w].lock)
    ensures IsRun(s, [Resume(w)]) && !Exclusive(After(s, [Resume(w)]), user)
  {
    OneStep(s, Resume(w));
    ResumeEnters(s, w);
    var t := Apply(s, Resume(w));
    assert HoldsFor(t, h, user) && HoldsFor(t, w, user);
  }

  /** Two waiters whose locks are released enter one after the other. */
  lemma BothWalkIn(s: State, v: Req, w: Req, user: UserId)
    requires WaitsFor(s, v, user) && WaitsFor(s, w, user) && v != w
    requires IsDone(s, s.phase[v].lock) && IsDone(s, s.phase[w].lock)
    ensures IsRun(s, [Resume(v), Resume(w)]) && !Exclusive(After(s, [Resume(v), Resume(w)]), user)
  {
    hide IsRun, After, Exclusive, Apply;
    OneStep(s, Resume(v));
    ResumeEnters(s, v);
    var t := Apply(s, Resume(v));
    WalkIn(t, v, w, user);
    RunAppend(s, [Resume(v)], [Resume(w)]);
    assert [Resume(v)] + [Resume(w)] == [Resume(v), Resume(w)];
  }

  /** With the holder finished, everything two waiters wait for is released. */
  lemma TwoWaitersOverlap(s: State, v: Req, w: Req, user: UserId) returns (es: seq<Event>)
    requires Inv(s) && Exclusive(s, user)
    requires WaitsFor(s, v, user) && WaitsFor(s, w, user) && v != w
    ensures IsRun(s, es) && NoSubmit(es) && !Exclusive(After(s, es), user)
  {
    hide IsRun, After, TradesDistinct, TradePhases, CacheCovers, LocksHeld, FinishingSteps;
    if h :| HoldsFor(s, h, user) {
      HolderFinishes(s, h);
      var first := FinishingSteps(s, h);
      var t := After(s, first);
      forall r | WaitsFor(s, r, user) ensures IsDone(t, s.phase[r].lock) {
        assert HoldsFor(s, s.phase[r].lock, user) ==> s.phase[r].lock == h;
      }
      BothWalkIn(t, v, w, user);
      RunAppend(s, first, [Resume(v), Resume(w)]);
      es := first + [Resume(v), Resume(w)];
    } else {
      forall r | WaitsFor(s, r, user) ensures IsDone(s, s.phase[r].lock) {
        assert !HoldsFor(s, s.phase[r].lock, user);
      }
      BothWalkIn(s, v, w, user);
      es := [Resume(v), Resume(w)];
    }
  }

  lemma UnsafeOverlaps(s: State, user: UserId) returns (es: seq<Event>)
    requires Inv(s) && !Safe(s, user)
    ensures IsRun(s, es) && NoSubmit(es) && !Exclusive(After(s, es), user)
  {
    hide IsRun, After, TradesDistinct, TradePhases, CacheCovers, LocksHeld;
    if !Exclusive(s, user) {
      es := [];
      EmptyRun(s);
    } else if !OneWaiter(s, user) {
      var v, w :| WaitsFor(s, v, user) && WaitsFor(s, w, user) && v != w;
      es := TwoWaitersOverlap(s, v, w, user);
    } else {
      var h, w :| HoldsFor(s, h, user) && WaitsFor(s, w, user) && s.phase[w].lock != h;
      assert !HoldsFor(s, s.phase[w].lock, user);
      WalkIn(s, h, w, user);
      es := [Resume(w)];
    }
  }

  /** In every reachable state, `Safe` is exactly the promise that the requests already
      in can never meet in the locked section, whatever the interleaving. */
  lemma SafeExact(s: State, user: UserId)
    requires Inv(s)
    ensures Safe(s, user) <==> NeverOverlaps(s, user)
  {
    hide Inv, Safe, Exclusive, IsRun, After;
    if Safe(s, user) {
      forall es | IsRun(s, es) && NoSubmit(es) ensures Exclusive(After(s, es), user) {
        SafeNeverOverlaps(s, es, user);
      }
    } else {
      var es := UnsafeOverlaps(s, user);
    }
  }

  // ---------------------------------------------------------------- idempotency

  ghost predicate SameKey(s: State, r: Req, q: Req) {
    r in s.requests && q in s.requests && s.requests[r] == s.requests[q]
  }

  /** Of two trades for one user and key, the later began only after the cached result
      of the earlier had expired. */
  ghost predicate Spaced(s: State) {
    forall r, q :: r in s.started && q in s.started && SameKey(s, r, q) && s.started[r].counter < s.started[q].counter
      ==> r in s.cachedUntil && s.cachedUntil[r] <= s.started[q].at
  }

  /** With nobody inside and no live entry, an earlier trade for the key has expired. */
  lemma EarlierExpired(s: State, request: Request, a: Req)
    requires TradePhases(s) && CacheCovers(s)
    requires !Live(s, request.key) && !HoldsFor(s, a, request.user)
    requires a in s.started && a in s.requests && s.requests[a] == request
    ensures a in s.cachedUntil && s.cachedUntil[a] <= s.now
  {
  }

  /** Entering alone and finding no live entry means every earlier trade has expired. */
  lemma EnterKeepsSpaced(s: State, r: Req, request: Request)
    requires AtDoor(s, r, request) && Spaced(s)
    requires TradesDistinct(s) && TradePhases(s) && CacheCovers(s)
    requires forall h :: !HoldsFor(s, h, request.user)
    ensures Spaced(Enter(s, r, request))
  {
    hide TradePhases, CacheCovers, HoldsFor, Holds, Live;
    var t := Enter(s, r, request);
    forall a, b | a in t.started && b in t.started && SameKey(t, a, b) && t.started[a].counter < t.started[b].counter
      ensures a in t.cachedUntil && t.cachedUntil[a] <= t.started[b].at
    {
      if b == r && !Live(s, request.key) {
        EarlierExpired(s, request, a);
      } else {
        assert SameKey(s, a, b);
      }
    }
  }

  lemma SubmitKeepsSpaced(s: State, r: Req, request: Request)
    requires Inv(s) && Orderly(s, request.user) && r !in s.phase && Polite(s, Submit(r, request)) && Spaced(s)
    ensures Spaced(SubmitStep(s, r, request))
  {
    hide LocksHeld, WaitsOnEntered, TradesDistinct, CacheCovers, Safe, Spaced;
    if Live(s, request.key) || request.user in s.userLocks {
      SpacedFrame(s, SubmitStep(s, r, request));
    } else {
      RegisterKeeps(s, r, request);
      var s2 := s.(requests := s.requests[r := request], cache := s.cache - {request.key});
      SpacedFrame(s, s2);
      forall h ensures !HoldsFor(s2, h, request.user) {
        assert !HoldsFor(s, h, request.user);
      }
      EnterKeepsSpaced(s2, r, request);
    }
  }

  lemma SpacedFrame(s: State, t: State)
    requires Spaced(s) && t.started == s.started && t.cachedUntil == s.cachedUntil
    requires forall q :: q in s.started ==> q in s.requests && q in t.requests && t.requests[q] == s.requests[q]
    ensures Spaced(t)
  {
    forall r, q | r in t.started && q in t.started && SameKey(t, r, q) && t.started[r].counter < t.started[q].counter
      ensures r in t.cachedUntil && t.cachedUntil[r] <= t.started[q].at
    {
      assert SameKey(s, r, q);
    }
  }

  lemma ResumeKeepsSpaced(s: State, r: Req)
    requires Inv(s) && Enabled(s, Resume(r)) && Orderly(s, s.requests[r].user) && Spaced(s)
    ensures Spaced(Apply(s, Resume(r)))
  {
    hide LocksHeld, WaitsOnEntered, TradesDistinct, CacheCovers, Spaced, Live;
    var user := s.requests[r].user;
    forall h ensures !HoldsFor(s, h, user) {
      assert WaitsFor(s, r, user);
    }
    EnterKeepsSpaced(s, r, s.requests[r]);
  }

  lemma OtherStepsKeepSpaced(s: State, e: Event)
    requires Inv(s) && Enabled(s, e) && Spaced(s) && !e.Submit? && !e.Resume?
    ensures Spaced(Apply(s, e))
  {
    hide LocksHeld, WaitsOnEntered, CacheCovers, Live;
    var t := Apply(s, e);
    forall r, q | r in t.started && q in t.started && SameKey(t, r, q) && t.started[r].counter < t.started[q].counter
      ensures r in t.cachedUntil && t.cachedUntil[r] <= t.started[q].at
    {
      assert SameKey(s, r, q);
    }
  }

  lemma {:induction false} PoliteRunKeepsSpaced(s: State, es: seq<Event>)
    requires Inv(s) && IsRun(s, es) && PoliteRun(s, es) && Spaced(s)
    requires forall user :: Orderly(s, user)
    ensures Spaced(After(s, es))
    decreases |es|
  {
    hide Inv, Orderly, Polite, Spaced;
    if es != [] {
      var e := es[0];
      match e {
        case Submit(r, request) => SubmitKeepsSpaced(s, r, request);
        case Resume(r) => ResumeKeepsSpaced(s, r);
        case _ => OtherStepsKeepSpaced(s, e);
      }
      StepKeepsInv(s, e);
      forall user ensures Orderly(Apply(s, e), user) {
        PoliteStepKeepsOrderly(s, e, user);
      }
      PoliteRunKeepsSpaced(Apply(s, e), es[1..]);
    }
  }

  /** In every polite run a user's idempotency key is traded at most once while the
      cached result of its last trade lives: two trades of one user and key begin at
      least 24 hours apart. */
  lemma PoliteRunsTradeOnce(now: int, es: seq<Event>, r: Req, q: Req)
    requires IsRun(Init(now), es) && PoliteRun(Init(now), es)
    ensures var s := After(Init(now), es);
      && Spaced(s)
      && (r in s.started && q in s.started && SameKey(s, r, q) && s.started[r].counter < s.started[q].counter ==>
            s.started[r].at + 86400000 <= s.cachedUntil[r] <= s.started[q].at)
  {
    hide IsRun, After, PoliteRun;
    PoliteRunKeepsSpaced(Init(now), es);
    EveryRunKeepsInv(now, es);
  }

  // ---------------------------------------------------------------- the run that overlaps

  /** Three requests of one user, two of which wait on the lock of the first. */
  ghost function OverlapRun(user: UserId, first: IdempotencyKey, key: IdempotencyKey, last: IdempotencyKey)
    : seq<Event>
  {
    [Submit(0, Request(user, first)), Submit(1, Request(user, key)), Submit(2, Request(user, last)), TradeReturns(0)]
    + [CacheResult(0), Release(0), Resume(1), Resume(2)]
  }

  ghost predicate Queued(s: State, user: UserId, first: IdempotencyKey, key: IdempotencyKey, last: IdempotencyKey) {
    && s.cache == map[] && s.tradeCounter == 1
    && s.requests == map[0 := Request(user, first), 1 := Request(user, key), 2 := Request(user, last)]
    && s.started.Keys == {0} && s.cachedUntil == map[]
    && s.phase == map[0 := Traded(s.started[0]), 1 := Waiting(0), 2 := Waiting(0)]
    && s.userLocks == map[user := 0]
  }

  lemma TwoQueueUp(now: int, user: UserId, first: IdempotencyKey, key: IdempotencyKey, last: IdempotencyKey)
    returns (s: State)
    ensures var es := [Submit(0, Request(user, first)), Submit(1, Request(user, key)), Submit(2, Request(user, last)),
                       TradeReturns(0)];
      IsRun(Init(now), es) && After(Init(now), es) == s
    ensures Queued(s, user, first, key, last)
  {
    hide IsRun, After;
    var es := [Submit(0, Request(user, first)), Submit(1, Request(user, key)), Submit(2, Request(user, last)),
               TradeReturns(0)];
    var s1 := Apply(Init(now), es[0]);
    var s2 := Apply(s1, es[1]);
    var s3 := Apply(s2, es[2]);
    s := Apply(s3, es[3]);
    FourSteps(Init(now), es);
  }

  /** Both waiters are in; the second one trades too, unless it asks for the first request's key. */
  ghost predicate BothIn(s: State, user: UserId, first: IdempotencyKey, key: IdempotencyKey, last: IdempotencyKey) {
    && HoldsFor(s, 1, user) && HoldsFor(s, 2, user) && s.phase[1].Trading?
    && (if last == first then s.phase[2].Finishing? else s.phase[2].Trading?)
    && s.requests == map[0 := Request(user, first), 1 := Request(user, key), 2 := Request(user, last)]
    && s.phase.Keys == {0, 1, 2} && IsDone(s, 0)
    && s.userLocks == map[user := 2] && s.cache.Keys == {first}
    && 1 in s.started && 1 !in s.cachedUntil
    && (last != first ==> 2 in s.started && s.started[1].counter < s.started[2].counter)
  }

  lemma BothEnter(s: State, user: UserId, first: IdempotencyKey, key: IdempotencyKey, last: IdempotencyKey)
    returns (t: State)
    requires Queued(s, user, first, key, last) && first != key
    ensures var es := [CacheResult(0), Release(0), Resume(1), Resume(2)];
      IsRun(s, es) && After(s, es) == t
    ensures BothIn(t, user, first, key, last)
  {
    hide IsRun, After;
    var es := [CacheResult(0), Release(0), Resume(1), Resume(2)];
    var s1 := Apply(s, es[0]);
    var s2 := Apply(s1, es[1]);
    var s3 := Apply(s2, es[2]);
    t := Apply(s3, es[3]);
    FourSteps(s, es);
  }

  lemma OverlapRunEnds(now: int, user: UserId, first: IdempotencyKey, key: IdempotencyKey, last: IdempotencyKey)
    requires first != key
    ensures IsRun(Init(now), OverlapRun(user, first, key, last))
    ensures BothIn(After(Init(now), OverlapRun(user, first, key, last)), user, first, key, last)
  {
    hide IsRun, After, BothIn, Queued;
    var s4 := TwoQueueUp(now, user, first, key, last);
    var s8 := BothEnter(s4, user, first, key, last);
    RunAppend(Init(now),
      [Submit(0, Request(user, first)), Submit(1, Request(user, key)), Submit(2, Request(user, last)), TradeReturns(0)],
      [CacheResult(0), Release(0), Resume(1), Resume(2)]);
  }

  /** Both waiters of the first lock enter, and one key is traded twice at once. */
  lemma ImpoliteRunOverlaps(now: int, user: UserId, first: IdempotencyKey, key: IdempotencyKey)
    requires first != key
    ensures IsRun(Init(now), OverlapRun(user, first, key, key))
    ensures var s := After(Init(now), OverlapRun(user, first, key, key));
      && BothIn(s, user, first, key, key)
      && HoldsFor(s, 1, user) && HoldsFor(s, 2, user)
      && s.phase[1].Trading? && s.phase[2].Trading?
      && s.requests[1] == s.requests[2]
      && !Exclusive(s, user) && !Spaced(s)
  {
    hide IsRun, After, OverlapRun;
    OverlapRunEnds(now, user, first, key, key);
    var s8 := After(Init(now), OverlapRun(user, first, key, key));
    assert SameKey(s8, 1, 2);
  }

  /** The second waiter has left, and its release emptied the lock map while the first one trades. */
  ghost predicate Unnamed(s: State, user: UserId, first: IdempotencyKey, key: IdempotencyKey) {
    && HoldsFor(s, 1, user) && s.userLocks == map[]
    && s.requests == map[0 := Request(user, first), 1 := Request(user, key), 2 := Request(user, first)]
    && s.phase.Keys == {0, 1, 2} && IsDone(s, 0) && IsDone(s, 2)
    && s.cache.Keys == {first}
  }

  lemma SecondLeaves(s: State, user: UserId, first: IdempotencyKey, key: IdempotencyKey)
    requires BothIn(s, user, first, key, first)
    ensures IsRun(s, [Release(2)]) && Unnamed(After(s, [Release(2)]), user, first, key)
  {
    hide IsRun, After;
    OneStep(s, Release(2));
  }

  /** Being polite is not enough once the lock map has lost a holder: the second waiter asks for
      the first request's key and leaves with the cached answer.  The state is safe, nobody waits,
      and yet a request for a third key trades beside the holder. */
  lemma PoliteSubmissionOverlaps(
    now: int, user: UserId, first: IdempotencyKey, key: IdempotencyKey, third: IdempotencyKey)
    requires first != key && third != first
    ensures var es := OverlapRun(user, first, key, first) + [Release(2)];
      && IsRun(Init(now), es)
      && var s, e := After(Init(now), es), Submit(3, Request(user, third));
      && Enabled(s, e) && Safe(s, user) && Polite(s, e) && (forall w :: !WaitsFor(s, w, user))
      && !Guarded(s, user)
      && HoldsFor(Apply(s, e), 1, user) && HoldsFor(Apply(s, e), 3, user) && !Exclusive(Apply(s, e), user)
  {
    hide IsRun, After, Live, OverlapRun;
    OverlapRunEnds(now, user, first, key, first);
    var s8 := After(Init(now), OverlapRun(user, first, key, first));
    SecondLeaves(s8, user, first, key);
    RunAppend(Init(now), OverlapRun(user, first, key, first), [Release(2)]);
    ThirdWalksIn(After(s8, [Release(2)]), user, first, key, third);
  }

  lemma ThirdWalksIn(s: State, user: UserId, first: IdempotencyKey, key: IdempotencyKey, third: IdempotencyKey)
    requires Unnamed(s, user, first, key) && third != first
    ensures var e := Submit(3, Request(user, third));
      && Enabled(s, e) && Safe(s, user) && (forall w :: !WaitsFor(s, w, user)) && !Guarded(s, user)
      && HoldsFor(Apply(s, e), 1, user) && HoldsFor(Apply(s, e), 3, user)
  {
    forall h ensures HoldsFor(s, h, user) ==> h == 1 {
    }
    forall w ensures !WaitsFor(s, w, user) {
    }
  }

  lemma ThreeSteps(s: State, es: seq<Event>)
    requires |es| == 3
    requires Enabled(s, es[0]) && Enabled(Apply(s, es[0]), es[1])
    requires Enabled(Apply(Apply(s, es[0]), es[1]), es[2])
    ensures IsRun(s, es) && After(s, es) == Apply(Apply(Apply(s, es[0]), es[1]), es[2])
  {
    hide Enabled, Apply;
    var a := Apply(s, es[0]);
    var b := Apply(a, es[1]);
    OneStep(b, es[2]);
    OneStep(a, es[1]);
    OneStep(s, es[0]);
    RunAppend(s, [es[0]], [es[1]]);
    RunAppend(s, [es[0]] + [es[1]], [es[2]]);
    assert es == [es[0]] + [es[1]] + [es[2]];
  }

  lemma FourSteps(s: State, es: seq<Event>)
    requires |es| == 4
    requires Enabled(s, es[0]) && Enabled(Apply(s, es[0]), es[1])
    requires Enabled(Apply(Apply(s, es[0]), es[1]), es[2])
    requires Enabled(Apply(Apply(Apply(s, es[0]), es[1]), es[2]), es[3])
    ensures IsRun(s, es) && After(s, es) == Apply(Apply(Apply(Apply(s, es[0]), es[1]), es[2]), es[3])
  {
    hide Enabled, Apply, IsRun, After;
    ThreeSteps(s, es[..3]);
    OneStep(Apply(Apply(Apply(s, es[0]), es[1]), es[2]), es[3]);
    RunAppend(s, es[..3], [es[3]]);
    assert es == es[..3] + [es[3]];
  }
}
