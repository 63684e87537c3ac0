/** What `invalidate()` achieves.  It is meant to drop a verdict after an outage was repaired, but
    it leaves the evaluation in flight alone.  A caller who arrives later joins that flight and is
    handed a verdict begun before the call; an evaluation that is still probing also stores its
    verdict afterwards.  Every caller who arrives after the call is served by an evaluation begun
    after it exactly when no flight was on at the call. */
module PublicHealthInvalidation {
  import opened PublicHealth
  import opened PublicHealthProofs
  import opened Wrappers

  ghost predicate ServedFromCache(s: State, c: CallerId) {
    c in s.callers && s.callers[c].Served? && s.callers[c].cached
  }

  /** The first `n` evaluations are over, and neither the cache nor a caller that is not `early`
      has its verdict from one of them. */
  ghost predicate Since(s: State, n: nat, early: set<CallerId>) {
    && n <= |s.evals|
    && (forall i :: 0 <= i < n ==> Completed(s.evals[i]))
    && (s.cache.Some? ==> s.cache.value.from >= n)
    && (forall c :: ServedFromCache(s, c) && c !in early ==> s.callers[c].from >= n)
  }

  lemma StepKeepsSince(s: State, e: Event, n: nat, early: set<CallerId>)
    requires Since(s, n, early) && Enabled(s, e)
    ensures Since(Apply(s, e), n, early)
  {
    var t := Apply(s, e);
    forall c | ServedFromCache(t, c) && c !in early ensures t.callers[c].from >= n {
      if !(e.Call? && e.c == c) {
        assert ServedFromCache(s, c);
      }
    }
  }

  lemma {:induction false} RunKeepsSince(s: State, es: seq<Event>, n: nat, early: set<CallerId>)
    requires Since(s, n, early) && IsRun(s, es)
    ensures Since(After(s, es), n, early)
    decreases |es|
  {
    hide Since, Enabled, Apply;
    if es != [] {
      StepKeepsSince(s, es[0], n, early);
      RunKeepsSince(Apply(s, es[0]), es[1..], n, early);
    }
  }

  /** Whoever is answered from the cache after invalidating in `s` has the verdict of an
      evaluation begun after that. */
  ghost predicate CacheStaysInvalidated(s: State) {
    forall es, c :: IsRun(Apply(s, Invalidate), es) && c !in s.callers
                    && ServedFromCache(After(Apply(s, Invalidate), es), c) ==>
      After(Apply(s, Invalidate), es).callers[c].from >= |s.evals|
  }

  lemma {:induction false} RunAppend(s: State, a: seq<Event>, b: seq<Event>)
    requires IsRun(s, a) && IsRun(After(s, a), b)
    ensures IsRun(s, a + b) && After(s, a + b) == After(After(s, a), b)
    decreases |a|
  {
    hide Enabled, Apply;
    if a == [] {
      assert a + b == b;
    } else {
      assert (a + b)[0] == a[0] && (a + b)[1..] == a[1..] + b;
      RunAppend(Apply(s, a[0]), a[1..], b);
    }
  }

  lemma OneStep(s: State, e: Event)
    requires Enabled(s, e)
    ensures IsRun(s, [e]) && After(s, [e]) == Apply(s, e)
  {
    hide Enabled, Apply;
    assert [e][1..] == [];
    assert IsRun(Apply(s, e), []);
  }

  lemma TwoSteps(s: State, d: Event, e: Event)
    requires Enabled(s, d) && Enabled(Apply(s, d), e)
    ensures IsRun(s, [d, e]) && After(s, [d, e]) == Apply(Apply(s, d), e)
  {
    hide Enabled, Apply, IsRun, After;
    OneStep(s, d);
    OneStep(Apply(s, d), e);
    RunAppend(s, [d], [e]);
    assert [d] + [e] == [d, e];
  }

  /** Both core probes answer. */
  const UP := Core(CoreProbe(true, None), None)

  /** A probing evaluation can be brought to its last await in at most two steps. */
  lemma ReachesSummary(s: State, i: EvalId) returns (es: seq<Event>)
    requires i < |s.evals| && !Completed(s.evals[i]) && EvalOk(s.cfg, s.evals[i])
    ensures IsRun(s, es)
    ensures var t := After(s, es);
      Enabled(t, Summarised(i, None)) && t.callers == s.callers && t.cfg == s.cfg
  {
    match s.evals[i].phase {
      case Probing =>
        es := [Probed(i, UP)];
        assert es[1..] == [];
        assert IsRun(Apply(s, es[0]), []);
      case Sleeping =>
        es := [Woken(i), Probed(i, UP)];
        TwoSteps(s, Woken(i), Probed(i, UP));
      case _ =>
        es := [];
    }
  }

  /** An evaluation unfinished at the call still caches its verdict, and hands it to the next caller. */
  lemma StaleVerdictServed(s: State, i: EvalId, c: CallerId) returns (es: seq<Event>)
    requires Inv(s) && i < |s.evals| && !Completed(s.evals[i]) && s.cfg.cacheTtlMs > 0 && c !in s.callers
    ensures IsRun(Apply(s, Invalidate), es)
    ensures var t := After(Apply(s, Invalidate), es); ServedFromCache(t, c) && t.callers[c].from == i
  {
    hide SingleFlight, Past, CacheOk, LastCached, Paced, CallersOk, IsRun, After;
    assert EvalOk(s.cfg, s.evals[i]);
    var s0 := Apply(s, Invalidate);
    var first := ReachesSummary(s0, i);
    var s1 := After(s0, first);
    TwoSteps(s1, Summarised(i, None), Call(c));
    RunAppend(s0, first, [Summarised(i, None), Call(c)]);
    es := first + [Summarised(i, None), Call(c)];
  }

  /** In every reachable state, with a caller that has not called yet: no later answer from the
      cache rests on an earlier evaluation exactly when nothing is ever cached or every evaluation
      begun so far has its verdict. */
  lemma CacheInvalidatedExact(s: State, c: CallerId)
    requires Inv(s) && c !in s.callers
    ensures CacheStaysInvalidated(s) <==>
      s.cfg.cacheTtlMs == 0 || forall i :: 0 <= i < |s.evals| ==> Completed(s.evals[i])
  {
    hide IsRun, After, SingleFlight, Past, LastCached, Paced, CallersOk, EvalsOk;
    var s0 := Apply(s, Invalidate);
    if s.cfg.cacheTtlMs == 0 {
      forall es, d | IsRun(s0, es) && d !in s.callers ensures !ServedFromCache(After(s0, es), d) {
        NothingCached(s0, es, s.callers.Keys);
      }
    } else if i :| 0 <= i < |s.evals| && !Completed(s.evals[i]) {
      var es := StaleVerdictServed(s, i, c);
      assert After(s0, es).callers[c].from < |s.evals|;
    } else {
      assert Since(s0, |s.evals|, s.callers.Keys);
      forall es, d | IsRun(s0, es) && d !in s.callers && ServedFromCache(After(s0, es), d)
        ensures After(s0, es).callers[d].from >= |s.evals|
      {
        RunKeepsSince(s0, es, |s.evals|, s.callers.Keys);
      }
    }
  }

  /** Without a time to live the cache stays empty. */
  lemma {:induction false} NothingCached(s: State, es: seq<Event>, early: set<CallerId>)
    requires IsRun(s, es) && s.cfg.cacheTtlMs == 0 && s.cache.None?
    requires forall c :: ServedFromCache(s, c) ==> c in early
    ensures forall c :: ServedFromCache(After(s, es), c) ==> c in early
    decreases |es|
  {
    if es != [] {
      var t := Apply(s, es[0]);
      forall c | ServedFromCache(t, c) ensures c in early {
        assert ServedFromCache(s, c);
      }
      NothingCached(t, es[1..], early);
    }
  }

  // ---------------------------------------------------------------- every caller

  /** Which evaluation a caller waits for or was served by. */
  function Source(p: CallerPhase): EvalId {
    match p
    case Awaiting(i) => i
    case Served(_, _, i, _, _) => i
  }

  /** The first `n` evaluations are finished, and neither the flight nor the cache nor a caller
      that is not `early` has to do with one of them. */
  ghost predicate Apart(s: State, n: nat, early: set<CallerId>) {
    && n <= |s.evals|
    && (forall i :: 0 <= i < n ==> s.evals[i].phase.Finished?)
    && (s.inFlight.Some? ==> s.inFlight.value >= n)
    && (s.cache.Some? ==> s.cache.value.from >= n)
    && (forall c :: c in s.callers && c !in early ==> Source(s.callers[c]) >= n)
  }

  lemma StepKeepsApart(s: State, e: Event, n: nat, early: set<CallerId>)
    requires Apart(s, n, early) && Enabled(s, e)
    ensures Apart(Apply(s, e), n, early)
  {
    var t := Apply(s, e);
    forall c | c in t.callers && c !in early ensures Source(t.callers[c]) >= n {
      assert c in s.callers ==> Source(s.callers[c]) >= n;
    }
  }

  lemma {:induction false} RunKeepsApart(s: State, es: seq<Event>, n: nat, early: set<CallerId>)
    requires Apart(s, n, early) && IsRun(s, es)
    ensures Apart(After(s, es), n, early)
    decreases |es|
  {
    hide Apart, Enabled, Apply;
    if es != [] {
      StepKeepsApart(s, es[0], n, early);
      RunKeepsApart(Apply(s, es[0]), es[1..], n, early);
    }
  }

  ghost predicate IsServed(s: State, c: CallerId) {
    c in s.callers && s.callers[c].Served?
  }

  /** Whoever arrives after invalidating in `s`, whether answered from the cache or made to wait,
      is served by an evaluation begun after that. */
  ghost predicate StaysInvalidated(s: State) {
    forall es, c :: IsRun(Apply(s, Invalidate), es) && c !in s.callers
                    && IsServed(After(Apply(s, Invalidate), es), c) ==>
      After(Apply(s, Invalidate), es).callers[c].from >= |s.evals|
  }

  /** A caller who waits for an evaluation that has its verdict is served it in two steps. */
  lemma SettledIsDelivered(s: State, i: EvalId, c: CallerId)
    requires i < |s.evals| && s.evals[i].phase.Settled?
    requires c in s.callers && s.callers[c] == Awaiting(i)
    ensures IsRun(s, [FlightEnds(i), Delivered(c)])
    ensures var t := After(s, [FlightEnds(i), Delivered(c)]); IsServed(t, c) && t.callers[c].from == i
  {
    TwoSteps(s, FlightEnds(i), Delivered(c));
  }

  /** Whatever the flight is at, a caller who waits for it can be served its verdict. */
  lemma AwaitedCanBeServed(s: State, i: EvalId, c: CallerId) returns (es: seq<Event>)
    requires i < |s.evals| && !s.evals[i].phase.Finished? && EvalOk(s.cfg, s.evals[i])
    requires c in s.callers && s.callers[c] == Awaiting(i)
    ensures IsRun(s, es)
    ensures IsServed(After(s, es), c) && After(s, es).callers[c].from == i
  {
    hide IsRun, After;
    var last := [FlightEnds(i), Delivered(c)];
    if s.evals[i].phase.Settled? {
      SettledIsDelivered(s, i, c);
      es := last;
    } else {
      var first := ReachesSummary(s, i);
      var s1 := After(s, first);
      OneStep(s1, Summarised(i, None));
      var s2 := Apply(s1, Summarised(i, None));
      SettledIsDelivered(s2, i, c);
      RunAppend(s1, [Summarised(i, None)], last);
      RunAppend(s, first, [Summarised(i, None)] + last);
      es := first + ([Summarised(i, None)] + last);
    }
  }

  /** A caller who arrives after the call and finds a flight joins it and is handed its verdict. */
  lemma JoinerGetsOldVerdict(s: State, c: CallerId) returns (es: seq<Event>)
    requires Inv(s) && s.inFlight.Some? && c !in s.callers
    ensures IsRun(Apply(s, Invalidate), es)
    ensures var t := After(Apply(s, Invalidate), es); IsServed(t, c) && t.callers[c].from < |s.evals|
  {
    hide Past, CacheOk, LastCached, Paced, CallersOk, IsRun, After;
    var i := s.inFlight.value;
    assert EvalOk(s.cfg, s.evals[i]);
    var s0 := Apply(s, Invalidate);
    var s1 := Apply(s0, Call(c));
    StepKeepsInv(s, Invalidate);
    WaitersGetTheirEvaluation(s0, c);
    OneStep(s0, Call(c));
    var rest := AwaitedCanBeServed(s1, i, c);
    RunAppend(s0, [Call(c)], rest);
    es := [Call(c)] + rest;
  }

  /** In every reachable state, with a caller that has not called yet: invalidating sticks, for
      all later callers and in every continuation, exactly when no evaluation is in flight. */
  lemma InvalidateExact(s: State, c: CallerId)
    requires Inv(s) && c !in s.callers
    ensures StaysInvalidated(s) <==> s.inFlight.None?
  {
    hide IsRun, After, Past, LastCached, Paced, CallersOk, EvalsOk;
    var s0 := Apply(s, Invalidate);
    if s.inFlight.Some? {
      var es := JoinerGetsOldVerdict(s, c);
      assert IsServed(After(s0, es), c);
    } else {
      assert Apart(s0, |s.evals|, s.callers.Keys);
      forall es, d | IsRun(s0, es) && d !in s.callers && IsServed(After(s0, es), d)
        ensures After(s0, es).callers[d].from >= |s.evals|
      {
        RunKeepsApart(s0, es, |s.evals|, s.callers.Keys);
        ServedApart(After(s0, es), |s.evals|, s.callers.Keys, d);
      }
    }
  }

  lemma ServedApart(s: State, n: nat, early: set<CallerId>, c: CallerId)
    requires Apart(s, n, early) && IsServed(s, c) && c !in early
    ensures s.callers[c].from >= n
  {
    assert Source(s.callers[c]) >= n;
  }

  // ---------------------------------------------------------------- runs

  lemma JoinerWaits(now: int, core: Core) returns (s: State)
    requires CoreDown(core)
    ensures var es := [Call(0), Probed(0, core)] + [Invalidate, Call(1)];
      IsRun(Init(Config(0, 0, 0, 0), now), es) && After(Init(Config(0, 0, 0, 0), now), es) == s
    ensures s.evals == [Eval(Summarising, 0, [core], now, 0)] && s.epoch == 1
    ensures 1 in s.callers && s.callers[1] == Awaiting(0)
  {
    hide IsRun, After;
    var s0 := Init(Config(0, 0, 0, 0), now);
    TwoSteps(s0, Call(0), Probed(0, core));
    var s2 := After(s0, [Call(0), Probed(0, core)]);
    assert [] + [core] == [core];
    assert s2.evals[0] == Eval(Summarising, 0, [core], now, 0);
    TwoSteps(s2, Invalidate, Call(1));
    RunAppend(s0, [Call(0), Probed(0, core)], [Invalidate, Call(1)]);
    s := After(s2, [Invalidate, Call(1)]);
  }

  /** Nothing is ever cached, and still a caller who arrives after the call is told of the outage
      that was seen before it. */
  lemma JoinerIsToldOldOutage(now: int, core: Core)
    requires CoreDown(core)
    ensures var cfg := Config(0, 0, 0, 0);
      var es := [Call(0), Probed(0, core)] + [Invalidate, Call(1)]
                + ([Summarised(0, None)] + [FlightEnds(0), Delivered(1)]);
      && IsRun(Init(cfg, now), es)
      && var t := After(Init(cfg, now), es);
      && IsServed(t, 1) && t.callers[1].from == 0 && ReportsCoreDown(t.callers[1].view)
      && |t.evals| == 1 && t.evals[0].startedEpoch == 0 && t.callers[1].epoch == 1
  {
    hide IsRun, After;
    var s4 := JoinerWaits(now, core);
    OneStep(s4, Summarised(0, None));
    var s5 := Apply(s4, Summarised(0, None));
    TwoSteps(s5, FlightEnds(0), Delivered(1));
    RunAppend(s4, [Summarised(0, None)], [FlightEnds(0), Delivered(1)]);
    RunAppend(Init(Config(0, 0, 0, 0), now), [Call(0), Probed(0, core)] + [Invalidate, Call(1)],
              [Summarised(0, None)] + [FlightEnds(0), Delivered(1)]);
  }

  /** An outage seen before the call is reported from the cache after it. */
  lemma OutageOutlivesInvalidation(now: int, ttl: nat, core: Core)
    requires ttl > 0 && CoreDown(core)
    ensures var cfg := Config(ttl, 0, 0, 0);
      var es := [Call(0), Probed(0, core)] + [Invalidate, Summarised(0, None)] + [Call(1)];
      && IsRun(Init(cfg, now), es)
      && var t := After(Init(cfg, now), es);
      && ServedFromCache(t, 1) && t.callers[1].epoch == 1 && ReportsCoreDown(t.callers[1].view)
      && t.callers[1].from < |t.evals| && t.evals[t.callers[1].from].startedEpoch == 0
  {
    hide IsRun, After;
    var s0 := Init(Config(ttl, 0, 0, 0), now);
    var s1 := Apply(s0, Call(0));
    var s2 := Apply(s1, Probed(0, core));
    TwoSteps(s0, Call(0), Probed(0, core));
    var s3 := Apply(s2, Invalidate);
    var s4 := Apply(s3, Summarised(0, None));
    TwoSteps(s2, Invalidate, Summarised(0, None));
    OneStep(s4, Call(1));
    RunAppend(s0, [Call(0), Probed(0, core)], [Invalidate, Summarised(0, None)]);
    RunAppend(s0, [Call(0), Probed(0, core)] + [Invalidate, Summarised(0, None)], [Call(1)]);
  }
}
