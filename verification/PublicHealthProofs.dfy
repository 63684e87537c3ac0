/** What the public health endpoint keeps over every interleaving of callers,
    probes, timers and invalidations. */
module PublicHealthProofs {
  import opened PublicHealth
  import opened Wrappers

  /** No finished verdict is lost or changed, and no start is rewritten. */
  ghost predicate Remembers(s: State, t: State) {
    && t.cfg == s.cfg
    && |s.evals| <= |t.evals|
    && (forall i :: 0 <= i < |s.evals| ==> SameEval(s.evals[i], t.evals[i]))
  }

  ghost predicate SameEval(e: Eval, f: Eval) {
    && f.startedAt == e.startedAt && f.startedEpoch == e.startedEpoch
    && (Completed(e) ==> Completed(f) && f.phase.done == e.phase.done)
  }

  lemma CallersRemembered(s: State, t: State)
    requires CallersOk(s) && Remembers(s, t) && t.callers == s.callers
    ensures CallersOk(t)
  {
    forall c | c in t.callers ensures CallerOk(t, t.callers[c]) {
      assert CallerOk(s, s.callers[c]);
    }
  }

  lemma CacheRemembered(s: State, t: State)
    requires CacheOk(s) && Remembers(s, t) && t.cache == s.cache && t.epoch == s.epoch
    ensures CacheOk(t)
  {
  }

  lemma PacedRemembered(s: State, t: State)
    requires Paced(s) && Remembers(s, t) && |t.evals| == |s.evals|
    ensures Paced(t)
  {
    forall i | 0 <= i && i + 1 < |t.evals| ensures PacedAt(t, i) {
      assert PacedAt(s, i);
      assert SameEval(s.evals[i], t.evals[i]) && SameEval(s.evals[i + 1], t.evals[i + 1]);
    }
  }

  // ---------------------------------------------------------------- getHealth

  lemma CachedCallKeepsInv(s: State, c: CallerId)
    requires Inv(s) && CacheAnswers(s)
    ensures Inv(CallStep(s, c))
  {
    hide EvalsOk, Paced;
    var t := CallStep(s, c);
    assert EvalsOk(t) && Paced(t) by { SameEvals(s, t); }
    forall d | d in t.callers ensures CallerOk(t, t.callers[d]) {
      if d != c {
        assert CallerOk(s, s.callers[d]);
      }
    }
  }

  lemma SameEvals(s: State, t: State)
    requires t.evals == s.evals && t.cfg == s.cfg
    ensures EvalsOk(s) == EvalsOk(t) && Paced(s) == Paced(t)
  {
    assert forall i {:trigger PacedAt(s, i)} :: 0 <= i && i + 1 < |s.evals| ==> PacedAt(s, i) == PacedAt(t, i);
    assert forall i {:trigger PacedAt(t, i)} :: 0 <= i && i + 1 < |s.evals| ==> PacedAt(s, i) == PacedAt(t, i);
  }

  lemma JoiningCallKeepsInv(s: State, c: CallerId)
    requires Inv(s) && !CacheAnswers(s) && s.inFlight.Some?
    ensures Inv(CallStep(s, c))
  {
    hide EvalsOk, Paced;
    var t := CallStep(s, c);
    assert EvalsOk(t) && Paced(t) by { SameEvals(s, t); }
    forall d | d in t.callers ensures CallerOk(t, t.callers[d]) {
      if d != c {
        assert CallerOk(s, s.callers[d]);
      }
    }
  }

  /** A caller starts an evaluation only when the last verdict is gone or too old. */
  lemma StartIsPaced(s: State, c: CallerId)
    requires Inv(s) && !CacheAnswers(s) && s.inFlight.None?
    ensures Paced(CallStep(s, c))
  {
    hide EvalsOk, CallersOk;
    var t := CallStep(s, c);
    var n := |s.evals|;
    forall i | 0 <= i && i + 1 < |t.evals| ensures PacedAt(t, i) {
      if i + 1 < n {
        assert PacedAt(s, i);
      } else {
        assert s.evals[i].phase.Finished?;
      }
    }
  }

  lemma StartKeepsRest(s: State, c: CallerId)
    requires Inv(s) && !CacheAnswers(s) && s.inFlight.None?
    ensures var t := CallStep(s, c); EvalsOk(t) && SingleFlight(t) && Past(t) && CacheOk(t) && LastCached(t)
  {
    hide Paced, CallersOk;
  }

  lemma StartKeepsCallers(s: State, c: CallerId)
    requires CallersOk(s) && !CacheAnswers(s) && s.inFlight.None?
    ensures CallersOk(CallStep(s, c))
  {
    var t := CallStep(s, c);
    forall d | d in t.callers ensures CallerOk(t, t.callers[d]) {
      if d != c {
        assert CallerOk(s, s.callers[d]);
      }
    }
  }

  lemma CallKeepsInv(s: State, c: CallerId)
    requires Inv(s)
    ensures Inv(CallStep(s, c))
  {
    hide EvalsOk, SingleFlight, Past, CacheOk, LastCached, Paced, CallersOk;
    if CacheAnswers(s) {
      CachedCallKeepsInv(s, c);
    } else if s.inFlight.Some? {
      JoiningCallKeepsInv(s, c);
    } else {
      StartIsPaced(s, c);
      StartKeepsRest(s, c);
      StartKeepsCallers(s, c);
    }
  }

  // ---------------------------------------------------------------- evaluate

  lemma AfterProbeOk(cfg: Config, e: Eval, core: Core)
    requires EvalOk(cfg, e) && e.phase.Probing?
    ensures EvalOk(cfg, AfterProbe(cfg, e, core))
    ensures SameEval(e, AfterProbe(cfg, e, core)) && !Completed(AfterProbe(cfg, e, core))
  {
    assert (e.seen + [core])[..|e.seen|] == e.seen;
  }

  /** A running evaluation moves on without completing. */
  ghost predicate MovesOn(s: State, t: State, i: EvalId) {
    && i < |s.evals| && !Completed(s.evals[i])
    && |t.evals| == |s.evals|
    && t == s.(evals := s.evals[i := t.evals[i]])
    && EvalOk(s.cfg, t.evals[i]) && SameEval(s.evals[i], t.evals[i]) && !Completed(t.evals[i])
  }

  lemma MovesOnFrames(s: State, t: State, i: EvalId)
    requires MovesOn(s, t, i)
    ensures Remembers(s, t)
    ensures forall k :: 0 <= k < |s.evals| && k != i ==> t.evals[k] == s.evals[k]
    ensures t.callers == s.callers && t.cache == s.cache && t.epoch == s.epoch
    ensures t.now == s.now && t.inFlight == s.inFlight
  {
  }

  lemma MovesOnKeepsInv(s: State, t: State, i: EvalId)
    requires Inv(s) && MovesOn(s, t, i)
    ensures Inv(t)
  {
    hide Paced, CallersOk, CacheOk, EvalOk;
    MovesOnFrames(s, t, i);
    CallersRemembered(s, t);
    CacheRemembered(s, t);
    PacedRemembered(s, t);
    assert SingleFlight(t);
    assert LastCached(t);
    assert EvalsOk(t);
  }

  lemma ProbedKeepsInv(s: State, i: EvalId, core: Core)
    requires Inv(s) && Enabled(s, Probed(i, core))
    ensures Inv(Apply(s, Probed(i, core)))
  {
    hide SingleFlight, Past, CacheOk, LastCached, Paced, CallersOk, EvalOk, AfterProbe;
    AfterProbeOk(s.cfg, s.evals[i], core);
    MovesOnKeepsInv(s, Apply(s, Probed(i, core)), i);
  }

  lemma WokenKeepsInv(s: State, i: EvalId)
    requires Inv(s) && Enabled(s, Woken(i))
    ensures Inv(Apply(s, Woken(i)))
  {
    hide SingleFlight, Past, CacheOk, LastCached, Paced, CallersOk;
    MovesOnKeepsInv(s, Apply(s, Woken(i)), i);
  }

  lemma SummaryFrames(s: State, i: EvalId, deps: Option<Summary>)
    requires Enabled(s, Summarised(i, deps))
    ensures Remembers(s, SummaryStep(s, i, deps))
  {
  }

  lemma SummaryKeepsInv(s: State, i: EvalId, deps: Option<Summary>)
    requires Inv(s) && Enabled(s, Summarised(i, deps))
    ensures Inv(SummaryStep(s, i, deps))
  {
    hide Paced, CallersOk;
    var t := SummaryStep(s, i, deps);
    SummaryFrames(s, i, deps);
    CallersRemembered(s, t);
    PacedRemembered(s, t);
    assert i == |s.evals| - 1;
  }

  lemma FlightEndsKeepsInv(s: State, i: EvalId)
    requires Inv(s) && Enabled(s, FlightEnds(i))
    ensures Inv(Apply(s, FlightEnds(i)))
  {
    hide Paced, CallersOk, CacheOk;
    var t := Apply(s, FlightEnds(i));
    assert Remembers(s, t);
    CallersRemembered(s, t);
    CacheRemembered(s, t);
    PacedRemembered(s, t);
    assert s.inFlight == Some(i);
  }

  lemma DeliveredKeepsInv(s: State, c: CallerId)
    requires Inv(s) && Enabled(s, Delivered(c))
    ensures Inv(Apply(s, Delivered(c)))
  {
    hide EvalsOk, Paced;
    var t := Apply(s, Delivered(c));
    assert EvalsOk(t) && Paced(t) by { SameEvals(s, t); }
    forall d | d in t.callers ensures CallerOk(t, t.callers[d]) {
      if d != c {
        assert CallerOk(s, s.callers[d]);
      }
    }
  }

  lemma EnvironmentKeepsInv(s: State, e: Event)
    requires Inv(s) && Enabled(s, e) && (e.Invalidate? || e.Tick?)
    ensures Inv(Apply(s, e))
  {
    hide EvalsOk, Paced, CallersOk;
    var t := Apply(s, e);
    SameEvals(s, t);
    CallersRemembered(s, t);
  }

  lemma StepKeepsInv(s: State, e: Event)
    requires Inv(s) && Enabled(s, e)
    ensures Inv(Apply(s, e))
  {
    hide Inv;
    match e
    case Call(c) => CallKeepsInv(s, c);
    case Probed(i, core) => ProbedKeepsInv(s, i, core);
    case Woken(i) => WokenKeepsInv(s, i);
    case Summarised(i, deps) => SummaryKeepsInv(s, i, deps);
    case FlightEnds(i) => FlightEndsKeepsInv(s, i);
    case Delivered(c) => DeliveredKeepsInv(s, c);
    case Invalidate => EnvironmentKeepsInv(s, e);
    case Tick(_) => EnvironmentKeepsInv(s, e);
  }

  // ---------------------------------------------------------------- runs

  ghost predicate IsRun(s: State, es: seq<Event>)
    decreases |es|
  {
    es == [] || (Enabled(s, es[0]) && IsRun(Apply(s, es[0]), es[1..]))
  }

  ghost function After(s: State, es: seq<Event>): State
    requires IsRun(s, es)
    decreases |es|
  {
    if es == [] then s else After(Apply(s, es[0]), es[1..])
  }

  lemma {:induction false} RunKeepsInv(s: State, es: seq<Event>)
    requires Inv(s) && IsRun(s, es)
    ensures Inv(After(s, es)) && After(s, es).cfg == s.cfg
    decreases |es|
  {
    hide Inv, Enabled;
    if es != [] {
      StepKeepsInv(s, es[0]);
      RunKeepsInv(Apply(s, es[0]), es[1..]);
    }
  }

  lemma EveryRunKeepsInv(cfg: Config, now: int, es: seq<Event>)
    requires IsRun(Init(cfg, now), es)
    ensures Inv(After(Init(cfg, now), es)) && After(Init(cfg, now), es).cfg == cfg
  {
    RunKeepsInv(Init(cfg, now), es);
  }

  /** In every interleaving at most one evaluation runs at a time. */
  lemma OneEvaluationAtATime(cfg: Config, now: int, es: seq<Event>, i: EvalId, j: EvalId)
    requires IsRun(Init(cfg, now), es)
    requires i < |After(Init(cfg, now), es).evals| && j < |After(Init(cfg, now), es).evals|
    requires !Completed(After(Init(cfg, now), es).evals[i]) && !Completed(After(Init(cfg, now), es).evals[j])
    ensures i == j
  {
    EveryRunKeepsInv(cfg, now, es);
  }

  /** The core is reported down exactly when all `probeRetries + 1` probes saw a core failure. */
  lemma DownOnlyAfterAllProbes(cfg: Config, now: int, es: seq<Event>, i: EvalId)
    requires IsRun(Init(cfg, now), es)
    requires i < |After(Init(cfg, now), es).evals| && Completed(After(Init(cfg, now), es).evals[i])
    ensures var s := After(Init(cfg, now), es); var e := s.evals[i];
      && 1 <= |e.seen| <= cfg.probeRetries + 1
      && (ReportsCoreDown(ViewOf(s, e.phase.done)) <==> |e.seen| == cfg.probeRetries + 1 && AllDown(e.seen))
      && (forall k :: 0 <= k < |e.seen| - 1 ==> CoreDown(e.seen[k]))
  {
    hide SingleFlight, Past, CacheOk, LastCached, Paced, CallersOk, IsRun, After;
    EveryRunKeepsInv(cfg, now, es);
    var s := After(Init(cfg, now), es);
    var e := s.evals[i];
    assert EvalOk(cfg, e);
    assert ReportsCoreDown(ViewOf(s, e.phase.done)) <==> CoreDown(e.seen[|e.seen| - 1]);
    assert forall k :: 0 <= k < |e.seen| - 1 ==> e.seen[k] == e.seen[..e.attempt][k];
  }

  /** What a caller is given is the verdict of one evaluation: either younger than the
      TTL and stored since the last invalidation, or the one the caller waited for. */
  lemma ServedViews(cfg: Config, now: int, es: seq<Event>, c: CallerId)
    requires IsRun(Init(cfg, now), es)
    requires c in After(Init(cfg, now), es).callers && After(Init(cfg, now), es).callers[c].Served?
    ensures var s := After(Init(cfg, now), es); var p := s.callers[c];
      && p.from < |s.evals| && Completed(s.evals[p.from])
      && p.view == ViewOf(s, s.evals[p.from].phase.done)
      && s.evals[p.from].phase.done.at <= p.at
      && (p.cached ==>
            && p.at - s.evals[p.from].phase.done.at < cfg.cacheTtlMs
            && p.epoch == s.evals[p.from].phase.done.epoch)
  {
    EveryRunKeepsInv(cfg, now, es);
    var s := After(Init(cfg, now), es);
    assert CallerOk(s, s.callers[c]);
  }

  /** A caller that was not answered from the cache gets exactly the evaluation that was
      in flight when its call returned control. */
  lemma WaitersGetTheirEvaluation(s: State, c: CallerId)
    requires Inv(s) && c !in s.callers && !CacheAnswers(s)
    ensures var t := CallStep(s, c);
      && t.callers[c].Awaiting? && t.inFlight == Some(t.callers[c].eval)
      && (s.inFlight.Some? ==> t.evals == s.evals)
      && (s.inFlight.None? ==> t.evals[t.callers[c].eval].seen == [] && t.evals[t.callers[c].eval].startedAt == s.now)
  {
  }

  /** A caller that waits for an evaluation is served that evaluation's verdict and no other,
      whatever happens in between. */
  lemma {:induction false} AwaitedIsServed(s: State, es: seq<Event>, c: CallerId)
    requires IsRun(s, es) && c in s.callers && s.callers[c].Awaiting?
    ensures var t := After(s, es);
      && c in t.callers
      && (|| t.callers[c] == s.callers[c]
          || (t.callers[c].Served? && !t.callers[c].cached && t.callers[c].from == s.callers[c].eval))
    decreases |es|
  {
    if es != [] {
      var t := Apply(s, es[0]);
      if t.callers[c].Awaiting? {
        AwaitedIsServed(t, es[1..], c);
      } else {
        ServedStays(t, es[1..], c);
      }
    }
  }

  lemma {:induction false} ServedStays(s: State, es: seq<Event>, c: CallerId)
    requires IsRun(s, es) && c in s.callers && s.callers[c].Served?
    ensures c in After(s, es).callers && After(s, es).callers[c] == s.callers[c]
    decreases |es|
  {
    if es != [] {
      ServedStays(Apply(s, es[0]), es[1..], c);
    }
  }

  /** However many callers arrive, two successive evaluations are a full TTL apart, counted
      from the first one's verdict, unless the cache was invalidated in between. */
  lemma EvaluationsArePaced(cfg: Config, now: int, es: seq<Event>, i: EvalId)
    requires IsRun(Init(cfg, now), es) && i + 1 < |After(Init(cfg, now), es).evals|
    ensures var s := After(Init(cfg, now), es);
      && Completed(s.evals[i])
      && (s.evals[i + 1].startedEpoch == s.evals[i].phase.done.epoch ==>
            s.evals[i].phase.done.at + cfg.cacheTtlMs <= s.evals[i + 1].startedAt)
  {
    EveryRunKeepsInv(cfg, now, es);
    assert PacedAt(After(Init(cfg, now), es), i);
  }

  // ---------------------------------------------------------------- progress

  /** How many of its own steps an evaluation still has ahead of it, at most. */
  function Remaining(cfg: Config, e: Eval): int {
    match e.phase
    case Probing => 2 * (cfg.probeRetries - e.attempt) + 3
    case Sleeping => 2 * (cfg.probeRetries - e.attempt) + 4
    case Summarising => 2
    case Settled(_) => 1
    case Finished(_) => 0
  }

  predicate OwnStep(e: Event, i: EvalId) {
    || (e.Probed? && e.i == i) || (e.Woken? && e.i == i) || (e.Summarised? && e.i == i) || (e.FlightEnds? && e.i == i)
  }

  /** Every evaluation ends: each of its own steps uses up the measure, no other step
      touches it, and while it is positive the evaluation has a step to take. */
  lemma EvaluationsEnd(s: State, i: EvalId, e: Event)
    requires Inv(s) && i < |s.evals| && Enabled(s, e)
    ensures var r := Remaining(s.cfg, s.evals[i]); var t := Apply(s, e);
      && 0 <= r <= 2 * s.cfg.probeRetries + 4
      && (OwnStep(e, i) ==> Remaining(t.cfg, t.evals[i]) < r)
      && (!OwnStep(e, i) ==> t.evals[i] == s.evals[i])
    ensures forall core, deps :: Remaining(s.cfg, s.evals[i]) > 0 ==>
      || Enabled(s, Probed(i, core)) || Enabled(s, Woken(i))
      || Enabled(s, Summarised(i, deps)) || Enabled(s, FlightEnds(i))
  {
    hide SingleFlight, Past, CacheOk, LastCached, Paced, CallersOk;
    assert EvalOk(s.cfg, s.evals[i]);
  }
}
