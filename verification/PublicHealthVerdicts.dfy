/** What a served view says, from the probes and the dependency summary of its evaluation
    (src/health/public-health.model.ts, as src/health/public-health.service.ts calls it). */
module PublicHealthVerdicts {
  import opened DependencyStates
  import opened PublicHealth
  import opened PublicHealthProofs
  import opened Wrappers

  predicate Slow(p: CoreProbe, slowThresholdMs: int) {
    p.responseTime.Some? && p.responseTime.value > slowThresholdMs
  }

  /** The database, and Redis if there is one, answered in time. */
  predicate CoreFine(core: Core, slowThresholdMs: int) {
    && core.database.up && !Slow(core.database, slowThresholdMs)
    && (core.redis.Some? ==> core.redis.value.up && !Slow(core.redis.value, slowThresholdMs))
  }

  predicate CoreFailed(core: Core) {
    !core.database.up || (core.redis.Some? && !core.redis.value.up)
  }

  /** What the four checks and the verdict of a view must be. */
  ghost predicate Tells(v: View, core: Core, deps: Option<Summary>, slowThresholdMs: int) {
    && (v.status == VerdictDown <==>
          CoreFailed(core) || (deps.Some? && deps.value.status in {Unavailable, Misconfigured}))
    && (v.status == VerdictOk <==>
          && CoreFine(core, slowThresholdMs) && deps.Some?
          && deps.value.status in {Healthy, Disabled} && deps.value.advisory in {Healthy, Disabled})
    && ProbeTells(v.database, core.database, slowThresholdMs)
    && (core.redis.Some? ==> ProbeTells(v.cache, core.redis.value, slowThresholdMs))
    && (core.redis.None? ==> v.cache == CheckDisabled)
    && (deps.Some? ==> StateTells(v.external, deps.value.status) && StateTells(v.optional, deps.value.advisory))
    && (deps.None? ==> v.external == CheckDegraded && v.optional == CheckDegraded)
  }

  ghost predicate ProbeTells(c: CheckStatus, p: CoreProbe, slowThresholdMs: int) {
    && (c == CheckDown <==> !p.up)
    && (c == CheckDegraded <==> p.up && Slow(p, slowThresholdMs))
    && c != CheckDisabled
  }

  ghost predicate StateTells(c: CheckStatus, d: DependencyState) {
    && (c == CheckUp <==> d == Healthy)
    && (c == CheckDisabled <==> d == Disabled)
    && (c == CheckDegraded <==> d == Degraded)
    && (c == CheckDown <==> d == Unavailable || d == Misconfigured)
  }

  lemma ViewTells(core: Core, deps: Option<Summary>, slowThresholdMs: int)
    ensures Tells(BuildView(core, deps, slowThresholdMs), core, deps, slowThresholdMs)
  {
  }

  /** An evaluation completes with its last probe, the summary it is given, the time and the
      number of invalidations so far. */
  lemma CompletesWith(s: State, i: EvalId, deps: Option<Summary>)
    requires Enabled(s, Summarised(i, deps))
    ensures var e, f := s.evals[i], Apply(s, Summarised(i, deps)).evals[i];
      && Completed(f) && f.seen == e.seen != []
      && f.phase.done == Completion(e.seen[|e.seen| - 1], deps, s.now, s.epoch)
  {
  }

  /** In every run a served view tells exactly what the last core probe and the summary of its
      evaluation say: it is down iff the core failed or a critical dependency is unavailable or
      misconfigured, and ok iff nothing is down, slow, degraded or unknown. */
  lemma ServedVerdicts(cfg: Config, now: int, es: seq<Event>, c: CallerId)
    requires IsRun(Init(cfg, now), es)
    requires c in After(Init(cfg, now), es).callers && After(Init(cfg, now), es).callers[c].Served?
    ensures var s := After(Init(cfg, now), es); var p := s.callers[c];
      && p.from < |s.evals| && Completed(s.evals[p.from]) && s.evals[p.from].seen != []
      && var e := s.evals[p.from];
      Tells(p.view, e.seen[|e.seen| - 1], e.phase.done.deps, cfg.slowThresholdMs)
  {
    hide SingleFlight, Past, CacheOk, LastCached, Paced, IsRun, After, Tells, BuildView;
    EveryRunKeepsInv(cfg, now, es);
    var s := After(Init(cfg, now), es);
    var p := s.callers[c];
    assert CallerOk(s, p);
    var e := s.evals[p.from];
    assert EvalOk(cfg, e);
    ViewTells(e.phase.done.core, e.phase.done.deps, cfg.slowThresholdMs);
  }
}
