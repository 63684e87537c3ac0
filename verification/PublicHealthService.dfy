/** `PublicHealthService` as an object: its `cache` and `inFlight` fields, the running
    evaluations and the suspended callers, and one method per stretch of code between
    two awaits, each proved to take the corresponding step. */
module PublicHealthService {
  import opened PublicHealth
  import opened Wrappers
  import opened PublicHealthProofs
  import opened PublicHealthVerdicts

  class Service {
    const cfg: Config
    var cache: Option<CacheEntry>
    var inFlight: Option<EvalId>
    var evals: seq<Eval>
    var callers: map<CallerId, CallerPhase>
    /** `this.clock()` */
    var now: int
    /** How often `invalidate()` was called. */
    var epoch: nat

    ghost function Status(): State
      reads this
    {
      State(cfg, cache, inFlight, evals, callers, now, epoch)
    }

    ghost predicate Valid()
      reads this
    {
      Inv(Status())
    }

    constructor (config: Config, clock: int)
      ensures Valid() && Status() == Init(config, clock)
    {
      cfg := config;
      cache, inFlight, evals, callers, now, epoch := None, None, [], map[], clock, 0;
    }

    /** `getHealth()` up to its await. */
    method GetHealth(c: CallerId)
      requires Valid() && Enabled(Status(), Call(c))
      modifies this
      ensures Valid() && Status() == Apply(old(Status()), Call(c))
    {
      hide Inv;
      StepKeepsInv(Status(), Call(c));
      if cache.Some? && cache.value.expiresAt > now {
        callers := callers[c := Served(cache.value.view, true, cache.value.from, now, epoch)];
        return;
      }
      if inFlight.None? {
        inFlight := Some(|evals|);
        evals := evals + [Eval(Probing, 0, [], now, epoch)];
      }
      callers := callers[c := Awaiting(inFlight.value)];
    }

    /** A core probe of evaluation `i` returns: the condition of the retry loop. */
    method CoreProbed(i: EvalId, core: Core)
      requires Valid() && Enabled(Status(), Probed(i, core))
      modifies this
      ensures Valid() && Status() == Apply(old(Status()), Probed(i, core))
      ensures i < |evals| && evals[i].seen == old(evals)[i].seen + [core]
      ensures evals[i].phase == Summarising <==> !CoreFailed(core) || old(evals)[i].attempt >= cfg.probeRetries
      ensures evals[i].phase == Sleeping <==> evals[i].phase != Summarising && cfg.retryDelayMs > 0
    {
      hide Inv;
      StepKeepsInv(Status(), Probed(i, core));
      var e := evals[i];
      e := e.(seen := e.seen + [core]);
      if CoreDown(core) && e.attempt < cfg.probeRetries {
        e := e.(attempt := e.attempt + 1);
        if cfg.retryDelayMs > 0 {
          e := e.(phase := Sleeping);
        }
      } else {
        e := e.(phase := Summarising);
      }
      evals := evals[i := e];
    }

    method DelayOver(i: EvalId)
      requires Valid() && Enabled(Status(), Woken(i))
      modifies this
      ensures Valid() && Status() == Apply(old(Status()), Woken(i))
    {
      hide Inv;
      StepKeepsInv(Status(), Woken(i));
      evals := evals[i := evals[i].(phase := Probing)];
    }

    /** The rest of `evaluate`: build the view, cache it, return it. */
    method DependenciesProbed(i: EvalId, deps: Option<Summary>)
      requires Valid() && Enabled(Status(), Summarised(i, deps))
      modifies this
      ensures Valid() && Status() == Apply(old(Status()), Summarised(i, deps))
      ensures cfg.cacheTtlMs > 0 ==>
        && cache.Some? && cache.value.expiresAt == now + cfg.cacheTtlMs && cache.value.from == i
        && var seen := old(evals)[i].seen;
        Tells(cache.value.view, seen[|seen| - 1], deps, cfg.slowThresholdMs)
    {
      hide Inv, Tells;
      StepKeepsInv(Status(), Summarised(i, deps));
      var e := evals[i];
      var core := e.seen[|e.seen| - 1];
      var view := BuildView(core, deps, cfg.slowThresholdMs);
      ViewTells(core, deps, cfg.slowThresholdMs);
      if cfg.cacheTtlMs > 0 {
        cache := Some(CacheEntry(view, now + cfg.cacheTtlMs, i));
      }
      evals := evals[i := e.(phase := Settled(Completion(core, deps, now, epoch)))];
    }

    /** The `finally` callback. */
    method FlightOver(i: EvalId)
      requires Valid() && Enabled(Status(), FlightEnds(i))
      modifies this
      ensures Valid() && Status() == Apply(old(Status()), FlightEnds(i))
    {
      hide Inv;
      StepKeepsInv(Status(), FlightEnds(i));
      evals := evals[i := evals[i].(phase := Finished(evals[i].phase.done))];
      inFlight := None;
    }

    method Deliver(c: CallerId)
      requires Valid() && Enabled(Status(), Delivered(c))
      modifies this
      ensures Valid() && Status() == Apply(old(Status()), Delivered(c))
    {
      hide Inv;
      StepKeepsInv(Status(), Delivered(c));
      var i := callers[c].eval;
      var done := evals[i].phase.done;
      callers := callers[c := Served(BuildView(done.core, done.deps, cfg.slowThresholdMs), false, i, now, epoch)];
    }

    /** `invalidate()` */
    method InvalidateCache()
      requires Valid()
      modifies this
      ensures Valid() && Status() == Apply(old(Status()), Invalidate)
    {
      hide Inv;
      StepKeepsInv(Status(), Invalidate);
      cache := None;
      epoch := epoch + 1;
    }
  }
}
