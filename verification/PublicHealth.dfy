/** The public health endpoint of src/health/public-health.service.ts as a step system.

    Callers share one evaluation at a time, an evaluation probes the core again
    before it reports an outage, and a verdict is cached for a short while.  One
    step is the code between two awaits; probe results, the clock and the order of
    steps are arbitrary. */
module PublicHealth {
  import opened DependencyStates
  import opened Wrappers

  // ---------------------------------------------------------------- the view

  datatype CoreProbe = CoreProbe(up: bool, responseTime: Option<int>)

  /** What `probeCore` returns; `redis` is absent when it is not configured. */
  datatype Core = Core(database: CoreProbe, redis: Option<CoreProbe>)

  datatype Summary = Summary(status: DependencyState, advisory: DependencyState)

  datatype CheckStatus = CheckUp | CheckDegraded | CheckDown | CheckDisabled
  datatype Verdict = VerdictOk | VerdictDegraded | VerdictDown

  datatype View = View(
    status: Verdict, database: CheckStatus, cache: CheckStatus,
    external: CheckStatus, optional: CheckStatus)

  function CoreStatus(p: CoreProbe, slowThresholdMs: int): CheckStatus {
    if !p.up then CheckDown
    else if p.responseTime.Some? && p.responseTime.value > slowThresholdMs then CheckDegraded
    else CheckUp
  }

  function DependencyStatus(d: DependencyState): CheckStatus {
    match d
    case Healthy => CheckUp
    case Disabled => CheckDisabled
    case Degraded => CheckDegraded
    case Unavailable => CheckDown
    case Misconfigured => CheckDown
  }

  /** `buildPublicHealthView`; an absent summary means the dependency check itself failed. */
  function BuildView(core: Core, deps: Option<Summary>, slowThresholdMs: int): View {
    var database := CoreStatus(core.database, slowThresholdMs);
    var cache := if core.redis.Some? then CoreStatus(core.redis.value, slowThresholdMs) else CheckDisabled;
    var external := if deps.Some? then DependencyStatus(deps.value.status) else CheckDegraded;
    var optional := if deps.Some? then DependencyStatus(deps.value.advisory) else CheckDegraded;
    var criticalDown := database.CheckDown? || cache.CheckDown? || external.CheckDown?;
    var impaired := Impaired(database) || Impaired(cache) || Impaired(external) || Impaired(optional);
    View(if criticalDown then VerdictDown else if impaired then VerdictDegraded else VerdictOk,
         database, cache, external, optional)
  }

  predicate Impaired(c: CheckStatus) {
    c.CheckDown? || c.CheckDegraded?
  }

  /** `coreDown(core)` */
  predicate CoreDown(core: Core) {
    !core.database.up || (core.redis.Some? && !core.redis.value.up)
  }

  predicate ReportsCoreDown(v: View) {
    v.database.CheckDown? || v.cache.CheckDown?
  }

  // ---------------------------------------------------------------- the step system

  type EvalId = nat
  type CallerId = nat

  datatype Config = Config(cacheTtlMs: nat, probeRetries: nat, retryDelayMs: nat, slowThresholdMs: int)

  /** What an evaluation ended with: its last probe, the dependency summary, when, and
      how many invalidations had happened by then. */
  datatype Completion = Completion(core: Core, deps: Option<Summary>, at: int, epoch: nat)

  /** Which await of `evaluate` is pending; `Settled` is after `evaluate` returned and
      before the `finally` callback, `Finished` after that. */
  datatype EvalPhase =
    | Probing
    | Sleeping
    | Summarising
    | Settled(done: Completion)
    | Finished(done: Completion)

  /** One call of `evaluate`: `seen` are its probe results so far. */
  datatype Eval = Eval(phase: EvalPhase, attempt: nat, seen: seq<Core>, startedAt: int, startedEpoch: nat)

  /** `from` tells which evaluation stored the entry. */
  datatype CacheEntry = CacheEntry(view: View, expiresAt: int, from: EvalId)

  datatype CallerPhase =
    | Awaiting(eval: EvalId)
    | Served(view: View, cached: bool, from: EvalId, at: int, epoch: nat)

  datatype State = State(
    cfg: Config,
    cache: Option<CacheEntry>,
    inFlight: Option<EvalId>,
    evals: seq<Eval>,
    callers: map<CallerId, CallerPhase>,
    now: int,
    epoch: nat)

  function Init(cfg: Config, now: int): State {
    State(cfg, None, None, [], map[], now, 0)
  }

  datatype Event =
    | Call(c: CallerId)                        // getHealth up to its await
    | Probed(i: EvalId, core: Core)            // a core probe returns
    | Woken(i: EvalId)                         // the retry delay is over
    | Summarised(i: EvalId, deps: Option<Summary>) // the dependency probe returns
    | FlightEnds(i: EvalId)                    // the finally callback
    | Delivered(c: CallerId)                   // an awaiting caller resumes
    | Invalidate
    | Tick(to: int)

  predicate Running(s: State, i: EvalId, p: EvalPhase) {
    i < |s.evals| && s.evals[i].phase == p
  }

  predicate Enabled(s: State, e: Event) {
    match e
    case Call(c) => c !in s.callers
    case Probed(i, _) => Running(s, i, Probing)
    case Woken(i) => Running(s, i, Sleeping)
    case Summarised(i, _) => Running(s, i, Summarising) && s.evals[i].seen != []
    case FlightEnds(i) => i < |s.evals| && s.evals[i].phase.Settled?
    case Delivered(c) =>
      && c in s.callers && s.callers[c].Awaiting?
      && s.callers[c].eval < |s.evals| && s.evals[s.callers[c].eval].phase.Finished?
    case Invalidate => true
    case Tick(to) => s.now <= to
  }

  function ViewOf(s: State, done: Completion): View {
    BuildView(done.core, done.deps, s.cfg.slowThresholdMs)
  }

  predicate CacheAnswers(s: State) {
    s.cache.Some? && s.cache.value.expiresAt > s.now
  }

  function CallStep(s: State, c: CallerId): State {
    if CacheAnswers(s) then
      s.(callers := s.callers[c := Served(s.cache.value.view, true, s.cache.value.from, s.now, s.epoch)])
    else if s.inFlight.Some? then
      s.(callers := s.callers[c := Awaiting(s.inFlight.value)])
    else
      s.(evals := s.evals + [Eval(Probing, 0, [], s.now, s.epoch)],
         inFlight := Some(|s.evals|),
         callers := s.callers[c := Awaiting(|s.evals|)])
  }

  /** The head of the retry loop, with one more probe result. */
  function AfterProbe(cfg: Config, e: Eval, core: Core): Eval {
    var seen := e.seen + [core];
    if CoreDown(core) && e.attempt < cfg.probeRetries then
      e.(phase := if cfg.retryDelayMs > 0 then Sleeping else Probing, attempt := e.attempt + 1, seen := seen)
    else
      e.(phase := Summarising, seen := seen)
  }

  function SummaryStep(s: State, i: EvalId, deps: Option<Summary>): State
    requires Enabled(s, Summarised(i, deps))
  {
    var e := s.evals[i];
    var done := Completion(e.seen[|e.seen| - 1], deps, s.now, s.epoch);
    s.(evals := s.evals[i := e.(phase := Settled(done))],
       cache := if s.cfg.cacheTtlMs > 0 then Some(CacheEntry(ViewOf(s, done), s.now + s.cfg.cacheTtlMs, i))
                else s.cache)
  }

  function Apply(s: State, e: Event): State
    requires Enabled(s, e)
  {
    match e
    case Call(c) => CallStep(s, c)
    case Probed(i, core) => s.(evals := s.evals[i := AfterProbe(s.cfg, s.evals[i], core)])
    case Woken(i) => s.(evals := s.evals[i := s.evals[i].(phase := Probing)])
    case Summarised(i, deps) => SummaryStep(s, i, deps)
    case FlightEnds(i) =>
      s.(evals := s.evals[i := s.evals[i].(phase := Finished(s.evals[i].phase.done))], inFlight := None)
    case Delivered(c) =>
      var i := s.callers[c].eval;
      s.(callers := s.callers[c := Served(ViewOf(s, s.evals[i].phase.done), false, i, s.now, s.epoch)])
    case Invalidate => s.(cache := None, epoch := s.epoch + 1)
    case Tick(to) => s.(now := to)
  }

  // ---------------------------------------------------------------- what every step keeps

  predicate AllDown(cores: seq<Core>) {
    forall k :: 0 <= k < |cores| ==> CoreDown(cores[k])
  }

  predicate Completed(e: Eval) {
    e.phase.Settled? || e.phase.Finished?
  }

  /** The retry loop of one evaluation: it goes on only past failures, stops at the first
      success, and never makes more than `probeRetries + 1` probes. */
  predicate EvalOk(cfg: Config, e: Eval) {
    && e.attempt <= cfg.probeRetries
    && (e.phase.Probing? || e.phase.Sleeping? ==> |e.seen| == e.attempt && AllDown(e.seen))
    && (e.phase.Summarising? || Completed(e) ==>
          && |e.seen| == e.attempt + 1
          && AllDown(e.seen[..e.attempt])
          && (CoreDown(e.seen[e.attempt]) ==> e.attempt == cfg.probeRetries))
    && (Completed(e) ==> e.phase.done.core == e.seen[|e.seen| - 1])
  }

  ghost predicate EvalsOk(s: State) {
    forall i :: 0 <= i < |s.evals| ==> EvalOk(s.cfg, s.evals[i])
  }

  /** Only the evaluation in flight is unfinished. */
  ghost predicate SingleFlight(s: State) {
    && (s.inFlight.Some? ==> s.inFlight.value < |s.evals| && !s.evals[s.inFlight.value].phase.Finished?)
    && (forall i :: 0 <= i < |s.evals| && !s.evals[i].phase.Finished? ==> s.inFlight == Some(i))
    && (s.inFlight.Some? ==> s.inFlight.value == |s.evals| - 1)
  }

  /** Times and invalidation counts of evaluations lie in the past. */
  ghost predicate Past(s: State) {
    forall i :: 0 <= i < |s.evals| ==>
      && s.evals[i].startedAt <= s.now && s.evals[i].startedEpoch <= s.epoch
      && (Completed(s.evals[i]) ==>
            && s.evals[i].startedAt <= s.evals[i].phase.done.at <= s.now
            && s.evals[i].startedEpoch <= s.evals[i].phase.done.epoch <= s.epoch)
  }

  /** A cache entry is the verdict of a completed evaluation, stored since the last
      invalidation, and expires `cacheTtlMs` after it. */
  ghost predicate CacheOk(s: State) {
    s.cache.Some? ==>
      var i := s.cache.value.from;
      && i < |s.evals| && Completed(s.evals[i])
      && s.cache.value.view == ViewOf(s, s.evals[i].phase.done)
      && s.cache.value.expiresAt == s.evals[i].phase.done.at + s.cfg.cacheTtlMs
      && s.evals[i].phase.done.epoch == s.epoch
  }

  /** Unless it was invalidated since, the last verdict is in the cache. */
  ghost predicate LastCached(s: State) {
    s.evals != [] && Completed(s.evals[|s.evals| - 1]) && s.cfg.cacheTtlMs > 0
      && s.evals[|s.evals| - 1].phase.done.epoch == s.epoch
    ==> s.cache.Some? && s.cache.value.from == |s.evals| - 1
  }

  /** A new evaluation starts only when the previous verdict has expired or was invalidated. */
  ghost predicate Paced(s: State) {
    forall i :: 0 <= i && i + 1 < |s.evals| ==> PacedAt(s, i)
  }

  ghost predicate PacedAt(s: State, i: nat)
    requires i + 1 < |s.evals|
  {
    && Completed(s.evals[i])
    && (s.evals[i + 1].startedEpoch == s.evals[i].phase.done.epoch ==>
          s.evals[i].phase.done.at + s.cfg.cacheTtlMs <= s.evals[i + 1].startedAt)
  }

  /** What a caller was given, or is waiting for. */
  ghost predicate CallerOk(s: State, p: CallerPhase) {
    match p
    case Awaiting(i) => i < |s.evals|
    case Served(view, cached, i, at, epoch) =>
      && i < |s.evals| && Completed(s.evals[i])
      && view == ViewOf(s, s.evals[i].phase.done)
      && (cached ==> at < s.evals[i].phase.done.at + s.cfg.cacheTtlMs && epoch == s.evals[i].phase.done.epoch)
      && s.evals[i].phase.done.at <= at
  }

  ghost predicate CallersOk(s: State) {
    forall c :: c in s.callers ==> CallerOk(s, s.callers[c])
  }

  ghost predicate Inv(s: State) {
    EvalsOk(s) && SingleFlight(s) && Past(s) && CacheOk(s) && LastCached(s) && Paced(s) && CallersOk(s)
  }
}
