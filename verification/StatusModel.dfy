/** The public status model of src/health/public-status.model.ts: the inputs of a snapshot,
    what a snapshot says, and the gates that act on it.

    The snapshot is first defined without any folding: each state is read off from what is
    present among the inputs.  `StatusSnapshot` proves that the loops of
    `computeSystemStatusSnapshot` compute exactly this.  Texts, reasons and dates that fail
    to parse are inputs; regular expressions on free text enter as their outcome. */
module StatusModel {
  import opened Characters
  import DependencyStates
  import opened Wrappers

  // ---------------------------------------------------------------- states

  datatype SystemState = Operational | Degraded | Paused | Maintenance

  function Severity(s: SystemState): int {
    match s
    case Operational => 0
    case Degraded => 1
    case Paused => 2
    case Maintenance => 3
  }

  /** `elevateState(current, candidate)` */
  function Elevate(current: SystemState, candidate: SystemState): SystemState {
    if Severity(candidate) > Severity(current) then candidate else current
  }

  datatype Component =
    | Api | Database | Cache | Trading | Payments | Withdrawals | Defi | Oracle | Reconciliation | BackgroundWorkers

  // ---------------------------------------------------------------- scopes

  function LowerChar(c: char): char {
    if 'A' <= c <= 'Z' then (c as int + 32) as char else c
  }

  /** `toLowerCase()` on ASCII letters. */
  function Lower(s: string): (r: string)
    ensures |r| == |s|
  {
    seq(|s|, i requires 0 <= i < |s| => LowerChar(s[i]))
  }

  function TrimStart(s: string): string {
    if s != [] && IsSpace(s[0]) then TrimStart(s[1..]) else s
  }

  function TrimEnd(s: string): string {
    if s != [] && IsSpace(s[|s| - 1]) then TrimEnd(s[..|s| - 1]) else s
  }

  function Trim(s: string): string {
    TrimEnd(TrimStart(s))
  }

  /** A scope name after lower-casing. */
  datatype Scope =
    | AllScope | TradingScope | PaymentsScope | WithdrawalsScope | DefiScope | OracleScope | ReconciliationScope
    | OtherScope(name: string)

  function ScopeNamed(name: string): Scope {
    if name == "all" then AllScope
    else if name == "trading" then TradingScope
    else if name == "payments" then PaymentsScope
    else if name == "withdrawals" then WithdrawalsScope
    else if name == "defi" then DefiScope
    else if name == "oracle" then OracleScope
    else if name == "reconciliation" then ReconciliationScope
    else OtherScope(name)
  }

  function ScopeOf(text: string): Scope {
    ScopeNamed(Lower(text))
  }

  /** `HIGH_IMPACT_PAUSE_SCOPES` */
  predicate HighImpact(s: Scope) {
    s.AllScope? || s.TradingScope? || s.PaymentsScope? || s.WithdrawalsScope?
  }

  /** `PARTIAL_PAUSE_SCOPES` */
  predicate PartialImpact(s: Scope) {
    s.DefiScope? || s.OracleScope? || s.ReconciliationScope?
  }

  /** `SCOPE_TO_COMPONENT` */
  predicate ScopeCovers(s: Scope, c: Component) {
    match s
    case AllScope => !c.Api? && !c.Database? && !c.Cache?
    case TradingScope => c.Trading?
    case PaymentsScope => c.Payments?
    case WithdrawalsScope => c.Withdrawals?
    case DefiScope => c.Defi?
    case OracleScope => c.Oracle?
    case ReconciliationScope => c.Reconciliation?
    case OtherScope(_) => false
  }

  // ---------------------------------------------------------------- inputs

  /** An optional date: missing, unparseable, or an instant in milliseconds. */
  datatype Stamp = Absent | Invalid | At(ms: int)

  predicate Passed(t: Stamp, now: int) {
    t.At? && t.ms <= now
  }

  /** `maintenanceReason` is the outcome of the reason pattern. */
  datatype Pause = Pause(scope: string, active: Option<bool>, maintenanceReason: bool, expiresAt: Stamp)

  datatype Window = Window(active: bool, estimatedEndAt: Stamp)

  datatype Degradation = Degradation(component: Component, estimatedRecoveryAt: Stamp)

  datatype ReadinessStatus = ReadyOk | ReadyDegraded | ReadyError
  datatype Readiness = Readiness(status: ReadinessStatus, databaseDown: bool, redisDown: bool)

  type DependencyState = DependencyStates.DependencyState
  datatype Check = Check(id: string, state: DependencyState)
  datatype Report = Report(status: DependencyState, advisory: Option<DependencyState>, checks: seq<Check>)

  datatype Input = Input(
    pauses: seq<Pause>,
    window: Option<Window>,
    degradations: seq<Degradation>,
    readiness: Option<Readiness>,
    report: Option<Report>)

  predicate IsActive(p: Pause, now: int) {
    p.active != Some(false) && !Passed(p.expiresAt, now)
  }

  /** The active, non-expired pauses, in order. */
  function ActivePauses(ps: seq<Pause>, now: int): (r: seq<Pause>)
    ensures forall p :: p in r <==> p in ps && IsActive(p, now)
  {
    if ps == [] then []
    else (if IsActive(ps[0], now) then [ps[0]] else []) + ActivePauses(ps[1..], now)
  }

  predicate WindowOpen(i: Input, now: int) {
    i.window.Some? && i.window.value.active && !Passed(i.window.value.estimatedEndAt, now)
  }

  // ---------------------------------------------------------------- contributions

  predicate IsMaintenancePause(p: Pause) {
    ScopeOf(p.scope) == AllScope && p.maintenanceReason
  }

  /** What one active pause does to the overall state. */
  function PauseState(p: Pause): SystemState {
    if IsMaintenancePause(p) then Maintenance
    else if HighImpact(ScopeOf(p.scope)) then Paused
    else Degraded
  }

  /** What one active pause does to a component. */
  function PauseOn(p: Pause, c: Component): SystemState {
    if !ScopeCovers(ScopeOf(p.scope), c) then Operational
    else if IsMaintenancePause(p) then Maintenance
    else Paused
  }

  predicate IsBad(d: DependencyState) {
    d.Degraded? || d.Unavailable? || d.Misconfigured?
  }

  predicate OccursAt(s: string, word: string, k: nat) {
    k + |word| <= |s| && s[k..k + |word|] == word
  }

  predicate Contains(s: string, word: string) {
    exists k :: 0 <= k <= |s| && OccursAt(s, word, k)
  }

  /** Components that a bad check of this id degrades. */
  predicate CheckHits(id: string, c: Component) {
    if id == "database" then c.Database?
    else if id == "redis" then c.Cache?
    else if Contains(id, "stellar") || Contains(id, "horizon") then c.Oracle? || c.Reconciliation?
    else if Contains(id, "eth") || Contains(id, "rpc") then c.Defi?
    else false
  }

  predicate ReadinessImpaired(r: Option<Readiness>) {
    r.Some? && (r.value.databaseDown || r.value.redisDown || !r.value.status.ReadyOk?)
  }

  /** Readiness finds the component down. */
  predicate ReadinessHits(r: Option<Readiness>, c: Component) {
    r.Some? && ((r.value.databaseDown && c.Database?) || (r.value.redisDown && c.Cache?))
  }

  predicate ReportImpaired(r: Option<Report>) {
    r.Some? && (IsBad(r.value.status)
                || (r.value.advisory.Some?
                    && (r.value.advisory.value.Degraded? || r.value.advisory.value.Unavailable?)))
  }

  /** A readiness probe, a dependency check or an operator declares the component degraded. */
  predicate DeclaredDegraded(i: Input, c: Component) {
    || ReadinessHits(i.readiness, c)
    || (i.report.Some? && exists k :: k in i.report.value.checks && IsBad(k.state) && CheckHits(k.id, c))
    || (exists d :: d in i.degradations && d.component == c)
  }

  // ---------------------------------------------------------------- the snapshot, read off

  predicate AnyPause(i: Input, now: int) {
    exists p :: p in i.pauses && IsActive(p, now)
  }

  predicate AllPaused(i: Input, now: int) {
    exists p :: p in i.pauses && IsActive(p, now) && ScopeOf(p.scope) == AllScope
  }

  predicate ScopePaused(i: Input, now: int, s: Scope) {
    exists p :: p in i.pauses && IsActive(p, now) && ScopeOf(p.scope) == s
  }

  predicate InMaintenance(i: Input, now: int) {
    WindowOpen(i, now) || exists p :: p in i.pauses && IsActive(p, now) && IsMaintenancePause(p)
  }

  predicate HighPaused(i: Input, now: int) {
    exists p :: p in i.pauses && IsActive(p, now) && HighImpact(ScopeOf(p.scope))
  }

  predicate Impaired(i: Input, now: int) {
    ReadinessImpaired(i.readiness) || ReportImpaired(i.report) || i.degradations != [] || AnyPause(i, now)
  }

  /** The top-level state. */
  function Overall(i: Input, now: int): SystemState {
    if InMaintenance(i, now) then Maintenance
    else if HighPaused(i, now) then Paused
    else if Impaired(i, now) then Degraded
    else Operational
  }

  predicate ComponentPaused(i: Input, now: int, c: Component) {
    exists p :: p in i.pauses && IsActive(p, now) && ScopeCovers(ScopeOf(p.scope), c)
  }

  predicate ComponentInMaintenance(i: Input, now: int, c: Component) {
    || WindowOpen(i, now)
    || exists p :: p in i.pauses && IsActive(p, now) && IsMaintenancePause(p) && ScopeCovers(ScopeOf(p.scope), c)
  }

  /** The state of one component. */
  function ComponentState(i: Input, now: int, c: Component): SystemState {
    if c.Api? then Overall(i, now)
    else if c.BackgroundWorkers? then
      if InMaintenance(i, now) then Maintenance
      else if AllPaused(i, now) then Paused
      else if Overall(i, now) != Operational then Degraded
      else Operational
    else if ComponentInMaintenance(i, now, c) then Maintenance
    else if ComponentPaused(i, now, c) then Paused
    else if DeclaredDegraded(i, c) then Degraded
    else Operational
  }

  datatype Capabilities = Capabilities(
    readOnly: bool,
    tradingEnabled: bool, paymentsEnabled: bool, withdrawalsEnabled: bool,
    defiEnabled: bool, oracleEnabled: bool, reconciliationEnabled: bool,
    backgroundJobsProcessing: bool)

  predicate Halted(i: Input, now: int) {
    InMaintenance(i, now) || AllPaused(i, now)
  }

  function CapabilitiesOf(i: Input, now: int): Capabilities {
    var halted := Halted(i, now);
    Capabilities(
      halted,
      !halted && !ScopePaused(i, now, TradingScope),
      !halted && !ScopePaused(i, now, PaymentsScope),
      !halted && !ScopePaused(i, now, WithdrawalsScope),
      !halted && !ScopePaused(i, now, DefiScope),
      !halted && !ScopePaused(i, now, OracleScope),
      !halted && !ScopePaused(i, now, ReconciliationScope),
      !halted)
  }

  datatype PausedScope = PausedScope(scope: Scope, state: SystemState)

  function PausedScopesOf(ps: seq<Pause>): (r: seq<PausedScope>)
    ensures |r| == |ps|
  {
    seq(|ps|, k requires 0 <= k < |ps| =>
      PausedScope(ScopeOf(ps[k].scope), if IsMaintenancePause(ps[k]) then Maintenance else Paused))
  }

  // ---------------------------------------------------------------- retry hints

  /** `computeRetryAfterSeconds`: whole seconds until `t`, if that is in the future. */
  function RetrySeconds(t: Stamp, now: int): Option<int> {
    if t.At? then
      var seconds := -((now - t.ms) / 1000);
      if seconds > 0 then Some(seconds) else None
    else None
  }

  /** The instants a client may wait for. */
  predicate IsCandidate(i: Input, now: int, t: Stamp) {
    || (exists d :: d in i.degradations && d.estimatedRecoveryAt == t)
    || (exists p :: p in i.pauses && IsActive(p, now) && p.expiresAt == t)
    || (WindowOpen(i, now) && i.window.value.estimatedEndAt == t)
  }

  ghost predicate IsHint(i: Input, now: int, seconds: int) {
    exists t :: IsCandidate(i, now, t) && RetrySeconds(t, now) == Some(seconds)
  }

  /** The earliest declared end, or a default for the state. */
  ghost predicate RetryAfterOk(i: Input, now: int, r: Option<int>) {
    if exists s :: IsHint(i, now, s)
    then r.Some? && IsHint(i, now, r.value) && forall s :: IsHint(i, now, s) ==> r.value <= s
    else r == DefaultRetry(Overall(i, now))
  }

  function DefaultRetry(s: SystemState): Option<int> {
    match s
    case Maintenance => Some(300)
    case Paused => Some(60)
    case _ => None
  }

  // ---------------------------------------------------------------- the published status

  datatype PublicStatus = PublicStatus(
    state: SystemState,
    httpStatusCode: int,
    retryAfterSeconds: Option<int>,
    pausedScopes: seq<PausedScope>,
    components: map<Component, SystemState>,
    capabilities: Capabilities)

  /** `s` is the snapshot of the inputs at `now`. */
  ghost predicate Describes(s: PublicStatus, i: Input, now: int) {
    && s.state == Overall(i, now)
    && s.httpStatusCode == (if Halted(i, now) then 503 else 200)
    && RetryAfterOk(i, now, s.retryAfterSeconds)
    && s.pausedScopes == PausedScopesOf(ActivePauses(i.pauses, now))
    && (forall c: Component :: c in s.components && s.components[c] == ComponentState(i, now, c))
    && s.capabilities == CapabilitiesOf(i, now)
  }

  // ---------------------------------------------------------------- gates

  /** `statusRoute` is the outcome of the route pattern. */
  datatype ApiContext = ApiContext(verb: string, statusRoute: bool, scope: Option<string>, actorRoles: seq<string>)

  datatype Bypass = StatusRoute | ReadOnlyMethod | AdminOverride

  datatype ApiDecision = ApiDecision(allowed: bool, bypass: Option<Bypass>, statusCode: int, retryAfter: Option<int>)

  function UpperChar(c: char): char {
    if 'a' <= c <= 'z' then (c as int - 32) as char else c
  }

  function Upper(s: string): string {
    seq(|s|, i requires 0 <= i < |s| => UpperChar(s[i]))
  }

  predicate ReadsOnly(verb: string) {
    var m := Upper(if verb == "" then "GET" else verb);
    m == "GET" || m == "HEAD" || m == "OPTIONS"
  }

  predicate IsAdmin(roles: seq<string>) {
    exists k :: 0 <= k < |roles| && Upper(roles[k]) == "ADMIN"
  }

  /** `pausedScopes.find((p) => p.scope === scope || p.scope === "all")` */
  predicate PauseMatches(ps: seq<PausedScope>, s: Scope) {
    exists k :: 0 <= k < |ps| && (ps[k].scope == s || ps[k].scope == AllScope)
  }

  /** `evaluateApiRequestGate(publicStatus, context)` */
  function ApiGate(s: PublicStatus, c: ApiContext): ApiDecision {
    if c.statusRoute then ApiDecision(true, Some(StatusRoute), 200, s.retryAfterSeconds)
    else if ReadsOnly(c.verb) then ApiDecision(true, Some(ReadOnlyMethod), 200, s.retryAfterSeconds)
    else if IsAdmin(c.actorRoles) then ApiDecision(true, Some(AdminOverride), 200, s.retryAfterSeconds)
    else if s.state == Maintenance || s.capabilities.readOnly then
      ApiDecision(false, None, 503, Some(if s.retryAfterSeconds.Some? then s.retryAfterSeconds.value else 300))
    else if c.scope.Some? && c.scope.value != "" && PauseMatches(s.pausedScopes, ScopeOf(c.scope.value)) then
      ApiDecision(false, None, 503, Some(if s.retryAfterSeconds.Some? then s.retryAfterSeconds.value else 60))
    else ApiDecision(true, None, 200, s.retryAfterSeconds)
  }

  /** The job type `area.action`. */
  predicate Is(jobType: string, area: string, action: string) {
    jobType == area + "." + action
  }

  /** `JOB_TYPE_TO_SCOPE` */
  function KnownJobScope(jobType: string): Option<Scope> {
    if Is(jobType, "trading", "execute") || Is(jobType, "trading", "order") then Some(TradingScope)
    else if Is(jobType, "payments", "settle") || Is(jobType, "payments", "process") then Some(PaymentsScope)
    else if Is(jobType, "withdrawals", "process") then Some(WithdrawalsScope)
    else if Is(jobType, "defi", "rebalance") || Is(jobType, "defi", "harvest") then Some(DefiScope)
    else if Is(jobType, "oracle", "submit") || Is(jobType, "oracle", "price_feed") then Some(OracleScope)
    else if Is(jobType, "reconciliation", "sync") then Some(ReconciliationScope)
    else if Is(jobType, "webhook", "delivery") then Some(OtherScope("webhooks"))
    else if Is(jobType, "email", "send") then Some(OtherScope("notifications"))
    else if Is(jobType, "data", "export") then Some(OtherScope("exports"))
    else None
  }

  /** `s.split(".")[0]` */
  function BeforeDot(s: string): string {
    if s == [] || s[0] == '.' then [] else [s[0]] + BeforeDot(s[1..])
  }

  /** `resolveJobScope(jobType, explicitScope)` */
  function ResolveJobScope(jobType: string, explicitScope: Option<string>): Scope {
    if explicitScope.Some? && Trim(explicitScope.value) != "" then ScopeOf(Trim(explicitScope.value))
    else
      var normalized := Lower(Trim(jobType));
      if KnownJobScope(normalized).Some? then KnownJobScope(normalized).value
      else
        var prefix := ScopeNamed(BeforeDot(normalized));
        if HighImpact(prefix) || PartialImpact(prefix) then prefix else OtherScope("background")
  }

  datatype JobContext = JobContext(jobType: string, scope: Option<string>, isEssentialRecovery: bool)

  datatype JobDecision = Execute | ExecuteWithBackoff | Defer

  datatype JobOutcome = JobOutcome(decision: JobDecision, resolvedScope: Scope, backoffMultiplier: int, delayMs: int)

  /** `evaluateBackgroundJobGate(publicStatus, context)` */
  function JobGate(s: PublicStatus, c: JobContext): JobOutcome {
    var scope := ResolveJobScope(c.jobType, c.scope);
    if c.isEssentialRecovery then JobOutcome(Execute, scope, 1, 0)
    else if s.state == Maintenance || !s.capabilities.backgroundJobsProcessing then
      JobOutcome(Defer, scope, 1, 1000 * (if s.retryAfterSeconds.Some? then s.retryAfterSeconds.value else 300))
    else if PauseMatches(s.pausedScopes, scope) then
      JobOutcome(Defer, scope, 1, 1000 * (if s.retryAfterSeconds.Some? then s.retryAfterSeconds.value else 60))
    else if s.state == Degraded then JobOutcome(ExecuteWithBackoff, scope, 2, 2000)
    else JobOutcome(Execute, scope, 1, 0)
  }
}
