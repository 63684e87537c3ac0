/** `computeSystemStatusSnapshot` of src/health/public-status.model.ts, with its loops, proved
    to publish what the inputs say. */
module StatusSnapshot {
  import DependencyStates
  import opened StatusModel
  import opened Wrappers

  type Components = map<Component, SystemState>

  ghost predicate Total(m: Components) {
    forall c: Component :: c in m
  }

  // ---------------------------------------------------------------- joins

  lemma ElevateLaws(a: SystemState, b: SystemState, c: SystemState)
    ensures Elevate(a, Elevate(b, c)) == Elevate(Elevate(a, b), c)
    ensures Elevate(a, b) == Elevate(b, a)
    ensures Elevate(a, a) == a && Elevate(a, Operational) == a
    ensures Severity(a) <= Severity(Elevate(a, b))
  {
  }

  /** What a list of active pauses does to the overall state. */
  function PausesState(ps: seq<Pause>): SystemState {
    if exists p :: p in ps && IsMaintenancePause(p) then Maintenance
    else if exists p :: p in ps && HighImpact(ScopeOf(p.scope)) then Paused
    else if ps != [] then Degraded
    else Operational
  }

  /** What a list of active pauses does to a component. */
  function PausesOn(ps: seq<Pause>, c: Component): SystemState {
    if exists p :: p in ps && IsMaintenancePause(p) && ScopeCovers(ScopeOf(p.scope), c) then Maintenance
    else if exists p :: p in ps && ScopeCovers(ScopeOf(p.scope), c) then Paused
    else Operational
  }

  lemma PausesStateStep(ps: seq<Pause>, p: Pause)
    ensures PausesState(ps + [p]) == Elevate(PausesState(ps), PauseState(p))
  {
    hide ScopeOf;
    assert forall q :: q in ps + [p] <==> q in ps || q == p;
    assert p in ps + [p];
  }

  lemma PausesOnStep(ps: seq<Pause>, p: Pause, c: Component)
    ensures PausesOn(ps + [p], c) == Elevate(PausesOn(ps, c), PauseOn(p, c))
  {
    hide ScopeOf, ScopeCovers, IsMaintenancePause;
    assert forall q :: q in ps + [p] <==> q in ps || q == p;
    assert p in ps + [p];
  }

  /** Bad checks of a prefix hit the component. */
  predicate ChecksHit(checks: seq<Check>, c: Component) {
    exists k :: k in checks && IsBad(k.state) && CheckHits(k.id, c)
  }

  predicate DegradationsHit(ds: seq<Degradation>, c: Component) {
    exists d :: d in ds && d.component == c
  }

  lemma ChecksHitStep(checks: seq<Check>, k: Check, c: Component)
    ensures ChecksHit(checks + [k], c) == (ChecksHit(checks, c) || (IsBad(k.state) && CheckHits(k.id, c)))
  {
    hide CheckHits, IsBad;
    assert forall j :: j in checks + [k] <==> j in checks || j == k;
    assert k in checks + [k];
  }

  lemma DegradationsHitStep(ds: seq<Degradation>, d: Degradation, c: Component)
    ensures DegradationsHit(ds + [d], c) == (DegradationsHit(ds, c) || d.component == c)
  {
    assert forall j :: j in ds + [d] <==> j in ds || j == d;
    assert d in ds + [d];
  }

  function Mark(b: bool): SystemState {
    if b then Degraded else Operational
  }

  // ---------------------------------------------------------------- the loops

  /** Component map with one state raised. */
  function Raise(m: Components, c: Component, s: SystemState): Components
    requires c in m
  {
    m[c := Elevate(m[c], s)]
  }

  const ALL_COMPONENTS := [
    Api, Database, Cache, Trading, Payments, Withdrawals, Defi, Oracle, Reconciliation, BackgroundWorkers]

  lemma AllComponentsListed(c: Component)
    ensures c in ALL_COMPONENTS
  {
    var k := match c
      case Api => 0 case Database => 1 case Cache => 2 case Trading => 3 case Payments => 4
      case Withdrawals => 5 case Defi => 6 case Oracle => 7 case Reconciliation => 8 case BackgroundWorkers => 9;
    assert ALL_COMPONENTS[k] == c;
  }

  /** Every component starts out operational. */
  method AllOperational() returns (m: Components)
    ensures Total(m) && forall c: Component :: m[c] == Operational
  {
    m := map[];
    for n := 0 to |ALL_COMPONENTS|
      invariant forall k :: 0 <= k < n ==> ALL_COMPONENTS[k] in m && m[ALL_COMPONENTS[k]] == Operational
    {
      m := m[ALL_COMPONENTS[n] := Operational];
    }
    forall c: Component ensures c in m && m[c] == Operational {
      AllComponentsListed(c);
    }
  }

  method EvaluateReadiness(r: Option<Readiness>) returns (overall: SystemState, m: Components)
    ensures overall == Mark(ReadinessImpaired(r))
    ensures Total(m)
    ensures forall c: Component :: m[c] == Mark(ReadinessHits(r, c))
  {
    overall := Operational;
    m := AllOperational();
    if r.Some? {
      if r.value.databaseDown {
        m := m[Database := Degraded];
        overall := Elevate(overall, Degraded);
      }
      if r.value.redisDown {
        m := m[Cache := Degraded];
        overall := Elevate(overall, Degraded);
      }
      if r.value.status.ReadyDegraded? || r.value.status.ReadyError? {
        overall := Elevate(overall, Degraded);
      }
    }
  }

  method EvaluateCheck(m0: Components, k: Check) returns (m: Components)
    requires Total(m0)
    ensures Total(m)
    ensures forall c: Component :: m[c] == Elevate(m0[c], Mark(IsBad(k.state) && CheckHits(k.id, c)))
  {
    m := m0;
    if IsBad(k.state) {
      if k.id == "database" {
        m := Raise(m, Database, Degraded);
      } else if k.id == "redis" {
        m := Raise(m, Cache, Degraded);
      } else if Contains(k.id, "stellar") || Contains(k.id, "horizon") {
        m := Raise(m, Oracle, Degraded);
        m := Raise(m, Reconciliation, Degraded);
      } else if Contains(k.id, "eth") || Contains(k.id, "rpc") {
        m := Raise(m, Defi, Degraded);
      }
    }
  }

  method EvaluateChecks(m0: Components, checks: seq<Check>) returns (m: Components)
    requires Total(m0)
    ensures Total(m)
    ensures forall c: Component :: m[c] == Elevate(m0[c], Mark(ChecksHit(checks, c)))
  {
    hide CheckHits, IsBad;
    m := m0;
    for n := 0 to |checks|
      invariant Total(m)
      invariant forall c: Component :: m[c] == Elevate(m0[c], Mark(ChecksHit(checks[..n], c)))
    {
      ghost var before := m;
      m := EvaluateCheck(m, checks[n]);
      forall c: Component ensures m[c] == Elevate(m0[c], Mark(ChecksHit(checks[..n + 1], c))) {
        assert checks[..n + 1] == checks[..n] + [checks[n]];
        ChecksHitStep(checks[..n], checks[n], c);
        assert before[c] == Elevate(m0[c], Mark(ChecksHit(checks[..n], c)));
      }
    }
    assert checks[..|checks|] == checks;
  }

  method EvaluateDegradations(overall0: SystemState, m0: Components, ds: seq<Degradation>)
    returns (overall: SystemState, m: Components)
    requires Total(m0)
    ensures overall == Elevate(overall0, Mark(ds != []))
    ensures Total(m)
    ensures forall c: Component :: m[c] == Elevate(m0[c], Mark(DegradationsHit(ds, c)))
  {
    overall, m := overall0, m0;
    for n := 0 to |ds|
      invariant overall == Elevate(overall0, Mark(n > 0))
      invariant Total(m)
      invariant forall c: Component :: m[c] == Elevate(m0[c], Mark(DegradationsHit(ds[..n], c)))
    {
      ghost var before := m;
      m := Raise(m, ds[n].component, Degraded);
      overall := Elevate(overall, Degraded);
      forall c: Component ensures m[c] == Elevate(m0[c], Mark(DegradationsHit(ds[..n + 1], c))) {
        assert ds[..n + 1] == ds[..n] + [ds[n]];
        DegradationsHitStep(ds[..n], ds[n], c);
        assert before[c] == Elevate(m0[c], Mark(DegradationsHit(ds[..n], c)));
      }
    }
    assert ds[..|ds|] == ds;
  }

  /** The components a scope maps to, in table order. */
  function MappedComponents(s: Scope): seq<Component> {
    match s
    case AllScope => [Trading, Payments, Withdrawals, Defi, Oracle, Reconciliation, BackgroundWorkers]
    case TradingScope => [Trading]
    case PaymentsScope => [Payments]
    case WithdrawalsScope => [Withdrawals]
    case DefiScope => [Defi]
    case OracleScope => [Oracle]
    case ReconciliationScope => [Reconciliation]
    case OtherScope(_) => []
  }

  lemma MappedExactly(s: Scope, c: Component)
    ensures c in MappedComponents(s) <==> ScopeCovers(s, c)
  {
    if s.AllScope? && ScopeCovers(s, c) {
      var k := match c
        case Trading => 0 case Payments => 1 case Withdrawals => 2 case Defi => 3
        case Oracle => 4 case Reconciliation => 5 case _ => 6;
      assert MappedComponents(s)[k] == c;
    }
  }

  /** `for (const compId of mappedComponents) components[compId].state = elevateState(...)` */
  method RaiseAll(m0: Components, cs: seq<Component>, s: SystemState) returns (m: Components)
    requires Total(m0)
    ensures Total(m)
    ensures forall c: Component :: m[c] == if c in cs then Elevate(m0[c], s) else m0[c]
  {
    m := m0;
    for n := 0 to |cs|
      invariant Total(m)
      invariant forall c: Component :: m[c] == if c in cs[..n] then Elevate(m0[c], s) else m0[c]
    {
      m := Raise(m, cs[n], s);
      assert cs[..n + 1] == cs[..n] + [cs[n]];
    }
    assert cs[..|cs|] == cs;
  }

  method EvaluatePause(overall0: SystemState, m0: Components, p: Pause) returns (overall: SystemState, m: Components)
    requires Total(m0)
    ensures overall == Elevate(overall0, PauseState(p))
    ensures Total(m)
    ensures forall c: Component :: m[c] == Elevate(m0[c], PauseOn(p, c))
  {
    hide ScopeCovers, MappedComponents;
    var scope := ScopeOf(p.scope);
    var pauseIsMaintenance := scope == AllScope && p.maintenanceReason;
    var scopeState := if pauseIsMaintenance then Maintenance else Paused;
    m := RaiseAll(m0, MappedComponents(scope), scopeState);
    forall c: Component ensures m[c] == Elevate(m0[c], PauseOn(p, c)) {
      MappedExactly(scope, c);
    }
    if pauseIsMaintenance {
      overall := Elevate(overall0, Maintenance);
    } else if HighImpact(scope) {
      overall := Elevate(overall0, Paused);
    } else {
      overall := Elevate(overall0, Degraded);
    }
  }

  method EvaluatePauses(overall0: SystemState, m0: Components, ps: seq<Pause>)
    returns (overall: SystemState, m: Components)
    requires Total(m0)
    ensures overall == Elevate(overall0, PausesState(ps))
    ensures Total(m)
    ensures forall c: Component :: m[c] == Elevate(m0[c], PausesOn(ps, c))
  {
    hide PauseState, PauseOn, PausesState, PausesOn;
    overall, m := overall0, m0;
    NoPauses();
    for n := 0 to |ps|
      invariant overall == Elevate(overall0, PausesState(ps[..n]))
      invariant Total(m)
      invariant forall c: Component :: m[c] == Elevate(m0[c], PausesOn(ps[..n], c))
    {
      ghost var before := m;
      overall, m := EvaluatePause(overall, m, ps[n]);
      assert ps[..n + 1] == ps[..n] + [ps[n]];
      PausesStateStep(ps[..n], ps[n]);
      forall c: Component ensures m[c] == Elevate(m0[c], PausesOn(ps[..n + 1], c)) {
        PausesOnStep(ps[..n], ps[n], c);
        assert before[c] == Elevate(m0[c], PausesOn(ps[..n], c));
      }
    }
    assert ps[..|ps|] == ps;
  }

  lemma NoPauses()
    ensures PausesState([]) == Operational && forall c :: PausesOn([], c) == Operational
  {
  }

  /** `components[compId].state = "maintenance"` for every component. */
  method EnterMaintenance(m0: Components) returns (m: Components)
    requires Total(m0)
    ensures Total(m) && forall c: Component :: m[c] == Maintenance
  {
    m := m0;
    for n := 0 to |ALL_COMPONENTS|
      invariant Total(m)
      invariant forall k :: 0 <= k < n ==> m[ALL_COMPONENTS[k]] == Maintenance
    {
      m := m[ALL_COMPONENTS[n] := Maintenance];
    }
    forall c: Component ensures m[c] == Maintenance {
      AllComponentsListed(c);
    }
  }

  // ---------------------------------------------------------------- retry hints

  /** The smallest hint so far. */
  function MinHint(a: Option<int>, b: Option<int>): Option<int> {
    if a.None? then b else if b.None? then a else if a.value <= b.value then a else b
  }

  function DegradationHints(ds: seq<Degradation>, now: int): Option<int> {
    if ds == [] then None
    else MinHint(DegradationHints(ds[..|ds| - 1], now), RetrySeconds(ds[|ds| - 1].estimatedRecoveryAt, now))
  }

  function PauseHints(ps: seq<Pause>, now: int): Option<int> {
    if ps == [] then None
    else MinHint(PauseHints(ps[..|ps| - 1], now), RetrySeconds(ps[|ps| - 1].expiresAt, now))
  }

  /** `r` is the least seconds-to-go over the stamps in `ts`. */
  ghost predicate IsLeast(ts: set<Stamp>, now: int, r: Option<int>) {
    && (r.Some? ==> exists t :: t in ts && RetrySeconds(t, now) == r)
    && (forall t :: t in ts && RetrySeconds(t, now).Some? ==> r.Some? && r.value <= RetrySeconds(t, now).value)
  }

  lemma LeastUnion(a: set<Stamp>, b: set<Stamp>, now: int, r: Option<int>, s: Option<int>)
    requires IsLeast(a, now, r) && IsLeast(b, now, s)
    ensures IsLeast(a + b, now, MinHint(r, s))
  {
    hide RetrySeconds;
  }

  lemma LeastOne(t: Stamp, now: int)
    ensures IsLeast({t}, now, RetrySeconds(t, now))
  {
    hide RetrySeconds;
    assert t in {t};
  }

  function RecoveryStamps(ds: seq<Degradation>): set<Stamp> {
    set d | d in ds :: d.estimatedRecoveryAt
  }

  function ExpiryStamps(ps: seq<Pause>): set<Stamp> {
    set p | p in ps :: p.expiresAt
  }

  lemma {:induction false} DegradationHintsLeast(ds: seq<Degradation>, now: int)
    ensures IsLeast(RecoveryStamps(ds), now, DegradationHints(ds, now))
  {
    if ds != [] {
      var front, last := ds[..|ds| - 1], ds[|ds| - 1];
      DegradationHintsLeast(front, now);
      LeastOne(last.estimatedRecoveryAt, now);
      LeastUnion(RecoveryStamps(front), {last.estimatedRecoveryAt}, now,
                 DegradationHints(front, now), RetrySeconds(last.estimatedRecoveryAt, now));
      assert ds == front + [last];
      assert RecoveryStamps(ds) == RecoveryStamps(front) + {last.estimatedRecoveryAt};
    }
  }

  lemma {:induction false} PauseHintsLeast(ps: seq<Pause>, now: int)
    ensures IsLeast(ExpiryStamps(ps), now, PauseHints(ps, now))
  {
    if ps != [] {
      var front, last := ps[..|ps| - 1], ps[|ps| - 1];
      PauseHintsLeast(front, now);
      LeastOne(last.expiresAt, now);
      LeastUnion(ExpiryStamps(front), {last.expiresAt}, now, PauseHints(front, now), RetrySeconds(last.expiresAt, now));
      assert ps == front + [last];
      assert ExpiryStamps(ps) == ExpiryStamps(front) + {last.expiresAt};
    }
  }

  /** All stamps a client may wait for. */
  function CandidateStamps(i: Input, now: int): set<Stamp> {
    RecoveryStamps(i.degradations) + ExpiryStamps(ActivePauses(i.pauses, now))
      + if WindowOpen(i, now) then {i.window.value.estimatedEndAt} else {}
  }

  lemma CandidatesListed(i: Input, now: int, t: Stamp)
    ensures IsCandidate(i, now, t) <==> t in CandidateStamps(i, now)
  {
  }

  lemma LeastIsRetryAfter(i: Input, now: int, least: Option<int>)
    requires IsLeast(CandidateStamps(i, now), now, least)
    ensures RetryAfterOk(i, now, if least.Some? then least else DefaultRetry(Overall(i, now)))
  {
    hide IsCandidate, CandidateStamps, RetrySeconds, Overall;
    forall s
      ensures IsHint(i, now, s) <==> exists t :: t in CandidateStamps(i, now) && RetrySeconds(t, now) == Some(s)
    {
      if IsHint(i, now, s) {
        var t :| IsCandidate(i, now, t) && RetrySeconds(t, now) == Some(s);
        CandidatesListed(i, now, t);
      }
      if t :| t in CandidateStamps(i, now) && RetrySeconds(t, now) == Some(s) {
        CandidatesListed(i, now, t);
      }
    }
  }

  /** `Math.min(...retryCandidates)`, or the default of the state. */
  method CollectRetryAfter(i: Input, now: int, overall: SystemState) returns (r: Option<int>)
    requires overall == Overall(i, now)
    ensures RetryAfterOk(i, now, r)
  {
    hide Overall, RetrySeconds, ActivePauses, IsLeast, DefaultRetry, RetryAfterOk;
    var ps := ActivePauses(i.pauses, now);
    var least: Option<int> := None;
    var ds := i.degradations;
    for n := 0 to |ds|
      invariant least == DegradationHints(ds[..n], now)
    {
      assert ds[..n + 1][..n] == ds[..n];
      least := MinHint(least, RetrySeconds(ds[n].estimatedRecoveryAt, now));
    }
    assert ds[..|ds|] == ds;
    DegradationHintsLeast(ds, now);
    var pauseLeast: Option<int> := None;
    for n := 0 to |ps|
      invariant pauseLeast == PauseHints(ps[..n], now)
    {
      assert ps[..n + 1][..n] == ps[..n];
      pauseLeast := MinHint(pauseLeast, RetrySeconds(ps[n].expiresAt, now));
    }
    assert ps[..|ps|] == ps;
    PauseHintsLeast(ps, now);
    LeastUnion(RecoveryStamps(ds), ExpiryStamps(ps), now, least, pauseLeast);
    least := MinHint(least, pauseLeast);
    if WindowOpen(i, now) {
      var end := i.window.value.estimatedEndAt;
      LeastOne(end, now);
      LeastUnion(RecoveryStamps(ds) + ExpiryStamps(ps), {end}, now, least, RetrySeconds(end, now));
      least := MinHint(least, RetrySeconds(end, now));
    }
    var waited := RecoveryStamps(ds) + ExpiryStamps(ps);
    assert CandidateStamps(i, now) == if WindowOpen(i, now) then waited + {i.window.value.estimatedEndAt} else waited;
    LeastIsRetryAfter(i, now, least);
    r := if least.Some? then least else DefaultRetry(overall);
  }

  // ---------------------------------------------------------------- putting it together

  lemma ActiveExists(i: Input, now: int)
    ensures var ps := ActivePauses(i.pauses, now);
      && (AnyPause(i, now) <==> ps != [])
      && (forall p :: p in ps <==> p in i.pauses && IsActive(p, now))
  {
    var ps := ActivePauses(i.pauses, now);
    if ps != [] {
      assert ps[0] in ps;
    }
  }

  /** The elevations of all sections amount to the state read off from the inputs. */
  lemma OverallFromParts(i: Input, now: int, overall: SystemState)
    requires overall ==
      Elevate(Elevate(Elevate(Elevate(Mark(ReadinessImpaired(i.readiness)), Mark(ReportImpaired(i.report))),
                              Mark(i.degradations != [])),
                      PausesState(ActivePauses(i.pauses, now))),
              if WindowOpen(i, now) then Maintenance else Operational)
    ensures overall == Overall(i, now)
  {
    hide ScopeOf, ActivePauses, IsActive, ReadinessImpaired, ReportImpaired, IsMaintenancePause, HighImpact;
    ActiveExists(i, now);
  }

  /** The same for a component other than the API and the workers. */
  lemma ComponentFromParts(i: Input, now: int, c: Component, state: SystemState)
    requires !c.Api? && !c.BackgroundWorkers?
    requires state ==
      if WindowOpen(i, now) then Maintenance
      else Elevate(Declared(i, c), PausesOn(ActivePauses(i.pauses, now), c))
    ensures state == ComponentState(i, now, c)
  {
    hide ScopeOf, ActivePauses, IsActive, IsMaintenancePause, ScopeCovers, CheckHits, IsBad;
    ActiveExists(i, now);
  }

  predicate SomeScope(ps: seq<Pause>, s: Scope) {
    exists k :: 0 <= k < |ps| && ScopeOf(ps[k].scope) == s
  }

  lemma SomeScopeExact(i: Input, now: int, s: Scope)
    ensures SomeScope(ActivePauses(i.pauses, now), s) <==> ScopePaused(i, now, s)
    ensures SomeScope(ActivePauses(i.pauses, now), AllScope) <==> AllPaused(i, now)
  {
    hide ScopeOf, ActivePauses, IsActive;
    ActiveExists(i, now);
    var ps := ActivePauses(i.pauses, now);
    assert forall k :: 0 <= k < |ps| ==> ps[k] in ps;
  }

  /** The capability flags, computed scope by scope. */
  method ComputeCapabilities(i: Input, now: int, ps: seq<Pause>, isMaintenance: bool, isAllPaused: bool)
    returns (caps: Capabilities)
    requires ps == ActivePauses(i.pauses, now)
    requires isMaintenance == InMaintenance(i, now) && isAllPaused == AllPaused(i, now)
    ensures caps == CapabilitiesOf(i, now)
  {
    hide InMaintenance, AllPaused, ScopePaused, SomeScope, ActivePauses;
    SomeScopeExact(i, now, TradingScope);
    SomeScopeExact(i, now, PaymentsScope);
    SomeScopeExact(i, now, WithdrawalsScope);
    SomeScopeExact(i, now, DefiScope);
    SomeScopeExact(i, now, OracleScope);
    SomeScopeExact(i, now, ReconciliationScope);
    caps := Capabilities(
      isMaintenance || isAllPaused,
      !(isMaintenance || isAllPaused || SomeScope(ps, TradingScope)),
      !(isMaintenance || isAllPaused || SomeScope(ps, PaymentsScope)),
      !(isMaintenance || isAllPaused || SomeScope(ps, WithdrawalsScope)),
      !(isMaintenance || isAllPaused || SomeScope(ps, DefiScope)),
      !(isMaintenance || isAllPaused || SomeScope(ps, OracleScope)),
      !(isMaintenance || isAllPaused || SomeScope(ps, ReconciliationScope)),
      !isMaintenance && !isAllPaused);
  }

  lemma MaintenanceExact(i: Input, now: int)
    ensures Overall(i, now) == Maintenance <==> InMaintenance(i, now)
    ensures Overall(i, now) == Paused ==> AnyPause(i, now)
    ensures AnyPause(i, now) ==> Overall(i, now) != Operational
    ensures AllPaused(i, now) ==> Overall(i, now) == Paused || Overall(i, now) == Maintenance
    ensures DeclaredDegraded(i, BackgroundWorkers) ==> Overall(i, now) != Operational
    ensures DeclaredDegraded(i, Api) ==> Overall(i, now) != Operational
  {
    hide ScopeOf, IsActive, IsMaintenancePause, CheckHits, IsBad;
    NoCheckHits();
  }

  /** No dependency check is about the API or the workers. */
  lemma NoCheckHits()
    ensures forall id :: !CheckHits(id, Api) && !CheckHits(id, BackgroundWorkers)
  {
    hide Contains;
  }

  lemma NoChecksHit(checks: seq<Check>)
    ensures !ChecksHit(checks, Api) && !ChecksHit(checks, BackgroundWorkers)
  {
    hide CheckHits;
    NoCheckHits();
  }

  /** Sections 4 to 6: readiness, dependency report, degradations. */
  method EvaluateDeclared(i: Input) returns (overall: SystemState, m: Components)
    ensures overall ==
      Elevate(Elevate(Mark(ReadinessImpaired(i.readiness)), Mark(ReportImpaired(i.report))), Mark(i.degradations != []))
    ensures Total(m)
    ensures forall c: Component :: m[c] == Declared(i, c)
  {
    hide ReadinessImpaired, DegradationsHit, ChecksHit, Total;
    overall, m := EvaluateReadiness(i.readiness);
    if i.report.Some? {
      if IsBad(i.report.value.status) {
        overall := Elevate(overall, Degraded);
      } else if i.report.value.advisory in {Some(DependencyStates.Degraded), Some(DependencyStates.Unavailable)} {
        overall := Elevate(overall, Degraded);
      }
      m := EvaluateChecks(m, i.report.value.checks);
    }
    overall, m := EvaluateDegradations(overall, m, i.degradations);
  }

  /** What readiness, checks and operators make of a component, as it is accumulated. */
  function Declared(i: Input, c: Component): SystemState {
    Elevate(Elevate(
      Mark(ReadinessHits(i.readiness, c)),
      Mark(i.report.Some? && ChecksHit(i.report.value.checks, c))),
      Mark(DegradationsHit(i.degradations, c)))
  }

  lemma DeclaredRest(i: Input, c: Component)
    requires c.Api? || c.BackgroundWorkers?
    ensures Declared(i, c) == Mark(DegradationsHit(i.degradations, c))
  {
    hide ChecksHit, DegradationsHit;
    if i.report.Some? {
      NoChecksHit(i.report.value.checks);
    }
  }

  /** Sections 4 to 8: readiness, dependency report, degradations, pauses, window. */
  method EvaluateSections(i: Input, now: int, ps: seq<Pause>) returns (overall: SystemState, m: Components)
    requires ps == ActivePauses(i.pauses, now)
    ensures overall == Overall(i, now)
    ensures Total(m)
    ensures forall c: Component :: !c.Api? && !c.BackgroundWorkers? ==> m[c] == ComponentState(i, now, c)
    ensures m[Api] ==
      (if WindowOpen(i, now) then Maintenance
       else Elevate(Mark(DegradationsHit(i.degradations, Api)), PausesOn(ps, Api)))
    ensures m[BackgroundWorkers] ==
      (if WindowOpen(i, now) then Maintenance
       else Elevate(Mark(DegradationsHit(i.degradations, BackgroundWorkers)), PausesOn(ps, BackgroundWorkers)))
  {
    hide Overall, ComponentState, PausesState, PausesOn, ActivePauses, ReadinessImpaired;
    hide ReportImpaired, DegradationsHit, WindowOpen, Declared;
    overall, m := EvaluateDeclared(i);
    overall, m := EvaluatePauses(overall, m, ps);
    if WindowOpen(i, now) {
      overall := Elevate(overall, Maintenance);
      m := EnterMaintenance(m);
    }
    OverallFromParts(i, now, overall);
    DeclaredRest(i, Api);
    DeclaredRest(i, BackgroundWorkers);
    forall c: Component | !c.Api? && !c.BackgroundWorkers? ensures m[c] == ComponentState(i, now, c) {
      ComponentFromParts(i, now, c, m[c]);
    }
  }

  lemma WorkersBefore(i: Input, now: int)
    requires !WindowOpen(i, now) && !Halted(i, now)
    ensures Elevate(Mark(DegradationsHit(i.degradations, BackgroundWorkers)),
                    PausesOn(ActivePauses(i.pauses, now), BackgroundWorkers))
         == Mark(DegradationsHit(i.degradations, BackgroundWorkers))
  {
    hide ScopeOf, IsActive, ActivePauses;
    ActiveExists(i, now);
  }

  lemma ApiBefore(i: Input, now: int)
    requires Overall(i, now) == Operational
    ensures !WindowOpen(i, now)
    ensures Elevate(Mark(DegradationsHit(i.degradations, Api)), PausesOn(ActivePauses(i.pauses, now), Api))
         == Operational
  {
    hide ScopeOf, IsActive, ActivePauses;
    ActiveExists(i, now);
  }

  /** Section 9 for the workers. */
  method SettleWorkers(
    i: Input, now: int, ps: seq<Pause>, overall: SystemState, before: SystemState, caps: Capabilities)
    returns (state: SystemState)
    requires ps == ActivePauses(i.pauses, now) && overall == Overall(i, now) && caps == CapabilitiesOf(i, now)
    requires before == if WindowOpen(i, now) then Maintenance
      else Elevate(Mark(DegradationsHit(i.degradations, BackgroundWorkers)), PausesOn(ps, BackgroundWorkers))
    ensures state == ComponentState(i, now, BackgroundWorkers)
  {
    hide Overall, InMaintenance, AllPaused, AnyPause, WindowOpen, PausesOn, ActivePauses, ScopePaused;
    state := before;
    MaintenanceExact(i, now);
    ActiveExists(i, now);
    if !caps.backgroundJobsProcessing {
      state := if overall == Maintenance then Maintenance else Paused;
    } else {
      WindowHalts(i, now);
      WorkersBefore(i, now);
      if overall == Degraded || |ps| > 0 {
        state := Elevate(state, Degraded);
      }
    }
  }

  lemma WindowHalts(i: Input, now: int)
    ensures WindowOpen(i, now) ==> Halted(i, now)
  {
  }

  /** `computeSystemStatusSnapshot(input)` */
  method ComputeSystemStatusSnapshot(i: Input, now: int) returns (s: PublicStatus)
    ensures Describes(s, i, now)
  {
    hide Overall, ComponentState, ActivePauses, InMaintenance, AllPaused, CapabilitiesOf;
    hide RetryAfterOk, PausesOn, WindowOpen, DegradationsHit;
    var ps := ActivePauses(i.pauses, now);
    var overall, m := EvaluateSections(i, now, ps);
    var isAllPaused := SomeScope(ps, AllScope);
    SomeScopeExact(i, now, AllScope);
    var isMaintenance := overall == Maintenance;
    MaintenanceExact(i, now);
    var caps := ComputeCapabilities(i, now, ps, isMaintenance, isAllPaused);
    var workers := SettleWorkers(i, now, ps, overall, m[BackgroundWorkers], caps);
    m := m[BackgroundWorkers := workers];
    if overall != Operational {
      m := m[Api := overall];
    } else {
      ApiBefore(i, now);
    }
    ApiIsOverall(i, now);
    var retryAfter := CollectRetryAfter(i, now, overall);
    var code := if isMaintenance || isAllPaused then 503 else 200;
    s := PublicStatus(overall, code, retryAfter, PausedScopesOf(ps), m, caps);
  }

  lemma ApiIsOverall(i: Input, now: int)
    ensures ComponentState(i, now, Api) == Overall(i, now)
  {
  }
}
