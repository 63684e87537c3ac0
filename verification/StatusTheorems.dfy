/** What the published status promises: the independently written gates agree with the
    capability flags, nothing depends on the order of the inputs, adding an impairment never
    helps, and waiting never hurts. */
module StatusTheorems {
  import opened StatusModel
  import opened Wrappers

  // ---------------------------------------------------------------- gates and flags

  predicate IsFinancial(s: Scope) {
    || s.TradingScope? || s.PaymentsScope? || s.WithdrawalsScope?
    || s.DefiScope? || s.OracleScope? || s.ReconciliationScope?
  }

  /** The published flag of a financial scope. */
  predicate Flag(c: Capabilities, s: Scope)
    requires IsFinancial(s)
  {
    match s
    case TradingScope => c.tradingEnabled
    case PaymentsScope => c.paymentsEnabled
    case WithdrawalsScope => c.withdrawalsEnabled
    case DefiScope => c.defiEnabled
    case OracleScope => c.oracleEnabled
    case ReconciliationScope => c.reconciliationEnabled
  }

  /** A non-admin write outside the status routes. */
  predicate PlainWrite(c: ApiContext) {
    !c.statusRoute && !ReadsOnly(c.verb) && !IsAdmin(c.actorRoles)
  }

  lemma FlagExact(i: Input, now: int, s: Scope)
    requires IsFinancial(s)
    ensures Flag(CapabilitiesOf(i, now), s) <==> !Halted(i, now) && !ScopePaused(i, now, s)
  {
    hide Halted, ScopePaused;
  }

  /** A pause matches a scope in the published list exactly when it is active for it or for all. */
  lemma PauseMatchesExact(i: Input, now: int, s: Scope)
    ensures PauseMatches(PausedScopesOf(ActivePauses(i.pauses, now)), s)
       <==> ScopePaused(i, now, s) || AllPaused(i, now)
  {
    hide ScopeOf, IsActive, ActivePauses, IsMaintenancePause;
    var ps := ActivePauses(i.pauses, now);
    var vs := PausedScopesOf(ps);
    assert forall k :: 0 <= k < |ps| ==> ps[k] in ps && vs[k].scope == ScopeOf(ps[k].scope);
    if p :| p in i.pauses && IsActive(p, now) && (ScopeOf(p.scope) == s || ScopeOf(p.scope) == AllScope) {
      assert p in ps;
      var k :| 0 <= k < |ps| && ps[k] == p;
      assert vs[k].scope == ScopeOf(p.scope);
    }
  }

  lemma ScopeTextNotEmpty(text: string)
    requires ScopeOf(text) != OtherScope("")
    ensures text != ""
  {
  }

  /** For every snapshot and each of the six financial scopes, the flag is up exactly when a
      plain write in that scope passes the API gate. */
  lemma ApiGateAgrees(s: PublicStatus, i: Input, now: int, c: ApiContext)
    requires Describes(s, i, now) && PlainWrite(c)
    requires c.scope.Some? && IsFinancial(ScopeOf(c.scope.value))
    ensures Flag(s.capabilities, ScopeOf(c.scope.value)) <==> ApiGate(s, c).allowed
  {
    hide InMaintenance, AllPaused, ScopePaused, PauseMatches, ActivePauses, PausedScopesOf;
    hide RetryAfterOk, ComponentState, ScopeOf, ReadsOnly, IsAdmin;
    var scope := ScopeOf(c.scope.value);
    FlagExact(i, now, scope);
    PauseMatchesExact(i, now, scope);
    ScopeTextNotEmpty(c.scope.value);
    MaintenanceIsHalt(i, now);
  }

  lemma MaintenanceIsHalt(i: Input, now: int)
    ensures Overall(i, now) == Maintenance <==> InMaintenance(i, now)
  {
  }

  /** And exactly when a non-recovery job that resolves to that scope is not deferred. */
  lemma JobGateAgrees(s: PublicStatus, i: Input, now: int, c: JobContext)
    requires Describes(s, i, now) && !c.isEssentialRecovery
    requires IsFinancial(ResolveJobScope(c.jobType, c.scope))
    ensures Flag(s.capabilities, ResolveJobScope(c.jobType, c.scope)) <==> JobGate(s, c).decision != Defer
  {
    hide InMaintenance, AllPaused, ScopePaused, PauseMatches, ActivePauses;
    hide PausedScopesOf, RetryAfterOk, ComponentState, ResolveJobScope;
    var scope := ResolveJobScope(c.jobType, c.scope);
    FlagExact(i, now, scope);
    PauseMatchesExact(i, now, scope);
    MaintenanceIsHalt(i, now);
  }

  /** HTTP 503, `readOnly`, halted background processing, the rejection of every plain write
      and the deferral of every non-recovery job are one and the same condition. */
  lemma HaltCoincides(s: PublicStatus, i: Input, now: int)
    requires Describes(s, i, now)
    ensures s.httpStatusCode == 503 <==> Halted(i, now)
    ensures s.capabilities.readOnly <==> Halted(i, now)
    ensures !s.capabilities.backgroundJobsProcessing <==> Halted(i, now)
    ensures Halted(i, now) <==> forall c: ApiContext :: PlainWrite(c) ==> !ApiGate(s, c).allowed
    ensures Halted(i, now) <==> forall c: JobContext :: !c.isEssentialRecovery ==> JobGate(s, c).decision == Defer
  {
    hide InMaintenance, AllPaused, ScopePaused, ActivePauses, PausedScopesOf, RetryAfterOk, ComponentState;
    hide ScopeOf, ReadsOnly, IsAdmin, ResolveJobScope, PauseMatches;
    MaintenanceIsHalt(i, now);
    if !Halted(i, now) {
      var write := UnscopedWrite();
      assert PlainWrite(write) && ApiGate(s, write).allowed;
      var job := FreeJob(i, now);
      PauseMatchesExact(i, now, ResolveJobScope(job.jobType, job.scope));
      assert JobGate(s, job).decision != Defer;
    }
  }

  lemma UnscopedWrite() returns (c: ApiContext)
    ensures PlainWrite(c) && c.scope.None?
  {
    c := ApiContext("POST", false, None, []);
    assert Upper("POST")[0] == 'P';
    assert !ReadsOnly("POST");
  }

  /** Finitely many pauses leave some scope name free. */
  lemma FreeJob(i: Input, now: int) returns (c: JobContext)
    ensures !c.isEssentialRecovery && !ScopePaused(i, now, ResolveJobScope(c.jobType, c.scope))
  {
    var n := LongestScope(i.pauses) + 16;
    var name: string := seq(n, _ => 'x');
    NameResolves(name);
    c := JobContext("", Some(name), false);
    forall p | p in i.pauses ensures ScopeOf(p.scope) != OtherScope(name) {
      ScopeShorter(i.pauses, p);
    }
  }

  function LongestScope(ps: seq<Pause>): nat {
    if ps == [] then 0
    else
      var n := LongestScope(ps[1..]);
      if |ps[0].scope| > n then |ps[0].scope| else n
  }

  lemma {:induction false} ScopeShorter(ps: seq<Pause>, p: Pause)
    requires p in ps
    ensures |p.scope| <= LongestScope(ps)
  {
    if p != ps[0] {
      ScopeShorter(ps[1..], p);
    }
  }

  lemma NameResolves(name: string)
    requires |name| >= 16 && forall k :: 0 <= k < |name| ==> name[k] == 'x'
    ensures ResolveJobScope("", Some(name)) == OtherScope(name)
  {
    assert TrimStart(name) == name && TrimEnd(name) == name;
    assert Lower(name) == name;
  }

  /** A rejected request always carries a positive retry hint. */
  lemma RejectionsCarryRetry(s: PublicStatus, i: Input, now: int, c: ApiContext)
    requires Describes(s, i, now) && !ApiGate(s, c).allowed
    ensures ApiGate(s, c).statusCode == 503
    ensures ApiGate(s, c).retryAfter.Some? && ApiGate(s, c).retryAfter.value >= 1
  {
    hide Overall, Halted, ActivePauses, PausedScopesOf, ComponentState, ScopeOf;
    hide ReadsOnly, IsAdmin, PauseMatches, CapabilitiesOf, IsCandidate;
    if s.retryAfterSeconds.Some? {
      if h :| IsHint(i, now, h) {
        assert IsHint(i, now, s.retryAfterSeconds.value);
      }
    }
  }

  /** A deferred job is delayed by at least a second, and other jobs by at most the backoff. */
  lemma DeferralsCarryDelay(s: PublicStatus, i: Input, now: int, c: JobContext)
    requires Describes(s, i, now)
    ensures JobGate(s, c).decision == Defer ==> JobGate(s, c).delayMs >= 1000
    ensures JobGate(s, c).decision != Defer ==> JobGate(s, c).delayMs == 2000 * (JobGate(s, c).backoffMultiplier - 1)
    ensures JobGate(s, c).decision == ExecuteWithBackoff ==> Overall(i, now) == Degraded && !c.isEssentialRecovery
  {
    hide Overall, Halted, ActivePauses, PausedScopesOf, ComponentState;
    hide ResolveJobScope, PauseMatches, CapabilitiesOf, IsCandidate;
    if s.retryAfterSeconds.Some? {
      if h :| IsHint(i, now, h) {
        assert IsHint(i, now, s.retryAfterSeconds.value);
      }
    }
  }

  /** The hint is the whole number of seconds after which a declared end has just passed. */
  lemma HintExact(t: Stamp, now: int, seconds: int)
    requires t.At? && seconds >= 1
    ensures RetrySeconds(t, now) == Some(seconds) <==> now + 1000 * (seconds - 1) < t.ms <= now + 1000 * seconds
  {
  }

  // ---------------------------------------------------------------- resolving job scopes

  // ---------------------------------------------------------------- waiting for the hint

  /** A pause of scope `p` stands in the way of the write. */
  predicate Concerns(c: ApiContext, p: Scope) {
    p.AllScope? || (c.scope.Some? && c.scope.value != "" && p == ScopeOf(c.scope.value))
  }

  predicate PauseBlocks(i: Input, now: int, c: ApiContext, p: Pause) {
    p in i.pauses && IsActive(p, now) && Concerns(c, ScopeOf(p.scope))
  }

  /** The declared end of something that rejects the write at `now`. */
  ghost predicate Blocks(i: Input, now: int, c: ApiContext, t: Stamp) {
    || (WindowOpen(i, now) && i.window.value.estimatedEndAt == t)
    || (exists p :: PauseBlocks(i, now, c, p) && p.expiresAt == t)
  }

  /** A plain write is rejected exactly while an open window or a pause that concerns it stands. */
  lemma RejectedExactly(s: PublicStatus, i: Input, now: int, c: ApiContext)
    requires Describes(s, i, now) && PlainWrite(c)
    ensures !ApiGate(s, c).allowed <==> exists t :: Blocks(i, now, c, t)
  {
    hide ActivePauses, PausedScopesOf, RetryAfterOk, ComponentState, ReadsOnly, IsAdmin, IsActive, ScopeOf;
    hide PauseMatches, WindowOpen, IsMaintenancePause, Blocks;
    MaintenanceIsHalt(i, now);
    BlockedExactly(i, now, c);
    if c.scope.Some? {
      PauseMatchesExact(i, now, ScopeOf(c.scope.value));
    }
    MaintenancePauseIsAll(i);
    var scoped := c.scope.Some? && c.scope.value != "" && ScopePaused(i, now, ScopeOf(c.scope.value));
    assert (exists p :: PauseBlocks(i, now, c, p)) <==> AllPaused(i, now) || scoped by {
      if p :| p in i.pauses && IsActive(p, now) && Concerns(c, ScopeOf(p.scope)) {
        assert PauseBlocks(i, now, c, p);
      }
    }
  }

  lemma MaintenancePauseIsAll(i: Input)
    ensures forall p :: p in i.pauses && IsMaintenancePause(p) ==> ScopeOf(p.scope) == AllScope
  {
  }

  lemma BlockedExactly(i: Input, now: int, c: ApiContext)
    ensures (exists t :: Blocks(i, now, c, t)) <==> WindowOpen(i, now) || exists p :: PauseBlocks(i, now, c, p)
  {
    hide WindowOpen, PauseBlocks;
    if WindowOpen(i, now) {
      WindowThere(i, now);
      assert Blocks(i, now, c, i.window.value.estimatedEndAt);
    }
    if p :| PauseBlocks(i, now, c, p) {
      assert Blocks(i, now, c, p.expiresAt);
    }
  }

  lemma WindowThere(i: Input, now: int)
    ensures WindowOpen(i, now) ==> i.window.Some?
  {
  }

  /** As time passes, what blocks is what blocked before and has not ended. */
  lemma BlocksLater(i: Input, now: int, later: int, c: ApiContext, t: Stamp)
    requires now <= later
    ensures Blocks(i, later, c, t) <==> Blocks(i, now, c, t) && !Passed(t, later)
  {
    hide ScopeOf;
    forall p: Pause | p.expiresAt == t
      ensures PauseBlocks(i, later, c, p) <==> PauseBlocks(i, now, c, p) && !Passed(t, later)
    {
    }
  }

  /** Every blocking end is one the hint was chosen among. */
  lemma BlockersAreCandidates(i: Input, now: int, c: ApiContext, t: Stamp)
    requires Blocks(i, now, c, t)
    ensures IsCandidate(i, now, t) && !Passed(t, now)
  {
    hide ScopeOf, Concerns;
    if !(WindowOpen(i, now) && i.window.value.estimatedEndAt == t) {
      var p :| PauseBlocks(i, now, c, p) && p.expiresAt == t;
    }
  }

  /** With the inputs fixed, a rejected write passes after waiting as long as it was told exactly
      when every end that blocks it rounds up to that very number of seconds. */
  lemma RetrySucceedsExactly(s: PublicStatus, i: Input, now: int, c: ApiContext, s2: PublicStatus)
    requires Describes(s, i, now) && PlainWrite(c) && !ApiGate(s, c).allowed
    requires ApiGate(s, c).retryAfter.Some?
    requires Describes(s2, i, now + 1000 * ApiGate(s, c).retryAfter.value)
    ensures var hint := ApiGate(s, c).retryAfter.value;
      ApiGate(s2, c).allowed <==> forall t :: Blocks(i, now, c, t) ==> RetrySeconds(t, now) == Some(hint)
  {
    hide ApiGate, Describes, Blocks, PlainWrite, RetrySeconds, Passed;
    var hint := ApiGate(s, c).retryAfter.value;
    RejectionsCarryRetry(s, i, now, c);
    var later := now + 1000 * hint;
    RejectedExactly(s2, i, later, c);
    forall t ensures Blocks(i, later, c, t) <==> Blocks(i, now, c, t) && RetrySeconds(t, now) != Some(hint) {
      BlocksLater(i, now, later, c, t);
      if Blocks(i, now, c, t) {
        PassesWithHint(s, i, now, c, t);
      }
    }
  }

  lemma PassesWithHint(s: PublicStatus, i: Input, now: int, c: ApiContext, t: Stamp)
    requires Describes(s, i, now) && PlainWrite(c) && !ApiGate(s, c).allowed
    requires ApiGate(s, c).retryAfter.Some? && Blocks(i, now, c, t)
    ensures var hint := ApiGate(s, c).retryAfter.value;
      Passed(t, now + 1000 * hint) <==> RetrySeconds(t, now) == Some(hint)
  {
    hide Overall, Halted, ActivePauses, PausedScopesOf, ComponentState, ScopeOf, Blocks, IsCandidate;
    hide ReadsOnly, IsAdmin, PauseMatches, CapabilitiesOf;
    BlockersAreCandidates(i, now, c, t);
    if t.At? {
      var k := -((now - t.ms) / 1000);
      assert k >= 1 && now + 1000 * (k - 1) < t.ms <= now + 1000 * k;
      assert RetrySeconds(t, now) == Some(k);
      assert IsHint(i, now, k);
      assert s.retryAfterSeconds.Some? && s.retryAfterSeconds.value <= k;
    }
  }

  /** A trading pause of an hour beside a database degradation due in a second: the write is told
      to come back after one second, and is rejected again. */
  lemma HintOfAnotherEnd(now: int, s: PublicStatus, s2: PublicStatus, c: ApiContext)
    requires var pause := Pause("trading", Some(true), false, At(now + 3600000));
      var i := Input([pause], None, [Degradation(Database, At(now + 1000))], None, None);
      Describes(s, i, now) && Describes(s2, i, now + 1000)
    requires PlainWrite(c) && c.scope == Some("trading")
    ensures !ApiGate(s, c).allowed && ApiGate(s, c).retryAfter == Some(1) && !ApiGate(s2, c).allowed
  {
    var pause := Pause("trading", Some(true), false, At(now + 3600000));
    var i := Input([pause], None, [Degradation(Database, At(now + 1000))], None, None);
    hide Describes, ApiGate, ScopeOf, PlainWrite;
    assert PauseBlocks(i, now, c, pause) && PauseBlocks(i, now + 1000, c, pause);
    assert Blocks(i, now, c, At(now + 3600000)) && Blocks(i, now + 1000, c, At(now + 3600000));
    RejectedExactly(s, i, now, c);
    RejectedExactly(s2, i, now + 1000, c);
    var first := i.degradations[0];
    assert first in i.degradations && first.estimatedRecoveryAt == At(now + 1000);
    assert IsCandidate(i, now, At(now + 1000));
    OneSecond(now);
    assert IsHint(i, now, 1);
    LeastIsOne(s, i, now, c);
  }

  lemma OneSecond(now: int)
    ensures RetrySeconds(At(now + 1000), now) == Some(1)
  {
  }

  lemma LeastIsOne(s: PublicStatus, i: Input, now: int, c: ApiContext)
    requires Describes(s, i, now) && !ApiGate(s, c).allowed && IsHint(i, now, 1)
    ensures ApiGate(s, c).retryAfter == Some(1)
  {
    hide Overall, Halted, ActivePauses, PausedScopesOf, ComponentState, ScopeOf, IsCandidate;
    hide ReadsOnly, IsAdmin, PauseMatches, CapabilitiesOf;
    RejectionsCarryRetry(s, i, now, c);
    assert s.retryAfterSeconds.Some? && s.retryAfterSeconds.value <= 1;
  }

  /** Without an explicit scope, a job belongs to a pausable scope exactly when the part of its
      type before the first dot names that scope; the table of known types adds nothing. */
  lemma JobScopeByPrefix(jobType: string, s: Scope)
    requires IsFinancial(s) || s.AllScope?
    ensures ResolveJobScope(jobType, None) == s <==> ScopeNamed(BeforeDot(Lower(Trim(jobType)))) == s
  {
    hide Lower, Trim, ScopeNamed, BeforeDot, KnownJobScope;
    KnownByPrefix(Lower(Trim(jobType)));
  }

  lemma KnownByPrefix(normalized: string)
    ensures KnownJobScope(normalized).Some? ==>
      var s, p := KnownJobScope(normalized).value, ScopeNamed(BeforeDot(normalized));
      if IsFinancial(s) then p == s else !IsFinancial(p) && !p.AllScope? && !s.AllScope?
  {
    hide Is, BeforeDot, ScopeNamed;
    IsByPrefix(normalized, "trading", "execute");
    IsByPrefix(normalized, "trading", "order");
    IsByPrefix(normalized, "payments", "settle");
    IsByPrefix(normalized, "payments", "process");
    IsByPrefix(normalized, "withdrawals", "process");
    IsByPrefix(normalized, "defi", "rebalance");
    IsByPrefix(normalized, "defi", "harvest");
    IsByPrefix(normalized, "oracle", "submit");
    IsByPrefix(normalized, "oracle", "price_feed");
    IsByPrefix(normalized, "reconciliation", "sync");
    IsByPrefix(normalized, "webhook", "delivery");
    IsByPrefix(normalized, "email", "send");
    IsByPrefix(normalized, "data", "export");
    ScopeNames();
  }

  lemma IsByPrefix(jobType: string, area: string, action: string)
    requires '.' !in area
    ensures Is(jobType, area, action) ==> BeforeDot(jobType) == area
  {
    DotAfter(area, action);
  }

  lemma ScopeNames()
    ensures ScopeNamed("trading") == TradingScope && ScopeNamed("payments") == PaymentsScope
    ensures ScopeNamed("withdrawals") == WithdrawalsScope && ScopeNamed("defi") == DefiScope
    ensures ScopeNamed("oracle") == OracleScope && ScopeNamed("reconciliation") == ReconciliationScope
    ensures ScopeNamed("webhook").OtherScope? && ScopeNamed("email").OtherScope? && ScopeNamed("data").OtherScope?
  {
    assert "oracle"[0] != "trading"[0];
  }

  lemma {:induction false} DotAfter(a: string, b: string)
    requires '.' !in a
    ensures BeforeDot(a + "." + b) == a
  {
    if a == [] {
      assert (a + "." + b)[0] == '.';
    } else {
      assert (a + "." + b)[1..] == a[1..] + "." + b;
      DotAfter(a[1..], b);
    }
  }

  // ---------------------------------------------------------------- order

  ghost predicate SubPauses(a: seq<Pause>, b: seq<Pause>) { forall p :: p in a ==> p in b }
  ghost predicate SubDegradations(a: seq<Degradation>, b: seq<Degradation>) { forall d :: d in a ==> d in b }
  ghost predicate SubChecks(a: seq<Check>, b: seq<Check>) { forall k :: k in a ==> k in b }

  /** `j` has everything `i` has, and perhaps more pauses, degradations and checks. */
  ghost predicate NoFewer(i: Input, j: Input) {
    && SubPauses(i.pauses, j.pauses)
    && SubDegradations(i.degradations, j.degradations)
    && j.window == i.window && j.readiness == i.readiness
    && (i.report.None? <==> j.report.None?)
    && (i.report.Some? ==>
          && j.report.value.status == i.report.value.status && j.report.value.advisory == i.report.value.advisory
          && SubChecks(i.report.value.checks, j.report.value.checks))
  }

  lemma MorePauses(i: Input, j: Input, now: int)
    requires NoFewer(i, j)
    ensures AnyPause(i, now) ==> AnyPause(j, now)
    ensures AllPaused(i, now) ==> AllPaused(j, now)
    ensures InMaintenance(i, now) ==> InMaintenance(j, now)
    ensures HighPaused(i, now) ==> HighPaused(j, now)
    ensures forall s :: ScopePaused(i, now, s) ==> ScopePaused(j, now, s)
  {
    hide ScopeOf, IsActive, IsMaintenancePause, HighImpact;
  }

  lemma MoreImpaired(i: Input, j: Input, now: int)
    requires NoFewer(i, j)
    ensures Impaired(i, now) ==> Impaired(j, now)
    ensures forall c :: DeclaredDegraded(i, c) ==> DeclaredDegraded(j, c)
  {
    hide AnyPause, IsBad, CheckHits, InMaintenance, HighPaused, AllPaused;
    MorePauses(i, j, now);
    if i.degradations != [] {
      assert i.degradations[0] in j.degradations;
    }
  }

  lemma MorePausedComponents(i: Input, j: Input, now: int, c: Component)
    requires NoFewer(i, j)
    ensures ComponentPaused(i, now, c) ==> ComponentPaused(j, now, c)
    ensures ComponentInMaintenance(i, now, c) ==> ComponentInMaintenance(j, now, c)
  {
    hide ScopeOf, IsActive, IsMaintenancePause, ScopeCovers;
  }

  /** Adding a pause, a degradation or a bad check never lowers a state. */
  lemma NeverLowers(i: Input, j: Input, now: int, c: Component)
    requires NoFewer(i, j)
    ensures Severity(Overall(i, now)) <= Severity(Overall(j, now))
    ensures Severity(ComponentState(i, now, c)) <= Severity(ComponentState(j, now, c))
  {
    hide NoFewer, AnyPause, AllPaused, InMaintenance, HighPaused;
    hide Impaired, DeclaredDegraded, ComponentPaused, ComponentInMaintenance;
    MorePauses(i, j, now);
    MoreImpaired(i, j, now);
    MorePausedComponents(i, j, now, c);
  }

  /** And never re-enables a capability. */
  lemma NeverReenables(i: Input, j: Input, now: int, s: Scope)
    requires NoFewer(i, j) && IsFinancial(s)
    ensures Flag(CapabilitiesOf(j, now), s) ==> Flag(CapabilitiesOf(i, now), s)
    ensures CapabilitiesOf(i, now).readOnly ==> CapabilitiesOf(j, now).readOnly
  {
    hide NoFewer, AnyPause, AllPaused, InMaintenance, HighPaused, ScopePaused, CapabilitiesOf;
    MorePauses(i, j, now);
    FlagExact(i, now, s);
    FlagExact(j, now, s);
    ReadOnlyIsHalted(i, now);
    ReadOnlyIsHalted(j, now);
  }

  lemma ReadOnlyIsHalted(i: Input, now: int)
    ensures CapabilitiesOf(i, now).readOnly <==> Halted(i, now)
  {
  }

  lemma SeverityInjective(a: SystemState, b: SystemState)
    requires Severity(a) == Severity(b)
    ensures a == b
  {
  }

  /** Inputs with the same members, in any order and multiplicity, give the same overall
      state, component states and capabilities. */
  lemma OrderIrrelevant(i: Input, j: Input, now: int, c: Component)
    requires NoFewer(i, j) && NoFewer(j, i)
    ensures Overall(i, now) == Overall(j, now)
    ensures ComponentState(i, now, c) == ComponentState(j, now, c)
    ensures CapabilitiesOf(i, now) == CapabilitiesOf(j, now)
  {
    hide NoFewer, Overall, ComponentState, Halted, ScopePaused;
    NeverLowers(i, j, now, c);
    NeverLowers(j, i, now, c);
    SeverityInjective(Overall(i, now), Overall(j, now));
    SeverityInjective(ComponentState(i, now, c), ComponentState(j, now, c));
    SameHalts(i, j, now);
  }

  lemma SameHalts(i: Input, j: Input, now: int)
    requires NoFewer(i, j) && NoFewer(j, i)
    ensures Halted(i, now) == Halted(j, now)
    ensures forall s :: ScopePaused(i, now, s) == ScopePaused(j, now, s)
  {
    hide NoFewer, AllPaused, InMaintenance, ScopePaused, AnyPause, HighPaused;
    MorePauses(i, j, now);
    MorePauses(j, i, now);
  }

  // ---------------------------------------------------------------- time

  lemma ActiveEarlier(p: Pause, now: int, later: int)
    requires now <= later && IsActive(p, later)
    ensures IsActive(p, now)
  {
  }

  lemma LaterPauses(i: Input, now: int, later: int)
    requires now <= later
    ensures WindowOpen(i, later) ==> WindowOpen(i, now)
    ensures AnyPause(i, later) ==> AnyPause(i, now)
    ensures AllPaused(i, later) ==> AllPaused(i, now)
    ensures InMaintenance(i, later) ==> InMaintenance(i, now)
    ensures HighPaused(i, later) ==> HighPaused(i, now)
    ensures forall s :: ScopePaused(i, later, s) ==> ScopePaused(i, now, s)
  {
    hide ScopeOf, IsActive, IsMaintenancePause, HighImpact;
    forall p | IsActive(p, later) ensures IsActive(p, now) {
      ActiveEarlier(p, now, later);
    }
  }

  lemma LaterComponents(i: Input, now: int, later: int, c: Component)
    requires now <= later
    ensures ComponentPaused(i, later, c) ==> ComponentPaused(i, now, c)
    ensures ComponentInMaintenance(i, later, c) ==> ComponentInMaintenance(i, now, c)
  {
    hide ScopeOf, IsActive, IsMaintenancePause, ScopeCovers;
    forall p | IsActive(p, later) ensures IsActive(p, now) {
      ActiveEarlier(p, now, later);
    }
  }

  /** With the inputs fixed, states only step down and capabilities only come back as time passes. */
  lemma TimeOnlyEases(i: Input, now: int, later: int, c: Component, s: Scope)
    requires now <= later && IsFinancial(s)
    ensures Severity(Overall(i, later)) <= Severity(Overall(i, now))
    ensures Severity(ComponentState(i, later, c)) <= Severity(ComponentState(i, now, c))
    ensures Flag(CapabilitiesOf(i, now), s) ==> Flag(CapabilitiesOf(i, later), s)
  {
    hide WindowOpen, AnyPause, AllPaused, InMaintenance, HighPaused, ScopePaused;
    hide DeclaredDegraded, ComponentPaused, ComponentInMaintenance, CapabilitiesOf;
    LaterPauses(i, now, later);
    LaterComponents(i, now, later, c);
    FlagExact(i, now, s);
    FlagExact(i, later, s);
  }
}
