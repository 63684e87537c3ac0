/** The status model on the texts it is given: verbs, roles, scopes and check ids as they are
    spelled.  The agreement theorems speak of scopes and plain writes; what those are is pinned
    down here letter by letter. */
module StatusTexts {
  import Characters
  import DependencyStates
  import opened StatusModel
  import opened StatusTheorems
  import opened Wrappers

  // ---------------------------------------------------------------- spelling

  /** The same character, or the same letter of the ASCII alphabet in the other case. */
  predicate SameLetter(a: char, b: char) {
    || a == b
    || ('a' <= a <= 'z' && a as int == b as int + 32)
    || ('a' <= b <= 'z' && b as int == a as int + 32)
  }

  /** The texts agree letter by letter, in either case. */
  predicate Spells(text: string, word: string) {
    |text| == |word| && forall i :: 0 <= i < |text| ==> SameLetter(text[i], word[i])
  }

  predicate Capitals(word: string) {
    forall i :: 0 <= i < |word| ==> 'A' <= word[i] <= 'Z'
  }

  lemma UpperSpells(text: string, word: string)
    requires Capitals(word)
    ensures Upper(text) == word <==> Spells(text, word)
  {
    if Upper(text) == word {
      forall i | 0 <= i < |text| ensures SameLetter(text[i], word[i]) {
        assert Upper(text)[i] == UpperChar(text[i]);
      }
    }
    if Spells(text, word) {
      forall i | 0 <= i < |text| ensures Upper(text)[i] == word[i] {
        assert SameLetter(text[i], word[i]) && 'A' <= word[i] <= 'Z';
      }
    }
  }

  lemma LowerSpells(a: string, b: string)
    ensures Lower(a) == Lower(b) <==> Spells(a, b)
  {
    if Lower(a) == Lower(b) {
      forall i | 0 <= i < |a| ensures SameLetter(a[i], b[i]) {
        assert Lower(a)[i] == LowerChar(a[i]) && Lower(b)[i] == LowerChar(b[i]);
      }
    }
    if Spells(a, b) {
      forall i | 0 <= i < |a| ensures Lower(a)[i] == Lower(b)[i] {
        assert SameLetter(a[i], b[i]);
      }
    }
  }

  /** Two scope texts mean the same scope exactly when they are spelled alike. */
  lemma ScopesAlike(a: string, b: string)
    ensures ScopeOf(a) == ScopeOf(b) <==> Spells(a, b)
  {
    hide Lower, Spells;
    LowerSpells(a, b);
  }

  lemma SmallLetters(word: string)
    requires forall i :: 0 <= i < |word| ==> !('A' <= word[i] <= 'Z')
    ensures Lower(word) == word
  {
  }

  /** The named scopes, by their spelling. */
  lemma ScopeNamesSpelled(text: string)
    ensures ScopeOf(text) == AllScope <==> Spells(text, "all")
    ensures ScopeOf(text) == TradingScope <==> Spells(text, "trading")
    ensures ScopeOf(text) == PaymentsScope <==> Spells(text, "payments")
    ensures ScopeOf(text) == WithdrawalsScope <==> Spells(text, "withdrawals")
    ensures ScopeOf(text) == DefiScope <==> Spells(text, "defi")
    ensures ScopeOf(text) == OracleScope <==> Spells(text, "oracle")
    ensures ScopeOf(text) == ReconciliationScope <==> Spells(text, "reconciliation")
  {
    hide Lower, Spells;
    LowerSpells(text, "all");
    LowerSpells(text, "trading");
    LowerSpells(text, "payments");
    LowerSpells(text, "withdrawals");
    LowerSpells(text, "defi");
    LowerSpells(text, "oracle");
    LowerSpells(text, "reconciliation");
    SmallLetters("all");
    SmallLetters("trading");
    SmallLetters("payments");
    SmallLetters("withdrawals");
    SmallLetters("defi");
    SmallLetters("oracle");
    SmallLetters("reconciliation");
  }

  // ---------------------------------------------------------------- the API gate

  /** The verb is missing or spells GET, HEAD or OPTIONS. */
  predicate ReadVerb(verb: string) {
    verb == "" || Spells(verb, "GET") || Spells(verb, "HEAD") || Spells(verb, "OPTIONS")
  }

  /** One of the roles spells ADMIN. */
  predicate AdminRole(roles: seq<string>) {
    exists k :: 0 <= k < |roles| && Spells(roles[k], "ADMIN")
  }

  lemma ReadVerbExactly(verb: string)
    ensures ReadsOnly(verb) <==> ReadVerb(verb)
  {
    hide Upper, Spells;
    var v := if verb == "" then "GET" else verb;
    UpperSpells(v, "GET");
    UpperSpells(v, "HEAD");
    UpperSpells(v, "OPTIONS");
    SpellsItself("GET");
  }

  lemma SpellsItself(word: string)
    ensures Spells(word, word)
  {
  }

  lemma AdminRoleExactly(roles: seq<string>)
    ensures IsAdmin(roles) <==> AdminRole(roles)
  {
    hide Upper, Spells;
    forall k | 0 <= k < |roles| ensures Upper(roles[k]) == "ADMIN" <==> Spells(roles[k], "ADMIN") {
      UpperSpells(roles[k], "ADMIN");
    }
  }

  /** The pause is in force and its scope is spelled `all` or like the scope of the request. */
  predicate Forbids(p: Pause, now: int, scope: Option<string>) {
    && p.active != Some(false) && !(p.expiresAt.At? && p.expiresAt.ms <= now)
    && (Spells(p.scope, "all") || (scope.Some? && scope.value != "" && Spells(p.scope, scope.value)))
  }

  /** Writes in this scope are shut: a maintenance window is open, or a pause forbids them. */
  predicate Shut(i: Input, now: int, scope: Option<string>) {
    || (i.window.Some? && i.window.value.active
        && !(i.window.value.estimatedEndAt.At? && i.window.value.estimatedEndAt.ms <= now))
    || exists p :: p in i.pauses && Forbids(p, now, scope)
  }

  lemma ShutExactly(i: Input, now: int, c: ApiContext)
    ensures Shut(i, now, c.scope) <==> exists t :: Blocks(i, now, c, t)
  {
    hide Spells, ScopeOf, Blocks;
    BlockedExactly(i, now, c);
    forall p: Pause ensures PauseBlocks(i, now, c, p) <==> p in i.pauses && Forbids(p, now, c.scope) {
      ScopeNamesSpelled(p.scope);
      if c.scope.Some? {
        ScopesAlike(p.scope, c.scope.value);
      }
    }
  }

  /** What the gate decides and why, for every request: status routes, reading verbs and admins
      pass, in this order of reasons; everybody else passes exactly when writes in the scope are
      not shut, and is told 503 otherwise. */
  lemma GateOnTexts(s: PublicStatus, i: Input, now: int, c: ApiContext)
    requires Describes(s, i, now)
    ensures var d := ApiGate(s, c);
      && (d.allowed <==> c.statusRoute || ReadVerb(c.verb) || AdminRole(c.actorRoles) || !Shut(i, now, c.scope))
      && (d.bypass == Some(StatusRoute) <==> c.statusRoute)
      && (d.bypass == Some(ReadOnlyMethod) <==> !c.statusRoute && ReadVerb(c.verb))
      && (d.bypass == Some(AdminOverride) <==> !c.statusRoute && !ReadVerb(c.verb) && AdminRole(c.actorRoles))
      && d.statusCode == (if d.allowed then 200 else 503)
  {
    ReadVerbExactly(c.verb);
    AdminRoleExactly(c.actorRoles);
    ShutExactly(i, now, c);
    hide Describes, ReadsOnly, IsAdmin, ReadVerb, AdminRole, Shut, Blocks, PauseMatches, ScopeOf;
    if PlainWrite(c) {
      RejectedExactly(s, i, now, c);
    }
  }

  /** A snapshot that answers 503 lets nobody else through. */
  lemma HaltedGateOnTexts(s: PublicStatus, i: Input, now: int, c: ApiContext)
    requires Describes(s, i, now) && s.httpStatusCode == 503 && !c.statusRoute
    ensures ApiGate(s, c).allowed <==> ReadVerb(c.verb) || AdminRole(c.actorRoles)
  {
    ReadVerbExactly(c.verb);
    AdminRoleExactly(c.actorRoles);
    HaltCoincides(s, i, now);
    hide ReadsOnly, IsAdmin, ReadVerb, AdminRole, Describes, PauseMatches, ScopeOf;
  }

  /** Without any declared end, a rejected request is told five minutes in maintenance and one
      minute otherwise. */
  lemma DefaultHint(s: PublicStatus, i: Input, now: int, c: ApiContext)
    requires Describes(s, i, now) && !ApiGate(s, c).allowed && !exists h :: IsHint(i, now, h)
    ensures ApiGate(s, c).retryAfter == Some(if s.state == Maintenance then 300 else 60)
  {
    hide ReadsOnly, IsAdmin, ActivePauses, PausedScopesOf, ComponentState, ScopeOf, IsHint, IsActive;
    hide WindowOpen, ScopePaused, HighPaused, Impaired, PauseMatches;
    AllIsHighImpact(i, now);
  }

  lemma AllIsHighImpact(i: Input, now: int)
    ensures AllPaused(i, now) ==> HighPaused(i, now)
  {
  }

  /** The snapshot answers 503, is read-only and stops background work exactly when a window or a
      pause of all shuts everything, and each flag is down exactly when its scope is shut. */
  lemma FlagsOnTexts(s: PublicStatus, i: Input, now: int)
    requires Describes(s, i, now)
    ensures s.httpStatusCode == (if Shut(i, now, None) then 503 else 200)
    ensures s.capabilities.readOnly <==> Shut(i, now, None)
    ensures s.capabilities.backgroundJobsProcessing <==> !Shut(i, now, None)
    ensures s.capabilities.tradingEnabled <==> !Shut(i, now, Some("trading"))
    ensures s.capabilities.paymentsEnabled <==> !Shut(i, now, Some("payments"))
    ensures s.capabilities.withdrawalsEnabled <==> !Shut(i, now, Some("withdrawals"))
    ensures s.capabilities.defiEnabled <==> !Shut(i, now, Some("defi"))
    ensures s.capabilities.oracleEnabled <==> !Shut(i, now, Some("oracle"))
    ensures s.capabilities.reconciliationEnabled <==> !Shut(i, now, Some("reconciliation"))
  {
    hide Shut, Describes, ScopeOf;
    HaltedOnTexts(s, i, now);
    FinancialNames();
    FlagOnTexts(s, i, now, "trading", TradingScope);
    FlagOnTexts(s, i, now, "payments", PaymentsScope);
    FlagOnTexts(s, i, now, "withdrawals", WithdrawalsScope);
    FlagOnTexts(s, i, now, "defi", DefiScope);
    FlagOnTexts(s, i, now, "oracle", OracleScope);
    FlagOnTexts(s, i, now, "reconciliation", ReconciliationScope);
  }

  /** A write with this scope by somebody without a role. */
  function PlainPost(scope: Option<string>): ApiContext {
    ApiContext("POST", false, scope, [])
  }

  lemma PostIsPlain(scope: Option<string>)
    ensures PlainWrite(PlainPost(scope)) && !ReadVerb("POST") && !AdminRole([])
  {
    ReadVerbExactly("POST");
    assert Upper("POST")[0] == 'P';
  }

  lemma HaltedOnTexts(s: PublicStatus, i: Input, now: int)
    requires Describes(s, i, now)
    ensures Halted(i, now) <==> Shut(i, now, None)
    ensures s.httpStatusCode == (if Shut(i, now, None) then 503 else 200)
    ensures s.capabilities.readOnly <==> Shut(i, now, None)
    ensures s.capabilities.backgroundJobsProcessing <==> !Shut(i, now, None)
  {
    var c := PlainPost(None);
    PostIsPlain(None);
    GateOnTexts(s, i, now, c);
    MaintenanceIsHalt(i, now);
    hide Shut, InMaintenance, AllPaused, ScopePaused, Overall, ComponentState, RetryAfterOk, ReadVerb, AdminRole;
    hide PausedScopesOf, ActivePauses, ReadsOnly, IsAdmin;
  }

  lemma FinancialNames()
    ensures ScopeOf("trading") == TradingScope && ScopeOf("payments") == PaymentsScope
    ensures ScopeOf("withdrawals") == WithdrawalsScope && ScopeOf("defi") == DefiScope
    ensures ScopeOf("oracle") == OracleScope && ScopeOf("reconciliation") == ReconciliationScope
  {
    hide ScopeOf, Spells;
    SpellsItself("trading");
    SpellsItself("payments");
    SpellsItself("withdrawals");
    SpellsItself("defi");
    SpellsItself("oracle");
    SpellsItself("reconciliation");
    ScopeNamesSpelled("trading");
    ScopeNamesSpelled("payments");
    ScopeNamesSpelled("withdrawals");
    ScopeNamesSpelled("defi");
    ScopeNamesSpelled("oracle");
    ScopeNamesSpelled("reconciliation");
  }

  lemma FlagOnTexts(s: PublicStatus, i: Input, now: int, name: string, scope: Scope)
    requires Describes(s, i, now) && IsFinancial(scope) && ScopeOf(name) == scope
    ensures Flag(s.capabilities, scope) <==> !Shut(i, now, Some(name))
  {
    var c := PlainPost(Some(name));
    PostIsPlain(Some(name));
    hide Shut, Describes, ReadVerb, AdminRole, ScopeOf, ApiGate;
    GateOnTexts(s, i, now, c);
    ApiGateAgrees(s, i, now, c);
  }

  // ---------------------------------------------------------------- the retry hint

  /** An end that the inputs declare for something that is in force. */
  predicate EndDeclared(i: Input, now: int, ms: int) {
    || (exists d :: d in i.degradations && d.estimatedRecoveryAt == At(ms))
    || (exists p :: p in i.pauses && p.active != Some(false) && p.expiresAt == At(ms))
    || (i.window.Some? && i.window.value.active && i.window.value.estimatedEndAt == At(ms))
  }

  lemma EndsAreCandidates(i: Input, now: int, ms: int)
    requires ms > now
    ensures EndDeclared(i, now, ms) <==> IsCandidate(i, now, At(ms))
  {
    forall p: Pause | p.expiresAt == At(ms) ensures IsActive(p, now) <==> p.active != Some(false) {
    }
  }

  /** The published hint is the least whole number of seconds that reaches a declared end still to
      come.  Without one it is five minutes in maintenance, one minute when paused, and none else. */
  lemma HintIsEarliest(s: PublicStatus, i: Input, now: int)
    requires Describes(s, i, now)
    ensures (exists ms :: ms > now && EndDeclared(i, now, ms)) ==>
      && s.retryAfterSeconds.Some?
      && (exists ms :: EndDeclared(i, now, ms)
            && now + 1000 * (s.retryAfterSeconds.value - 1) < ms <= now + 1000 * s.retryAfterSeconds.value)
      && (forall ms :: ms > now && EndDeclared(i, now, ms) ==> now + 1000 * (s.retryAfterSeconds.value - 1) < ms)
    ensures !(exists ms :: ms > now && EndDeclared(i, now, ms)) ==>
      s.retryAfterSeconds == if s.state == Maintenance then Some(300) else if s.state == Paused then Some(60) else None
  {
    hide EndDeclared, IsCandidate, Overall, ComponentState, CapabilitiesOf, PausedScopesOf, ActivePauses, Halted;
    forall ms | ms > now && EndDeclared(i, now, ms) ensures IsHint(i, now, Seconds(ms, now)) {
      EndsAreCandidates(i, now, ms);
      SecondsExact(ms, now);
    }
    forall h | IsHint(i, now, h) ensures exists ms :: ms > now && EndDeclared(i, now, ms) && h == Seconds(ms, now) {
      var t :| IsCandidate(i, now, t) && RetrySeconds(t, now) == Some(h);
      SecondsExact(t.ms, now);
      EndsAreCandidates(i, now, t.ms);
    }
    forall ms | ms > now ensures now + 1000 * (Seconds(ms, now) - 1) < ms <= now + 1000 * Seconds(ms, now) {
    }
  }

  function Seconds(ms: int, now: int): int {
    (ms - now + 999) / 1000
  }

  lemma SecondsExact(ms: int, now: int)
    ensures RetrySeconds(At(ms), now) == if ms > now then Some(Seconds(ms, now)) else None
  {
  }

  // ---------------------------------------------------------------- the job gate

  /** Recovery jobs run at once in every state; a deferred job waits as long as a rejected write is
      told to; and a job that runs waits two seconds exactly when the system is degraded. */
  lemma JobGateDelays(s: PublicStatus, i: Input, now: int, c: JobContext)
    requires Describes(s, i, now)
    ensures var d := JobGate(s, c);
      && (c.isEssentialRecovery ==> d.decision == Execute && d.delayMs == 0)
      && (d.decision == ExecuteWithBackoff ==> d.delayMs == 2000)
      && (d.decision == Execute ==> d.delayMs == 0)
      && (d.decision != Defer && !c.isEssentialRecovery ==>
            (d.decision == ExecuteWithBackoff <==> s.state == Degraded))
      && (d.decision == Defer && s.retryAfterSeconds.Some? ==> d.delayMs == 1000 * s.retryAfterSeconds.value)
      && (d.decision == Defer && s.retryAfterSeconds.None? ==> d.delayMs == 60000)
  {
    hide ActivePauses, PausedScopesOf, ComponentState, ScopeOf, IsHint, IsActive, ResolveJobScope;
    hide WindowOpen, ScopePaused, HighPaused, Impaired, PauseMatches;
    AllIsHighImpact(i, now);
  }

  /** A scope given with a job, without white space around it, is the scope that counts. */
  lemma ExplicitJobScope(jobType: string, scope: string)
    requires scope != "" && !Characters.IsSpace(scope[0]) && !Characters.IsSpace(scope[|scope| - 1])
    ensures ResolveJobScope(jobType, Some(scope)) == ScopeOf(scope)
  {
    assert TrimStart(scope) == scope && TrimEnd(scope) == scope;
  }

  /** The job types that belong to scopes of another name. */
  lemma OtherJobScopes()
    ensures ResolveJobScope("webhook" + "." + "delivery", None) == OtherScope("webhooks")
    ensures ResolveJobScope("email" + "." + "send", None) == OtherScope("notifications")
    ensures ResolveJobScope("data" + "." + "export", None) == OtherScope("exports")
  {
    hide Trim, Lower, KnownJobScope, ScopeNamed, BeforeDot;
    JobNamed("webhook", "delivery");
    JobNamed("email", "send");
    JobNamed("data", "export");
    NotFinancialJob("webhook", "delivery");
    NotFinancialJob("email", "send");
    NotFinancialJob("data", "export");
    AreasDiffer("delivery", "send", "export");
  }

  /** A job without an entry and without a named scope before its dot is background work. */
  lemma BackgroundJob(jobType: string)
    requires KnownJobScope(Lower(Trim(jobType))).None?
    requires ScopeNamed(BeforeDot(Lower(Trim(jobType)))).OtherScope?
    ensures ResolveJobScope(jobType, None) == OtherScope("background")
  {
  }

  lemma AreasDiffer(a: string, b: string, c: string)
    ensures !Is("email" + "." + b, "webhook", a) && !Is("data" + "." + c, "webhook", a)
    ensures !Is("data" + "." + c, "email", b)
  {
    assert ("email" + "." + b)[0] == 'e' && ("data" + "." + c)[0] == 'd';
    assert ("webhook" + "." + a)[0] == 'w' && ("email" + "." + b)[0] == 'e';
  }

  /** A job outside the financial areas is one of the three, or has no entry of its own. */
  lemma NotFinancialJob(area: string, action: string)
    requires area in {"webhook", "email", "data"}
    ensures var job := area + "." + action;
      KnownJobScope(job) ==
        if Is(job, "webhook", "delivery") then Some(OtherScope("webhooks"))
        else if Is(job, "email", "send") then Some(OtherScope("notifications"))
        else if Is(job, "data", "export") then Some(OtherScope("exports"))
        else None
  {
    hide BeforeDot;
    var job := area + "." + action;
    DotAfter(area, action);
    IsByPrefix(job, "trading", "execute");
    IsByPrefix(job, "trading", "order");
    IsByPrefix(job, "payments", "settle");
    IsByPrefix(job, "payments", "process");
    IsByPrefix(job, "withdrawals", "process");
    IsByPrefix(job, "defi", "rebalance");
    IsByPrefix(job, "defi", "harvest");
    IsByPrefix(job, "oracle", "submit");
    IsByPrefix(job, "oracle", "price_feed");
    IsByPrefix(job, "reconciliation", "sync");
    hide Is;
    AreaNames(area);
  }

  lemma AreaNames(area: string)
    requires area in {"webhook", "email", "data"}
    ensures area !in {"trading", "payments", "withdrawals", "defi", "oracle", "reconciliation"}
  {
    assert |"trading"| == 7 && |"webhook"| == 7 && "trading"[0] != "webhook"[0];
    assert |"defi"| == 4 && |"data"| == 4 && "defi"[1] != "data"[1];
  }

  lemma JobNamed(area: string, action: string)
    requires area in {"webhook", "email", "data"} && action in {"delivery", "send", "export"}
    ensures var job := area + "." + action; Lower(Trim(job)) == job
  {
    var job := area + "." + action;
    assert !Characters.IsSpace(job[0]) && !Characters.IsSpace(job[|job| - 1]);
    assert forall i :: 0 <= i < |area| ==> LowerChar(area[i]) == area[i];
    assert forall i :: 0 <= i < |action| ==> LowerChar(action[i]) == action[i];
  }

  // ---------------------------------------------------------------- one impairment at a time

  /** A pause in force, alone. */
  function OnlyPause(p: Pause): Input {
    Input([p], None, [], None, None)
  }

  /** The component whose name the scope spells. */
  predicate NamedComponent(scope: string, c: Component) {
    || (Spells(scope, "trading") && c.Trading?)
    || (Spells(scope, "payments") && c.Payments?)
    || (Spells(scope, "withdrawals") && c.Withdrawals?)
    || (Spells(scope, "defi") && c.Defi?)
    || (Spells(scope, "oracle") && c.Oracle?)
    || (Spells(scope, "reconciliation") && c.Reconciliation?)
  }

  /** What one pause in force does on its own.  Of scope `all` it stops everything but the
      database and the cache, in maintenance if its reason says so.  Otherwise it stops the
      component it names; trading, payments and withdrawals pause the system, any other scope
      leaves it degraded. */
  lemma OnePause(p: Pause, now: int, c: Component)
    requires p.active != Some(false) && !(p.expiresAt.At? && p.expiresAt.ms <= now)
    ensures var i, all := OnlyPause(p), Spells(p.scope, "all");
      var stopped := if p.maintenanceReason then Maintenance else Paused;
      var high := Spells(p.scope, "trading") || Spells(p.scope, "payments") || Spells(p.scope, "withdrawals");
      && Overall(i, now) == (if all then stopped else if high then Paused else Degraded)
      && ComponentState(i, now, c) ==
           (if c.Api? then Overall(i, now)
            else if c.BackgroundWorkers? then if all then stopped else Degraded
            else if all then if c.Database? || c.Cache? then Operational else stopped
            else if NamedComponent(p.scope, c) then Paused
            else Operational)
      && PausedScopesOf(ActivePauses(i.pauses, now))
           == [PausedScope(ScopeOf(p.scope), if all then stopped else Paused)]
  {
    hide Spells, ScopeOf;
    ScopeNamesSpelled(p.scope);
    var i := OnlyPause(p);
    assert p in i.pauses && IsActive(p, now);
    assert forall q :: q in i.pauses ==> q == p;
    assert [p][1..] == [] && ActivePauses([p], now) == [p];
  }

  /** A check that failed, alone, in a report that is otherwise fine. */
  function OnlyCheck(k: Check): Input {
    Input([], None, [], None, Some(Report(DependencyStates.Healthy, None, [k])))
  }

  /** Which components one failed check degrades; a check that is healthy or disabled degrades none. */
  lemma OneCheck(k: Check, now: int, c: Component)
    requires !c.Api? && !c.BackgroundWorkers?
    ensures var i := OnlyCheck(k);
      var bad := k.state !in {DependencyStates.Healthy, DependencyStates.Disabled};
      && (k.id == "database" ==> ComponentState(i, now, c) == if bad && c.Database? then Degraded else Operational)
      && (k.id == "redis" ==> ComponentState(i, now, c) == if bad && c.Cache? then Degraded else Operational)
      && (k.id == "stellar_horizon" || k.id == "stellar_network_passphrase" ==>
            ComponentState(i, now, c) == if bad && (c.Oracle? || c.Reconciliation?) then Degraded else Operational)
      && (k.id == "eth_rpc" ==> ComponentState(i, now, c) == if bad && c.Defi? then Degraded else Operational)
  {
    hide Contains;
    var i := OnlyCheck(k);
    assert k in i.report.value.checks;
    assert forall q :: q in i.report.value.checks ==> q == k;
    StellarIds();
    EthId();
    IdsDiffer();
  }

  lemma IdsDiffer()
    ensures "redis" != "database" && "eth_rpc" !in {"database", "redis"}
    ensures "stellar_horizon" !in {"database", "redis"} && "stellar_network_passphrase" !in {"database", "redis"}
  {
    assert |"redis"| == 5 && |"database"| == 8 && |"eth_rpc"| == 7 && |"stellar_horizon"| == 15;
    assert |"stellar_network_passphrase"| == 26;
  }

  lemma StellarIds()
    ensures Contains("stellar_horizon", "stellar") && Contains("stellar_network_passphrase", "stellar")
  {
    assert "stellar_horizon"[0..7] == "stellar" && "stellar_network_passphrase"[0..7] == "stellar";
    assert OccursAt("stellar_horizon", "stellar", 0) && OccursAt("stellar_network_passphrase", "stellar", 0);
  }

  lemma EthId()
    ensures Contains("eth_rpc", "eth") && !Contains("eth_rpc", "stellar") && !Contains("eth_rpc", "horizon")
  {
    assert "eth_rpc"[0..3] == "eth";
    assert OccursAt("eth_rpc", "eth", 0);
    assert "eth_rpc"[0..7][0] == 'e';
    assert |"stellar"| == 7 && |"horizon"| == 7 && |"eth_rpc"| == 7;
    assert "stellar"[0] == 's' && "horizon"[0] == 'h';
  }

  /** What readiness alone does: the system is degraded exactly when it is not ok or finds the
      database or Redis down, which degrade their own components. */
  lemma OneReadiness(r: Readiness, now: int, c: Component)
    ensures var i := Input([], None, [], Some(r), None);
      && (Overall(i, now) == Degraded <==> r.status != ReadyOk || r.databaseDown || r.redisDown)
      && (Overall(i, now) == Operational <==> r.status == ReadyOk && !r.databaseDown && !r.redisDown)
      && (!c.Api? && !c.BackgroundWorkers? ==>
            ComponentState(i, now, c) ==
              if (r.databaseDown && c.Database?) || (r.redisDown && c.Cache?) then Degraded else Operational)
  {
  }

  /** What the two states of a dependency report do: any bad status degrades the system, and so
      does an advisory of degraded or unavailable, but not one of misconfigured. */
  lemma OneReport(status: DependencyState, advisory: Option<DependencyState>, now: int)
    ensures var i := Input([], None, [], None, Some(Report(status, advisory, [])));
      Overall(i, now) ==
        if status in {DependencyStates.Degraded, DependencyStates.Unavailable, DependencyStates.Misconfigured}
           || advisory in {Some(DependencyStates.Degraded), Some(DependencyStates.Unavailable)}
        then Degraded else Operational
  {
  }

  /** A declared degradation degrades its component and the system; an open window puts all in
      maintenance. */
  lemma OneDeclaration(d: Degradation, w: Window, now: int, c: Component)
    ensures var i := Input([], None, [d], None, None);
      && Overall(i, now) == Degraded
      && (!c.Api? && !c.BackgroundWorkers? ==>
            ComponentState(i, now, c) == if c == d.component then Degraded else Operational)
    ensures var i := Input([], Some(w), [], None, None);
      var open := w.active && !(w.estimatedEndAt.At? && w.estimatedEndAt.ms <= now);
      && Overall(i, now) == (if open then Maintenance else Operational)
      && ComponentState(i, now, c) == (if open then Maintenance else Operational)
  {
    var i := Input([], None, [d], None, None);
    assert d in i.degradations;
    assert forall q :: q in i.degradations ==> q == d;
  }
}
