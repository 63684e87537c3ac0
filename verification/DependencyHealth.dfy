/** Dependency health: the probe registry, the runner and the report of src/dependency-health.

    Every outcome of a network call, of URL parsing and of number parsing is an arbitrary input.
    The registry never trips the invariant that the runner enforces, so a report is always
    returned, and the report's fields agree with one another for every list of results. */
module DependencyHealth {
  import opened Characters
  import opened DependencyStates
  import opened Wrappers

  /** `DEPENDENCY_STATE_SEVERITY` */
  function Severity(s: DependencyState): int {
    match s
    case Healthy => 0
    case Disabled => 0
    case Degraded => 1
    case Unavailable => 2
    case Misconfigured => 3
  }

  datatype Criticality = Critical | Optional

  // ---------------------------------------------------------------- configuration and context

  datatype EnvKey =
    | DATABASE_URL | JWT_SECRET | DB_DATABASE
    | REDIS_URL | REDIS_HOST | REDIS_PORT | REDIS_PASSWORD
    | STELLAR_HORIZON_URL | STELLAR_NETWORK_PASSPHRASE
    | ETH_RPC_URL | CHAIN_ID
    | FILE_STORAGE_BACKEND | FILE_STORAGE_LOCAL_PATH
    | S3_BUCKET | S3_REGION | S3_ENDPOINT | S3_ACCESS_KEY_ID | S3_SECRET_ACCESS_KEY
    | AZURE_STORAGE_CONNECTION_STRING | AZURE_STORAGE_CONTAINER
    | SMTP_HOST | SMTP_PORT | SMTP_SECURE | SMTP_USER
    | ELASTICSEARCH_URL | ELASTICSEARCH_INDEX_PREFIX
    | OTEL_EXPORTER_OTLP_ENDPOINT | TRACING_ENABLED
    | SENTRY_DSN | SENTRY_ENVIRONMENT | SENTRY_RELEASE
    | OPENAI_API_KEY | OPENAI_BASE_URL

  type Env = map<EnvKey, string>

  /** `isConfigured(env[key])` */
  predicate IsConfigured(env: Env, key: EnvKey) {
    key in env && exists i :: 0 <= i < |env[key]| && !IsSpace(env[key][i])
  }

  datatype Dependency =
    | Database | Redis | BackgroundJobs | StellarHorizon | StellarNetwork | EthRpc
    | ObjectStorage | Smtp | Elasticsearch | OtelCollector | Sentry | AiProvider

  datatype StorageBackend = LocalBackend | S3Backend | AzureBackend | UnknownBackend

  /** What a network call came back with; a thrown error is classified as final or not. */
  datatype Reply =
    | Threw(willNotChangeByRetrying: bool)
    | Answered(latencyMs: int)
    | HttpAnswered(status: int, latencyMs: int)
    | RpcFailed
    | RpcAnswered(chainId: Option<int>, latencyMs: int)

  /** The environment, the policy, and the outcomes of everything outside. */
  datatype Context = Context(
    env: Env,
    networkProbesEnabled: bool,
    degradedLatencyMs: int,
    replies: Dependency -> Reply,
    parses: EnvKey -> bool,
    knownPassphrase: bool,
    expectedChainId: Option<int>,
    storageBackend: StorageBackend,
    smtpPortValid: bool,
    tracingOff: bool,
    throwsUnexpectedly: Dependency -> bool)

  // ---------------------------------------------------------------- classification

  /** `classifyThrownError` */
  function ClassifyThrown(willNotChange: bool): DependencyState {
    if willNotChange then Misconfigured else Unavailable
  }

  /** `applyLatencyBudget` */
  function ApplyLatencyBudget(latencyMs: int, degradedLatencyMs: int): DependencyState {
    if latencyMs > degradedLatencyMs then Degraded else Healthy
  }

  /** `classifyHttpOutcome` */
  function ClassifyHttp(status: int, latencyMs: int, degradedLatencyMs: int): DependencyState {
    if 200 <= status < 400 then ApplyLatencyBudget(latencyMs, degradedLatencyMs) else Degraded
  }

  /** The state a reply stands for, for the plain connection and HTTP probes. */
  function StateOfReply(r: Reply, degradedLatencyMs: int): DependencyState {
    match r
    case Threw(final) => ClassifyThrown(final)
    case Answered(latency) => ApplyLatencyBudget(latency, degradedLatencyMs)
    case HttpAnswered(status, latency) => ClassifyHttp(status, latency, degradedLatencyMs)
    case RpcFailed => Misconfigured
    case RpcAnswered(_, latency) => ApplyLatencyBudget(latency, degradedLatencyMs)
  }

  // ---------------------------------------------------------------- the registry

  datatype Definition = Definition(
    criticality: Criticality, configKeys: seq<EnvKey>, requiredConfigKeys: Option<seq<EnvKey>>)

  function DefinitionOf(d: Dependency): Definition {
    match d
    case Database => Definition(Critical, [DATABASE_URL, JWT_SECRET, DB_DATABASE], Some([DATABASE_URL, JWT_SECRET]))
    case Redis => Definition(Critical, [REDIS_URL, REDIS_HOST, REDIS_PORT, REDIS_PASSWORD], Some([]))
    case BackgroundJobs => Definition(Optional, [REDIS_URL, REDIS_HOST, REDIS_PORT], Some([]))
    case StellarHorizon => Definition(Critical, [STELLAR_HORIZON_URL], Some([]))
    case StellarNetwork => Definition(Critical, [STELLAR_NETWORK_PASSPHRASE], None)
    case EthRpc => Definition(Critical, [ETH_RPC_URL, CHAIN_ID], Some([ETH_RPC_URL]))
    case ObjectStorage =>
      Definition(Optional,
        [FILE_STORAGE_BACKEND, FILE_STORAGE_LOCAL_PATH, S3_BUCKET, S3_REGION, S3_ENDPOINT, S3_ACCESS_KEY_ID,
         S3_SECRET_ACCESS_KEY, AZURE_STORAGE_CONNECTION_STRING, AZURE_STORAGE_CONTAINER], Some([]))
    case Smtp => Definition(Optional, [SMTP_HOST, SMTP_PORT, SMTP_SECURE, SMTP_USER], Some([]))
    case Elasticsearch => Definition(Optional, [ELASTICSEARCH_URL, ELASTICSEARCH_INDEX_PREFIX], Some([]))
    case OtelCollector => Definition(Optional, [OTEL_EXPORTER_OTLP_ENDPOINT, TRACING_ENABLED], Some([]))
    case Sentry => Definition(Optional, [SENTRY_DSN, SENTRY_ENVIRONMENT, SENTRY_RELEASE], Some([]))
    case AiProvider => Definition(Optional, [OPENAI_API_KEY, OPENAI_BASE_URL], Some([]))
  }

  const REGISTRY := [Database, Redis, BackgroundJobs, StellarHorizon, StellarNetwork, EthRpc,
                     ObjectStorage, Smtp, Elasticsearch, OtelCollector, Sentry, AiProvider]

  datatype Outcome = Outcome(state: DependencyState, extraConfigKeys: seq<EnvKey>)

  /** The twelve `probe` functions. */
  function Probe(d: Dependency, c: Context): Outcome {
    match d
    case Database =>
      if !IsConfigured(c.env, DATABASE_URL) then Outcome(Misconfigured, [DB_DATABASE])
      else if !IsConfigured(c.env, JWT_SECRET) then Outcome(Misconfigured, [])
      else Outcome(StateOfReply(c.replies(d), c.degradedLatencyMs), [])
    case Redis =>
      if !IsConfigured(c.env, REDIS_URL) && !IsConfigured(c.env, REDIS_HOST) then Outcome(Misconfigured, [])
      else Outcome(StateOfReply(c.replies(d), c.degradedLatencyMs), [])
    case BackgroundJobs =>
      if !IsConfigured(c.env, REDIS_URL) && !IsConfigured(c.env, REDIS_HOST) then Outcome(Disabled, [])
      else Outcome(Healthy, [])
    case StellarHorizon =>
      if IsConfigured(c.env, STELLAR_HORIZON_URL) && !c.parses(STELLAR_HORIZON_URL) then Outcome(Misconfigured, [])
      else if !c.networkProbesEnabled then Outcome(Healthy, [])
      else Outcome(StateOfReply(c.replies(d), c.degradedLatencyMs), [])
    case StellarNetwork =>
      if !IsConfigured(c.env, STELLAR_NETWORK_PASSPHRASE) then Outcome(Misconfigured, [])
      else if !c.knownPassphrase then Outcome(Degraded, [])
      else Outcome(Healthy, [])
    case EthRpc =>
      if !IsConfigured(c.env, ETH_RPC_URL) then Outcome(Misconfigured, [])
      else if !c.parses(ETH_RPC_URL) then Outcome(Misconfigured, [])
      else if !c.networkProbesEnabled then Outcome(Healthy, [])
      else Outcome(RpcState(c.replies(d), c), [])
    case ObjectStorage => Outcome(StorageState(c), [])
    case Smtp =>
      if !IsConfigured(c.env, SMTP_HOST) then Outcome(Disabled, [])
      else if !c.smtpPortValid then Outcome(Misconfigured, [])
      else if !c.networkProbesEnabled then Outcome(Healthy, [])
      else Outcome(StateOfReply(c.replies(d), c.degradedLatencyMs), [])
    case Elasticsearch =>
      if !IsConfigured(c.env, ELASTICSEARCH_URL) then Outcome(Disabled, [])
      else if !c.networkProbesEnabled then Outcome(Healthy, [])
      else Outcome(StateOfReply(c.replies(d), c.degradedLatencyMs), [])
    case OtelCollector =>
      if c.tracingOff then Outcome(Disabled, [])
      else if !IsConfigured(c.env, OTEL_EXPORTER_OTLP_ENDPOINT) then Outcome(Disabled, [])
      else if !c.networkProbesEnabled then Outcome(Healthy, [])
      else Outcome(StateOfReply(c.replies(d), c.degradedLatencyMs), [])
    case Sentry =>
      if !IsConfigured(c.env, SENTRY_DSN) then Outcome(Disabled, [])
      else if !c.parses(SENTRY_DSN) then Outcome(Misconfigured, [])
      else Outcome(Healthy, [])
    case AiProvider =>
      if !IsConfigured(c.env, OPENAI_API_KEY) then Outcome(Disabled, [])
      else if IsConfigured(c.env, OPENAI_BASE_URL) && !c.parses(OPENAI_BASE_URL) then Outcome(Misconfigured, [])
      else Outcome(Healthy, [])
  }

  /** The JSON-RPC probe: an error reply, no chain id, the wrong chain id, or the latency. */
  function RpcState(r: Reply, c: Context): DependencyState {
    match r
    case Threw(final) => ClassifyThrown(final)
    case RpcFailed => Misconfigured
    case RpcAnswered(chainId, latency) =>
      if chainId.None? then Degraded
      else if c.expectedChainId.Some? && c.expectedChainId != chainId then Degraded
      else ApplyLatencyBudget(latency, c.degradedLatencyMs)
    case Answered(latency) => ApplyLatencyBudget(latency, c.degradedLatencyMs)
    case HttpAnswered(_, latency) => ApplyLatencyBudget(latency, c.degradedLatencyMs)
  }

  function StorageState(c: Context): DependencyState {
    match c.storageBackend
    case LocalBackend => Healthy
    case S3Backend =>
      if !IsConfigured(c.env, S3_BUCKET) || !IsConfigured(c.env, S3_REGION) then Misconfigured
      else if !c.networkProbesEnabled then Healthy
      else StateOfReply(c.replies(ObjectStorage), c.degradedLatencyMs)
    case AzureBackend => if IsConfigured(c.env, AZURE_STORAGE_CONNECTION_STRING) then Healthy else Misconfigured
    case UnknownBackend => Misconfigured
  }

  // ---------------------------------------------------------------- the runner

  datatype KeyReport = KeyReport(key: EnvKey, configured: bool)

  datatype CheckResult = CheckResult(
    id: Dependency, criticality: Criticality, state: DependencyState, configKeys: seq<KeyReport>)

  function Unique(keys: seq<EnvKey>): seq<EnvKey> {
    if keys == [] then []
    else
      var front := Unique(keys[..|keys| - 1]);
      if keys[|keys| - 1] in front then front else front + [keys[|keys| - 1]]
  }

  /** `buildConfigKeyReports(context, keys, extraKeys)` */
  function KeyReports(env: Env, keys: seq<EnvKey>): seq<KeyReport> {
    seq(|keys|, i requires 0 <= i < |keys| => KeyReport(keys[i], IsConfigured(env, keys[i])))
  }

  /** `runOne(definition, context)`: a throwing probe counts as unavailable. */
  function RunOne(d: Dependency, c: Context): CheckResult {
    var outcome := if c.throwsUnexpectedly(d) then Outcome(Unavailable, []) else Probe(d, c);
    CheckResult(d, DefinitionOf(d).criticality, outcome.state,
                KeyReports(c.env, Unique(DefinitionOf(d).configKeys + outcome.extraConfigKeys)))
  }

  /** `configKeys.find((c) => c.key === key)?.configured === true` */
  function ReportedConfigured(reports: seq<KeyReport>, key: EnvKey): bool {
    if reports == [] then false
    else if reports[0].key == key then reports[0].configured
    else ReportedConfigured(reports[1..], key)
  }

  function RequiredKeys(d: Dependency): seq<EnvKey> {
    var definition := DefinitionOf(d);
    if definition.requiredConfigKeys.Some? then definition.requiredConfigKeys.value else definition.configKeys
  }

  /** `isStateAllowedForConfig(...)` on a result of the registry. */
  predicate StateAllowed(r: CheckResult) {
    && (r.state == Healthy ==> forall k :: k in RequiredKeys(r.id) ==> ReportedConfigured(r.configKeys, k))
    && (r.state == Disabled ==> r.criticality != Critical)
  }

  lemma {:induction false} UniqueMembers(keys: seq<EnvKey>)
    ensures forall k :: k in Unique(keys) <==> k in keys
  {
    if keys != [] {
      UniqueMembers(keys[..|keys| - 1]);
      assert keys == keys[..|keys| - 1] + [keys[|keys| - 1]];
    }
  }

  lemma {:induction false} KeyReportsExact(env: Env, keys: seq<EnvKey>, k: EnvKey)
    requires k in keys
    ensures ReportedConfigured(KeyReports(env, keys), k) == IsConfigured(env, k)
  {
    var rs := KeyReports(env, keys);
    if keys[0] != k {
      assert rs[1..] == KeyReports(env, keys[1..]);
      KeyReportsExact(env, keys[1..], k);
    }
  }

  /** What a required key is reported as is what it is. */
  lemma RequiredReported(d: Dependency, c: Context, k: EnvKey)
    requires k in RequiredKeys(d)
    ensures ReportedConfigured(RunOne(d, c).configKeys, k) == IsConfigured(c.env, k)
  {
    hide Probe, IsConfigured;
    var outcome := if c.throwsUnexpectedly(d) then Outcome(Unavailable, []) else Probe(d, c);
    var keys := DefinitionOf(d).configKeys + outcome.extraConfigKeys;
    RequiredAreConfigKeys(d, k);
    UniqueMembers(keys);
    KeyReportsExact(c.env, Unique(keys), k);
  }

  lemma RequiredAreConfigKeys(d: Dependency, k: EnvKey)
    requires k in RequiredKeys(d)
    ensures k in DefinitionOf(d).configKeys
  {
  }

  /** A probe is healthy only with every required key set, and only optional ones are disabled. */
  lemma ProbesRespectConfiguration(d: Dependency, c: Context)
    ensures Probe(d, c).state == Healthy ==> forall k :: k in RequiredKeys(d) ==> IsConfigured(c.env, k)
    ensures Probe(d, c).state == Disabled ==> DefinitionOf(d).criticality == Optional
  {
    hide IsConfigured;
  }

  /** With outbound probes switched off, only the database and Redis are contacted: the verdict
      on everything else does not depend on what the network would have answered. */
  lemma NetworkPolicyRespected(d: Dependency, c: Context, other: Dependency -> Reply)
    requires !c.networkProbesEnabled && !d.Database? && !d.Redis?
    ensures Probe(d, c.(replies := other)) == Probe(d, c)
  {
    hide IsConfigured;
  }

  /** A probe that ends as unavailable made a call that threw an error a retry may cure. */
  lemma ProbeUnavailable(d: Dependency, c: Context)
    requires Probe(d, c).state == Unavailable
    ensures c.replies(d) == Threw(false)
    ensures !d.BackgroundJobs? && !d.StellarNetwork? && !d.Sentry? && !d.AiProvider?
    ensures c.networkProbesEnabled || d.Database? || d.Redis?
  {
    hide IsConfigured;
  }

  /** A dependency is reported unavailable only if its probe itself broke, or if a call that the
      policy allows threw an error that a retry may cure, such as a timeout; a dependency that is
      only looked up in the configuration never is, unless its probe broke. */
  lemma UnavailableMeansThrown(d: Dependency, c: Context)
    requires RunOne(d, c).state == Unavailable
    ensures !c.throwsUnexpectedly(d) ==>
      && c.replies(d) == Threw(false)
      && (c.networkProbesEnabled || d.Database? || d.Redis?)
      && !d.BackgroundJobs? && !d.StellarNetwork? && !d.Sentry? && !d.AiProvider?
  {
    hide Probe, KeyReports, Unique;
    if !c.throwsUnexpectedly(d) {
      ProbeUnavailable(d, c);
    }
  }

  // ---------------------------------------------------------------- each probe, outcome by outcome

  /** The variable is there and holds something besides white space. */
  predicate Set(c: Context, key: EnvKey) {
    && key in c.env
    && exists i :: 0 <= i < |c.env[key]| && c.env[key][i] != ' ' && c.env[key][i] as int !in {9, 10, 11, 12, 13}
  }

  /** The configuration is complete and the policy allows the call that the probe makes. */
  predicate Calls(d: Dependency, c: Context) {
    match d
    case Database => Set(c, DATABASE_URL) && Set(c, JWT_SECRET)
    case Redis => Set(c, REDIS_URL) || Set(c, REDIS_HOST)
    case StellarHorizon => c.networkProbesEnabled && (Set(c, STELLAR_HORIZON_URL) ==> c.parses(STELLAR_HORIZON_URL))
    case EthRpc => c.networkProbesEnabled && Set(c, ETH_RPC_URL) && c.parses(ETH_RPC_URL)
    case ObjectStorage =>
      c.networkProbesEnabled && c.storageBackend == S3Backend && Set(c, S3_BUCKET) && Set(c, S3_REGION)
    case Smtp => c.networkProbesEnabled && Set(c, SMTP_HOST) && c.smtpPortValid
    case Elasticsearch => c.networkProbesEnabled && Set(c, ELASTICSEARCH_URL)
    case OtelCollector => c.networkProbesEnabled && !c.tracingOff && Set(c, OTEL_EXPORTER_OTLP_ENDPOINT)
    case _ => false
  }

  /** What a call came back with decides: an error that a retry does not cure is a matter of
      configuration and any other makes the dependency unavailable.  An answer is healthy iff it
      is a success of HTTP, or of the right chain, within the latency budget, and else degraded. */
  lemma CalledProbe(d: Dependency, c: Context)
    requires Calls(d, c)
    ensures var r, state := c.replies(d), Probe(d, c).state;
      && (r == Threw(true) ==> state == Misconfigured)
      && (r == Threw(false) ==> state == Unavailable)
      && (r.RpcFailed? ==> state == Misconfigured)
      && (r.Answered? ==> state == if r.latencyMs <= c.degradedLatencyMs then Healthy else Degraded)
      && (r.HttpAnswered? && !d.EthRpc? ==>
            state == if 200 <= r.status <= 399 && r.latencyMs <= c.degradedLatencyMs then Healthy else Degraded)
      && (r.RpcAnswered? && d.EthRpc? ==>
            state == if r.chainId.Some? && (c.expectedChainId.None? || c.expectedChainId == r.chainId)
                        && r.latencyMs <= c.degradedLatencyMs then Healthy else Degraded)
  {
    hide IsConfigured, Set;
    SetAll(c);
  }

  lemma SetAll(c: Context)
    ensures forall key :: IsConfigured(c.env, key) <==> Set(c, key)
  {
  }

  /** Without a call the configuration decides. */
  lemma UncalledProbe(d: Dependency, c: Context)
    requires !Calls(d, c)
    ensures var state := Probe(d, c).state;
      match d
      case Database => state == Misconfigured
      case Redis => state == Misconfigured
      case BackgroundJobs => state == if Set(c, REDIS_URL) || Set(c, REDIS_HOST) then Healthy else Disabled
      case StellarHorizon =>
        state == if Set(c, STELLAR_HORIZON_URL) && !c.parses(STELLAR_HORIZON_URL) then Misconfigured else Healthy
      case StellarNetwork =>
        state == if !Set(c, STELLAR_NETWORK_PASSPHRASE) then Misconfigured
                 else if c.knownPassphrase then Healthy else Degraded
      case EthRpc => state == if Set(c, ETH_RPC_URL) && c.parses(ETH_RPC_URL) then Healthy else Misconfigured
      case ObjectStorage =>
        state == (match c.storageBackend
                  case LocalBackend => Healthy
                  case S3Backend => if Set(c, S3_BUCKET) && Set(c, S3_REGION) then Healthy else Misconfigured
                  case AzureBackend => if Set(c, AZURE_STORAGE_CONNECTION_STRING) then Healthy else Misconfigured
                  case UnknownBackend => Misconfigured)
      case Smtp => state == if !Set(c, SMTP_HOST) then Disabled else if c.smtpPortValid then Healthy else Misconfigured
      case Elasticsearch => state == if Set(c, ELASTICSEARCH_URL) then Healthy else Disabled
      case OtelCollector =>
        state == if !c.tracingOff && Set(c, OTEL_EXPORTER_OTLP_ENDPOINT) then Healthy else Disabled
      case Sentry => state == if !Set(c, SENTRY_DSN) then Disabled
                              else if c.parses(SENTRY_DSN) then Healthy else Misconfigured
      case AiProvider =>
        state == if !Set(c, OPENAI_API_KEY) then Disabled
                 else if Set(c, OPENAI_BASE_URL) && !c.parses(OPENAI_BASE_URL) then Misconfigured else Healthy
  {
    hide IsConfigured, Set;
    SetAll(c);
  }

  /** For every environment and every outcome of every probe the runner's invariant holds. */
  lemma RegistryNeverTrips(d: Dependency, c: Context)
    ensures StateAllowed(RunOne(d, c))
  {
    hide Probe, IsConfigured, RequiredKeys, DefinitionOf, KeyReports, ReportedConfigured;
    ProbesRespectConfiguration(d, c);
    forall k | k in RequiredKeys(d) && RunOne(d, c).state == Healthy
      ensures ReportedConfigured(RunOne(d, c).configKeys, k)
    {
      RequiredReported(d, c, k);
    }
  }

  /** Which dependencies decide the status of a report. */
  lemma CriticalDependencies(d: Dependency)
    ensures DefinitionOf(d).criticality == Critical <==>
      d in {Database, Redis, StellarHorizon, StellarNetwork, EthRpc}
    ensures d in REGISTRY
  {
    assert REGISTRY[..] == REGISTRY;
  }

  /** The keys without which a dependency cannot be healthy. */
  lemma RequiredTable(d: Dependency, k: EnvKey)
    ensures k in RequiredKeys(d) <==>
      || (d.Database? && k in {DATABASE_URL, JWT_SECRET})
      || (d.StellarNetwork? && k == STELLAR_NETWORK_PASSPHRASE)
      || (d.EthRpc? && k == ETH_RPC_URL)
  {
  }

  /** The keys a dependency is reported with. */
  function KeysShown(d: Dependency): set<EnvKey> {
    match d
    case Database => {DATABASE_URL, JWT_SECRET, DB_DATABASE}
    case Redis => {REDIS_URL, REDIS_HOST, REDIS_PORT, REDIS_PASSWORD}
    case BackgroundJobs => {REDIS_URL, REDIS_HOST, REDIS_PORT}
    case StellarHorizon => {STELLAR_HORIZON_URL}
    case StellarNetwork => {STELLAR_NETWORK_PASSPHRASE}
    case EthRpc => {ETH_RPC_URL, CHAIN_ID}
    case ObjectStorage =>
      {FILE_STORAGE_BACKEND, FILE_STORAGE_LOCAL_PATH, S3_BUCKET, S3_REGION, S3_ENDPOINT, S3_ACCESS_KEY_ID,
       S3_SECRET_ACCESS_KEY, AZURE_STORAGE_CONNECTION_STRING, AZURE_STORAGE_CONTAINER}
    case Smtp => {SMTP_HOST, SMTP_PORT, SMTP_SECURE, SMTP_USER}
    case Elasticsearch => {ELASTICSEARCH_URL, ELASTICSEARCH_INDEX_PREFIX}
    case OtelCollector => {OTEL_EXPORTER_OTLP_ENDPOINT, TRACING_ENABLED}
    case Sentry => {SENTRY_DSN, SENTRY_ENVIRONMENT, SENTRY_RELEASE}
    case AiProvider => {OPENAI_API_KEY, OPENAI_BASE_URL}
  }

  /** Every result lists the keys of its dependency and no others, each as set or not. */
  lemma KeysReported(d: Dependency, c: Context, k: EnvKey)
    ensures (exists r :: r in RunOne(d, c).configKeys && r.key == k) <==> k in KeysShown(d)
    ensures forall r :: r in RunOne(d, c).configKeys ==> (r.configured <==> Set(c, r.key))
  {
    hide IsConfigured, Set, Unique;
    SetAll(c);
    var outcome := if c.throwsUnexpectedly(d) then Outcome(Unavailable, []) else Probe(d, c);
    var keys := DefinitionOf(d).configKeys + outcome.extraConfigKeys;
    ExtraKeys(d, c);
    hide Probe, DefinitionOf, KeysShown;
    UniqueMembers(keys);
    var reports := RunOne(d, c).configKeys;
    assert k in Unique(keys) <==> k in KeysShown(d);
    if k in Unique(keys) {
      var i :| 0 <= i < |Unique(keys)| && Unique(keys)[i] == k;
      assert reports[i] in reports && reports[i].key == k;
    }
  }

  lemma ExtraKeys(d: Dependency, c: Context)
    ensures forall k :: k in DefinitionOf(d).configKeys <==> k in KeysShown(d)
    ensures forall k :: k in Probe(d, c).extraConfigKeys ==> k in KeysShown(d)
  {
    hide IsConfigured;
  }

  /** A probe that breaks is reported unavailable, and any other as it ends. */
  lemma RunnerReports(d: Dependency, c: Context)
    ensures RunOne(d, c).id == d && RunOne(d, c).criticality == DefinitionOf(d).criticality
    ensures RunOne(d, c).state == if c.throwsUnexpectedly(d) then Unavailable else Probe(d, c).state
  {
    hide Probe, KeyReports, Unique;
  }

  // ---------------------------------------------------------------- the report

  datatype Counts = Counts(healthy: nat, degraded: nat, unavailable: nat, misconfigured: nat, disabled: nat) {
    function Sum(): nat {
      healthy + degraded + unavailable + misconfigured + disabled
    }
  }

  function Count(checks: seq<CheckResult>, s: DependencyState): nat {
    if checks == [] then 0
    else Count(checks[..|checks| - 1], s) + if checks[|checks| - 1].state == s then 1 else 0
  }

  datatype Report = Report(
    status: DependencyState, advisory: DependencyState,
    counts: Counts,
    criticalFindings: seq<Dependency>, advisoryFindings: seq<Dependency>,
    checks: seq<CheckResult>,
    networkProbesSkipped: bool)

  /** `worstState(states)` */
  method WorstState(states: seq<DependencyState>) returns (worst: DependencyState)
    ensures worst == Healthy || worst in states
    ensures worst != Disabled
    ensures forall i :: 0 <= i < |states| ==> Severity(states[i]) <= Severity(worst)
    ensures worst == Misconfigured <==> Misconfigured in states
    ensures worst == Unavailable <==> Unavailable in states && Misconfigured !in states
    ensures worst == Degraded <==> Degraded in states && Unavailable !in states && Misconfigured !in states
  {
    worst := Healthy;
    for n := 0 to |states|
      invariant worst == Healthy || worst in states
      invariant worst != Disabled
      invariant forall i :: 0 <= i < n ==> Severity(states[i]) <= Severity(worst)
    {
      if Severity(states[n]) > Severity(worst) {
        worst := states[n];
      }
    }
  }

  /** `for (const check of checks) counts[check.state] += 1` */
  method CountStates(checks: seq<CheckResult>) returns (c: Counts)
    ensures c == Counts(Count(checks, Healthy), Count(checks, Degraded), Count(checks, Unavailable),
                        Count(checks, Misconfigured), Count(checks, Disabled))
    ensures c.healthy + c.degraded + c.unavailable + c.misconfigured + c.disabled == |checks|
  {
    c := Counts(0, 0, 0, 0, 0);
    for n := 0 to |checks|
      invariant c == Counts(Count(checks[..n], Healthy), Count(checks[..n], Degraded), Count(checks[..n], Unavailable),
                            Count(checks[..n], Misconfigured), Count(checks[..n], Disabled))
      invariant c.healthy + c.degraded + c.unavailable + c.misconfigured + c.disabled == n
    {
      assert checks[..n + 1][..n] == checks[..n];
      match checks[n].state {
        case Healthy => c := c.(healthy := c.healthy + 1);
        case Degraded => c := c.(degraded := c.degraded + 1);
        case Unavailable => c := c.(unavailable := c.unavailable + 1);
        case Misconfigured => c := c.(misconfigured := c.misconfigured + 1);
        case Disabled => c := c.(disabled := c.disabled + 1);
      }
    }
    assert checks[..|checks|] == checks;
  }

  predicate IsFinding(r: CheckResult, k: Criticality) {
    r.criticality == k && r.state != Healthy && r.state != Disabled
  }

  function Findings(checks: seq<CheckResult>, k: Criticality): (r: seq<CheckResult>)
    ensures forall c :: c in r <==> c in checks && IsFinding(c, k)
  {
    if checks == [] then []
    else (if IsFinding(checks[0], k) then [checks[0]] else []) + Findings(checks[1..], k)
  }

  /** The place of an id in alphabetical order.  No two ids first differ at an underscore, so
      every collation that keeps the letters in order agrees on it. */
  function IdRank(d: Dependency): nat {
    match d
    case AiProvider => 0
    case BackgroundJobs => 1
    case Database => 2
    case Elasticsearch => 3
    case EthRpc => 4
    case ObjectStorage => 5
    case OtelCollector => 6
    case Redis => 7
    case Sentry => 8
    case Smtp => 9
    case StellarHorizon => 10
    case StellarNetwork => 11
  }

  /** The ids as they are compared. */
  function IdText(d: Dependency): string {
    match d
    case AiProvider => "ai_provider"
    case BackgroundJobs => "background_jobs"
    case Database => "database"
    case Elasticsearch => "elasticsearch"
    case EthRpc => "eth_rpc"
    case ObjectStorage => "object_storage"
    case OtelCollector => "otel_collector"
    case Redis => "redis"
    case Sentry => "sentry"
    case Smtp => "smtp"
    case StellarHorizon => "stellar_horizon"
    case StellarNetwork => "stellar_network_passphrase"
  }

  /** Up to `k` the texts agree, and there the first has the earlier letter. */
  predicate EarlierAt(a: string, b: string, k: nat) {
    k < |a| && k < |b| && a[..k] == b[..k] && a[k] < b[k] && 'a' <= a[k] <= 'z' && 'a' <= b[k] <= 'z'
  }

  /** The ranks follow the alphabet, and every two neighbours differ first in a letter. */
  lemma RanksAreAlphabetical(a: Dependency, b: Dependency)
    requires IdRank(b) == IdRank(a) + 1
    ensures exists k :: EarlierAt(IdText(a), IdText(b), k)
  {
    var k := match b
      case Elasticsearch => 0
      case EthRpc => 1
      case OtelCollector => 1
      case Smtp => 1
      case StellarHorizon => 1
      case StellarNetwork => 8
      case _ => 0;
    var x, y := IdText(a), IdText(b);
    if b.StellarNetwork? {
      assert x[..8] == "stellar_" && y[..8] == "stellar_";
    }
    assert EarlierAt(x, y, k);
  }

  /** `bySeverity(a, b) <= 0`: worse first, and by id among equals. */
  predicate Ahead(a: CheckResult, b: CheckResult) {
    || Severity(a.state) > Severity(b.state)
    || (Severity(a.state) == Severity(b.state) && IdRank(a.id) <= IdRank(b.id))
  }

  /** Insertion in the order of `bySeverity`. */
  function InsertWorst(r: CheckResult, rs: seq<CheckResult>): (s: seq<CheckResult>)
    ensures multiset(s) == multiset{r} + multiset(rs)
  {
    if rs == [] || Ahead(r, rs[0]) then [r] + rs
    else
      assert rs == [rs[0]] + rs[1..];
      [rs[0]] + InsertWorst(r, rs[1..])
  }

  function WorstFirst(rs: seq<CheckResult>): (s: seq<CheckResult>)
    ensures multiset(s) == multiset(rs)
  {
    if rs == [] then []
    else
      assert rs == [rs[0]] + rs[1..];
      InsertWorst(rs[0], WorstFirst(rs[1..]))
  }

  ghost predicate Descending(rs: seq<CheckResult>) {
    forall i, j :: 0 <= i < j < |rs| ==> Ahead(rs[i], rs[j])
  }

  lemma {:induction false} InsertWorstDescending(r: CheckResult, rs: seq<CheckResult>)
    requires Descending(rs)
    ensures Descending(InsertWorst(r, rs))
  {
    hide IdRank;
    if rs != [] && !Ahead(r, rs[0]) {
      var tail := InsertWorst(r, rs[1..]);
      InsertWorstDescending(r, rs[1..]);
      forall j | 0 <= j < |tail| ensures Ahead(rs[0], tail[j]) {
        assert tail[j] in multiset(tail);
        assert tail[j] == r || tail[j] in multiset(rs[1..]);
        assert tail[j] == r || tail[j] in rs[1..];
      }
    }
  }

  lemma {:induction false} WorstFirstDescending(rs: seq<CheckResult>)
    ensures Descending(WorstFirst(rs))
  {
    if rs != [] {
      WorstFirstDescending(rs[1..]);
      InsertWorstDescending(rs[0], WorstFirst(rs[1..]));
    }
  }

  function Ids(rs: seq<CheckResult>): seq<Dependency> {
    seq(|rs|, i requires 0 <= i < |rs| => rs[i].id)
  }

  /** The states of one criticality, with `disabled` read as healthy. */
  function RollupStates(checks: seq<CheckResult>, k: Criticality): (r: seq<DependencyState>)
    ensures forall c :: c in checks && c.criticality == k ==> (if c.state == Disabled then Healthy else c.state) in r
    ensures forall s :: s in r ==> s == Healthy || exists c :: c in checks && c.criticality == k && c.state == s
  {
    if checks == [] then []
    else
      (if checks[0].criticality == k then [if checks[0].state == Disabled then Healthy else checks[0].state] else [])
        + RollupStates(checks[1..], k)
  }

  /** What a rolled-up state says about the checks of one criticality. */
  ghost predicate RollsUp(
    checks: seq<CheckResult>, k: Criticality, worst: DependencyState, findings: seq<CheckResult>)
  {
    && multiset(findings) == multiset(Findings(checks, k))
    && Descending(findings)
    && (worst == Healthy <==> findings == [])
    && (findings != [] ==> findings[0].state == worst)
  }

  method RollUp(checks: seq<CheckResult>, k: Criticality) returns (worst: DependencyState, findings: seq<CheckResult>)
    ensures RollsUp(checks, k, worst, findings)
    ensures findings == WorstFirst(Findings(checks, k))
  {
    hide RollupStates, Findings, WorstFirst;
    var states := RollupStates(checks, k);
    worst := WorstState(states);
    findings := WorstFirst(Findings(checks, k));
    WorstFirstDescending(Findings(checks, k));
    WorstIsFirst(checks, k, states, worst, findings);
  }

  lemma WorstIsFirst(
    checks: seq<CheckResult>, k: Criticality, states: seq<DependencyState>,
    worst: DependencyState, findings: seq<CheckResult>)
    requires states == RollupStates(checks, k)
    requires (worst == Healthy || worst in states) && worst != Disabled
    requires forall i :: 0 <= i < |states| ==> Severity(states[i]) <= Severity(worst)
    requires multiset(findings) == multiset(Findings(checks, k)) && Descending(findings)
    ensures worst == Healthy <==> findings == []
    ensures findings != [] ==> findings[0].state == worst
  {
    hide RollupStates, Findings;
    SameMembers(findings, Findings(checks, k));
    if worst != Healthy {
      var c :| c in checks && c.criticality == k && c.state == worst;
      assert c in findings;
      var j :| 0 <= j < |findings| && findings[j] == c;
      assert j > 0 ==> Ahead(findings[0], findings[j]);
    }
    if findings != [] {
      var first := findings[0];
      assert first in findings && first in checks && IsFinding(first, k);
      assert first.state in states;
    }
  }

  lemma SameMembers(a: seq<CheckResult>, b: seq<CheckResult>)
    requires multiset(a) == multiset(b)
    ensures forall c :: c in a <==> c in b
  {
    forall c ensures c in a <==> c in b {
      assert c in a <==> c in multiset(a);
      assert c in b <==> c in multiset(b);
    }
  }

  /** `buildDependencyReport(checks, ...)`: for every list of results the counts add up, a
      status other than healthy comes with findings and the other way round, the first finding
      has the reported status, and findings are listed worst first. */
  method BuildDependencyReport(checks: seq<CheckResult>, skipped: bool) returns (r: Report)
    ensures r.checks == checks && r.networkProbesSkipped == skipped
    ensures r.counts.Sum() == |checks|
    ensures RollsUp(checks, Critical, r.status, WorstFirst(Findings(checks, Critical)))
    ensures RollsUp(checks, Optional, r.advisory, WorstFirst(Findings(checks, Optional)))
    ensures r.criticalFindings == Ids(WorstFirst(Findings(checks, Critical)))
    ensures r.advisoryFindings == Ids(WorstFirst(Findings(checks, Optional)))
    ensures r.status != Healthy <==> r.criticalFindings != []
    ensures r.advisory != Healthy <==> r.advisoryFindings != []
  {
    var counts := CountStates(checks);
    var status, critical := RollUp(checks, Critical);
    var advisory, optional := RollUp(checks, Optional);
    r := Report(status, advisory, counts, Ids(critical), Ids(optional), checks, skipped);
  }

  /** `runDependencyChecks({ context })` over the registry: the state invariant is checked and
      never violated, so a report is always returned. */
  method RunDependencyChecks(c: Context) returns (violated: bool, r: Report)
    ensures !violated
    ensures |r.checks| == |REGISTRY| && forall i :: 0 <= i < |REGISTRY| ==> r.checks[i] == RunOne(REGISTRY[i], c)
    ensures r.counts.Sum() == 12
    ensures r.status != Healthy <==> r.criticalFindings != []
    ensures r.networkProbesSkipped == !c.networkProbesEnabled
  {
    hide RunOne, StateAllowed, WorstFirst, Findings, RollsUp;
    var results := seq(|REGISTRY|, i requires 0 <= i < |REGISTRY| => RunOne(REGISTRY[i], c));
    violated := false;
    for n := 0 to |results|
      invariant !violated
    {
      RegistryNeverTrips(REGISTRY[n], c);
      if !StateAllowed(results[n]) {
        violated := true;
      }
    }
    r := BuildDependencyReport(results, !c.networkProbesEnabled);
  }
}
