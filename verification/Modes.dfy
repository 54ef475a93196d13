/** Execution-mode filtering and engine scores. */
module Modes {
  import opened Options

  datatype ExecutionMode = StrictLocal | ZeroCredential | FreeTier | Configured | MaximumCoverage
  datatype ManifestStatus = Stable | Beta | Unavailable | Deprecated
  datatype ProviderStatus =
    | ProviderConfigured | ProviderNotConfigured | ProviderInvalid | ProviderRateLimited
    | ProviderDisabled | ProviderUnavailable | ProviderDeprecated
  datatype CredentialClass = A | B | C | D | E | F
  datatype Credentials = NoCredentials | OptionalCredentials | RequiredCredentials
  datatype Pricing = FreePricing | FreeTierPricing | PaidPricing | LocalPricing
  datatype DataFlow = LocalFlow | NetworkFlow | ExternalApiFlow
  datatype Permission = NetworkPermission | Filesystem | Subprocess | CredentialsPermission | Browser
  datatype ExecutionClass = Fast | Standard | Deep | OptionalRun

  datatype Reason =
    | BlockedByMode | RequiresConfiguration | PaidOnly | ProviderIsUnavailable | ProviderIsRateLimited
    | ProviderIsDeprecated | EngineUnavailable | NotExecutable | PermissionDenied
    | BudgetExhausted | AlreadyCovered | NoEngine

  type EngineId = string
  type ProviderId = string

  datatype Engine = Engine(
    id: EngineId, capability: string, provider: ProviderId, dataFlow: DataFlow, permissions: seq<Permission>,
    resultQuality: real, reliability: real, maintenance: real, cost: ExecutionClass, terminal: bool,
    status: ManifestStatus)

  datatype Provider = Provider(
    id: ProviderId, credentialClass: CredentialClass, credentials: Credentials, pricing: Pricing,
    status: ProviderStatus)

  datatype Context = Context(mode: ExecutionMode, configured: set<ProviderId>, granted: set<Permission>)

  function Rank(mode: ExecutionMode): nat {
    match mode
    case StrictLocal => 0
    case ZeroCredential => 1
    case FreeTier => 2
    case Configured => 3
    case MaximumCoverage => 4
  }

  /** Why an engine cannot run, or nothing when it can. */
  function EngineExclusion(engine: Engine, provider: Provider, ctx: Context): Option<Reason> {
    if engine.status == Unavailable then Some(EngineUnavailable)
    else if engine.status == Deprecated || provider.status == ProviderDeprecated then Some(ProviderIsDeprecated)
    else if provider.credentialClass == E || provider.credentialClass == F then
      if engine.terminal then None else Some(NotExecutable)
    else if exists p :: p in engine.permissions && p !in ctx.granted then Some(PermissionDenied)
    else
      var rank := Rank(ctx.mode);
      var isLocal := engine.dataFlow == LocalFlow;
      if rank == Rank(StrictLocal) && !isLocal then Some(BlockedByMode)
      else if rank <= Rank(ZeroCredential) && !isLocal && provider.credentials == RequiredCredentials then Some(BlockedByMode)
      else if rank <= Rank(FreeTier) && provider.pricing == PaidPricing then Some(PaidOnly)
      else if provider.status == ProviderDisabled then Some(ProviderIsUnavailable)
      else if provider.status == ProviderUnavailable then Some(ProviderIsUnavailable)
      else if provider.status == ProviderRateLimited then Some(ProviderIsRateLimited)
      else if provider.status == ProviderInvalid then Some(RequiresConfiguration)
      else if provider.credentials == RequiredCredentials && provider.id !in ctx.configured then Some(RequiresConfiguration)
      else None
  }

  /** An engine that runs by itself, and not only as a link out. */
  predicate Executes(provider: Provider) {
    provider.credentialClass != E && provider.credentialClass != F
  }

  /** What a usable engine may rely on: nothing leaves the machine in strict-local mode, no required key below the
    * free tier except locally, nothing paid up to the free tier, only granted permissions, and required credentials
    * only where they are configured.
    */
  lemma UsableRespectsMode(engine: Engine, provider: Provider, ctx: Context)
    requires EngineExclusion(engine, provider, ctx).None? && Executes(provider)
    ensures ctx.mode == StrictLocal ==> engine.dataFlow == LocalFlow
    ensures ctx.mode in {StrictLocal, ZeroCredential} && provider.credentials == RequiredCredentials ==>
      engine.dataFlow == LocalFlow
    ensures ctx.mode in {StrictLocal, ZeroCredential, FreeTier} ==> provider.pricing != PaidPricing
    ensures forall p :: p in engine.permissions ==> p in ctx.granted
    ensures provider.credentials == RequiredCredentials ==> provider.id in ctx.configured
  {
  }

  /** Nothing more is asked: an engine in good standing that respects the mode is usable. */
  lemma RespectingModeIsUsable(engine: Engine, provider: Provider, ctx: Context)
    requires engine.status in {Stable, Beta} && provider.status in {ProviderConfigured, ProviderNotConfigured}
    requires Executes(provider) && forall p :: p in engine.permissions ==> p in ctx.granted
    requires ctx.mode == StrictLocal ==> engine.dataFlow == LocalFlow
    requires ctx.mode == ZeroCredential && provider.credentials == RequiredCredentials ==> engine.dataFlow == LocalFlow
    requires ctx.mode in {StrictLocal, ZeroCredential, FreeTier} ==> provider.pricing != PaidPricing
    requires provider.credentials == RequiredCredentials ==> provider.id in ctx.configured
    ensures EngineExclusion(engine, provider, ctx).None?
  {
  }

  /** `b` allows at least what `a` allows. */
  predicate Relaxes(a: Context, b: Context) {
    Rank(a.mode) <= Rank(b.mode) && a.configured <= b.configured && a.granted <= b.granted
  }

  /** Relaxing the mode, configuring providers or granting permissions never takes an engine away. */
  lemma RelaxingKeepsEngine(engine: Engine, provider: Provider, a: Context, b: Context)
    requires Relaxes(a, b) && EngineExclusion(engine, provider, a).None?
    ensures EngineExclusion(engine, provider, b).None?
  {
  }

  // ---------------------------------------------------------------- scores

  function Privacy(flow: DataFlow): real {
    match flow case LocalFlow => 1.0 case NetworkFlow => 0.6 case ExternalApiFlow => 0.3
  }

  function Availability(status: ProviderStatus): real {
    match status
    case ProviderConfigured => 1.0
    case ProviderNotConfigured => 0.5
    case ProviderInvalid => 0.1
    case ProviderRateLimited => 0.2
    case ProviderDisabled => 0.0
    case ProviderUnavailable => 0.0
    case ProviderDeprecated => 0.0
  }

  function Speed(cost: ExecutionClass): real {
    match cost case Fast => 1.0 case Standard => 0.7 case Deep => 0.3 case OptionalRun => 0.5
  }

  /** Weighted sum of the six signals. */
  function EngineScore(engine: Engine, status: ProviderStatus): real {
    0.3 * engine.resultQuality + 0.2 * engine.reliability + 0.15 * Privacy(engine.dataFlow)
    + 0.15 * Availability(status) + 0.1 * Speed(engine.cost) + 0.1 * engine.maintenance
  }

  /** What the manifest schema guarantees of quality signals. */
  predicate UnitQuality(engine: Engine) {
    0.0 <= engine.resultQuality <= 1.0 && 0.0 <= engine.reliability <= 1.0 && 0.0 <= engine.maintenance <= 1.0
  }

  lemma ScoreIsUnit(engine: Engine, status: ProviderStatus)
    requires UnitQuality(engine)
    ensures 0.0 <= EngineScore(engine, status) <= 1.0
  {
  }
}
