/** Manifests of a small catalogue: an engine on the machine, one that needs an account, and the link out that ends
  * every chain.
  */
module Samples {
  import opened Modes
  import opened Options
  import opened Router

  /** Runs on the machine, for one capability. */
  function Local(id: EngineId, capability: Capability): Engine {
    Engine(id, capability, "host", LocalFlow, [], 1.0, 1.0, 1.0, Fast, false, Stable)
  }

  /** Asks a registry that gives answers to account holders only. */
  function Registrar(): Engine {
    Engine("registrar", "whois", "registry", ExternalApiFlow, [NetworkPermission], 1.0, 1.0, 1.0, Standard, false, Stable)
  }

  /** Opens a page in the browser. */
  function LinkOut(): Engine {
    Engine("browser", "link-out", "web", NetworkFlow, [NetworkPermission], 1.0, 1.0, 1.0, Fast, true, Stable)
  }

  function Host(): Provider {
    Provider("host", A, NoCredentials, LocalPricing, ProviderConfigured)
  }

  function AccountRegistry(): Provider {
    Provider("registry", C, RequiredCredentials, FreeTierPricing, ProviderNotConfigured)
  }

  function Web(): Provider {
    Provider("web", E, NoCredentials, FreePricing, ProviderConfigured)
  }

  function Providers(): seq<Provider> {
    [Host(), AccountRegistry(), Web()]
  }

  /** All configured providers allowed, none configured, the network granted. */
  function FreshContext(): Context {
    Context(Configured, {}, {NetworkPermission})
  }

  lemma ProvidersFound()
    ensures FindProvider(Providers(), "host") == Some(Host())
    ensures FindProvider(Providers(), "registry") == Some(AccountRegistry())
    ensures FindProvider(Providers(), "web") == Some(Web())
  {
    var ps := Providers();
    assert |"host"| == 4 && |"registry"| == 8 && |"web"| == 3;
    assert ps[..2] == [Host(), AccountRegistry()] && ps[..2][..1] == [Host()];
  }

  lemma LocalIsUsable(id: EngineId, capability: Capability)
    ensures EngineExclusion(Local(id, capability), Host(), FreshContext()).None?
  {
  }

  lemma RegistrarIsNot()
    ensures EngineExclusion(Registrar(), AccountRegistry(), FreshContext()) == Some(RequiresConfiguration)
  {
    assert NetworkPermission in FreshContext().granted;
  }
}
