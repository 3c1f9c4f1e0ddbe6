/** The rows of the address tables: renderings, predicates and equality on concrete
    addresses. */
module AddrExamples {
  import SvcHost
  import Addr

  const OtherRegistry := SvcHost.Hostname("registry.opentofu.com")
  const ExampleHost := SvcHost.Hostname("example.com")

  /** The canonical form keeps the default registry host. */
  lemma StringKeepsDefaultHost()
    ensures Addr.String(Addr.NewProvider(Addr.DefaultProviderRegistryHost, "hashicorp", "test"))
         == SvcHost.ForDisplay(Addr.DefaultProviderRegistryHost) + "/hashicorp/test"
    ensures Addr.String(Addr.NewProvider(Addr.DefaultProviderRegistryHost, "hashicorp", "test-beta"))
         == "registry.opentofu.org" + "/hashicorp/test-beta"
    ensures Addr.String(Addr.NewProvider(Addr.DefaultProviderRegistryHost, "othercorp", "test"))
         == SvcHost.ForDisplay(Addr.DefaultProviderRegistryHost) + "/othercorp/test"
  {
  }

  /** The canonical form of an address on another registry. */
  lemma StringOtherHost()
    ensures Addr.String(Addr.Provider("test", "hashicorp", OtherRegistry)) == "registry.opentofu.com" + "/hashicorp/test"
  {
  }

  /** The bare type of a legacy address and of a built-in one. */
  lemma LegacyStringRows()
    ensures Addr.LegacyString(Addr.Provider("test", Addr.LegacyProviderNamespace, Addr.DefaultProviderRegistryHost)) == "test"
    ensures Addr.LegacyString(Addr.Provider("opentf", Addr.BuiltInProviderNamespace, Addr.TransitionalBuiltInProviderHost)) == "opentf"
  {
  }

  /** The display form drops the default registry host. */
  lemma DisplayDefaultHost()
    ensures Addr.ForDisplay(Addr.Provider("test", "hashicorp", Addr.DefaultProviderRegistryHost)) == "hashicorp/test"
    ensures Addr.ForDisplay(Addr.Provider("test", "othercorp", Addr.DefaultProviderRegistryHost)) == "othercorp/test"
  {
  }

  /** The display form keeps any other host. */
  lemma DisplayOtherHost()
    ensures Addr.ForDisplay(Addr.Provider("test", "hashicorp", OtherRegistry)) == "registry.opentofu.com" + "/hashicorp/test"
  {
  }

  /** A built-in address on the transitional host is displayed with that host. */
  lemma DisplayTransitionalBuiltIn()
    ensures Addr.ForDisplay(Addr.Provider("terraform", Addr.BuiltInProviderNamespace, Addr.TransitionalBuiltInProviderHost))
         == "terraform.io" + "/builtin/terraform"
  {
    Addr.BuiltInDisplay(Addr.Provider("terraform", Addr.BuiltInProviderNamespace, Addr.TransitionalBuiltInProviderHost));
  }

  /** Built in needs both the built-in namespace and a built-in host. */
  lemma IsBuiltInRows()
    ensures Addr.IsBuiltIn(Addr.Provider("test", Addr.BuiltInProviderNamespace, Addr.TransitionalBuiltInProviderHost))
    ensures Addr.IsBuiltIn(Addr.Provider("opentf", Addr.BuiltInProviderNamespace, Addr.TransitionalBuiltInProviderHost))
    ensures !Addr.IsBuiltIn(Addr.Provider("test", "boop", Addr.TransitionalBuiltInProviderHost))
    ensures !Addr.IsBuiltIn(Addr.Provider("test", Addr.BuiltInProviderNamespace, Addr.DefaultProviderRegistryHost))
    ensures !Addr.IsBuiltIn(Addr.Provider("test", "hashicorp", Addr.DefaultProviderRegistryHost))
    ensures !Addr.IsBuiltIn(Addr.Provider("test", "hashicorp", OtherRegistry))
    ensures !Addr.IsBuiltIn(Addr.Provider("test", "othercorp", Addr.DefaultProviderRegistryHost))
  {
  }

  /** Legacy needs both the legacy namespace and the default registry host. */
  lemma IsLegacyRows()
    ensures Addr.IsLegacy(Addr.Provider("test", Addr.LegacyProviderNamespace, Addr.DefaultProviderRegistryHost))
    ensures !Addr.IsLegacy(Addr.Provider("test", Addr.LegacyProviderNamespace, OtherRegistry))
    ensures !Addr.IsLegacy(Addr.Provider("test", "hashicorp", Addr.DefaultProviderRegistryHost))
  {
  }

  /** Equal exactly when host, namespace and type all agree. */
  lemma EqualsRows()
    ensures Addr.Equals(Addr.NewProvider(Addr.DefaultProviderRegistryHost, "foo", "test"), Addr.NewProvider(Addr.DefaultProviderRegistryHost, "foo", "test"))
    ensures !Addr.Equals(Addr.NewProvider(Addr.DefaultProviderRegistryHost, "foo", "test"), Addr.NewProvider(Addr.DefaultProviderRegistryHost, "bar", "test"))
    ensures !Addr.Equals(Addr.NewProvider(Addr.DefaultProviderRegistryHost, "foo", "test"), Addr.NewProvider(Addr.DefaultProviderRegistryHost, "foo", "my-test"))
    ensures !Addr.Equals(Addr.NewProvider(Addr.DefaultProviderRegistryHost, "foo", "test"), Addr.NewProvider(ExampleHost, "foo", "test"))
  {
  }
}
