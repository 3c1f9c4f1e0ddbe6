/** Provider: the immutable address of a provider package, its well-known constants,
    its renderings and its predicates. */
module Addr {
  import Strings
  import SvcHost

  /** A provider address: registry host, namespace and type. */
  datatype Provider = Provider(typeName: string, namespace: string, hostname: SvcHost.Hostname)

  /** The registry host assumed when a source string names no host. */
  const DefaultProviderRegistryHost := SvcHost.Hostname("registry.opentofu.org")
  /** The host of providers bundled with OpenTofu itself. */
  const BuiltInProviderHost := SvcHost.Hostname("opentofu.org")
  /** The predecessor project's built-in host, still accepted for compatibility. */
  const TransitionalBuiltInProviderHost := SvcHost.Hostname("terraform.io")
  /** The namespace of bundled providers. */
  const BuiltInProviderNamespace := "builtin"
  /** The namespace of addresses from before namespaces existed. */
  const LegacyProviderNamespace := "-"
  /** The namespace of a one-segment source string, which cannot say which namespace it meant. */
  const UnknownProviderNamespace := "?"

  /** The zero value: what the parser returns beside an error. */
  const Zero := Provider("", "", SvcHost.Hostname(""))

  /** Builds an address from parts the caller has already validated; nothing is checked. */
  function NewProvider(hostname: SvcHost.Hostname, namespace: string, typeName: string): Provider {
    Provider(typeName, namespace, hostname)
  }

  /** The canonical form: always host, namespace and type. */
  function String(p: Provider): string {
    SvcHost.ForDisplay(p.hostname) + "/" + p.namespace + "/" + p.typeName
  }

  /** The display form: the host is left out when it is the default registry host. */
  function ForDisplay(p: Provider): string {
    if p.hostname == DefaultProviderRegistryHost then p.namespace + "/" + p.typeName
    else String(p)
  }

  /** Bundled with OpenTofu: the built-in namespace on either built-in host. */
  predicate IsBuiltIn(p: Provider) {
    && (p.hostname == BuiltInProviderHost || p.hostname == TransitionalBuiltInProviderHost)
    && p.namespace == BuiltInProviderNamespace
  }

  /** A pre-namespace address: the legacy namespace on the default registry host. */
  predicate IsLegacy(p: Provider) {
    p.hostname == DefaultProviderRegistryHost && p.namespace == LegacyProviderNamespace
  }

  /** The bare type, the form pre-namespace addresses were written in.  Asking for it on
      an address that is neither in the legacy namespace nor built in is a caller error. */
  function LegacyString(p: Provider): (r: string)
    requires p.namespace == LegacyProviderNamespace || IsBuiltIn(p)
    ensures r == p.typeName
  {
    p.typeName
  }

  /** The bare type is what the canonical and the display forms end with. */
  lemma LegacyStringIsLastSegment(p: Provider)
    requires p.namespace == LegacyProviderNamespace || IsBuiltIn(p)
    requires '/' !in p.typeName
    ensures LastSegment(String(p)) == LegacyString(p)
    ensures LastSegment(ForDisplay(p)) == LegacyString(p)
  {
    LastSegmentOfJoin(SvcHost.ForDisplay(p.hostname) + "/" + p.namespace, p.typeName);
    LastSegmentOfJoin(p.namespace, p.typeName);
  }

  /** Address equality: the same host, namespace and type.  Both sides are normalised when
      built, so no folding happens here. */
  function Equals(p: Provider, q: Provider): (r: bool)
    ensures r <==> (p.hostname == q.hostname && p.namespace == q.namespace && p.typeName == q.typeName)
  {
    p == q
  }

  /** The text after the last slash. */
  function LastSegment(s: string): string {
    var parts := Strings.Split(s, '/');
    parts[|parts| - 1]
  }

  lemma LastSegmentOfJoin(prefix: string, last: string)
    requires '/' !in last
    ensures LastSegment(prefix + "/" + last) == last
  {
    Strings.SplitAppend(prefix, '/', last);
    Strings.SplitNoSep(last, '/');
  }

  /** The canonical form splits back into host, namespace and type when none holds a slash. */
  lemma StringSplitsIntoFields(p: Provider)
    requires '/' !in p.hostname.name && '/' !in p.namespace && '/' !in p.typeName
    ensures Strings.Split(String(p), '/') == [SvcHost.ForDisplay(p.hostname), p.namespace, p.typeName]
  {
    Strings.SplitThree(SvcHost.ForDisplay(p.hostname), p.namespace, p.typeName, '/');
  }

  /** The display form drops the host exactly when it is the default registry host; any
      other host, the built-in ones included, is shown. */
  lemma ForDisplayDropsOnlyDefaultHost(p: Provider)
    requires '/' !in p.hostname.name && '/' !in p.namespace && '/' !in p.typeName
    ensures p.hostname == DefaultProviderRegistryHost ==>
      && String(p) == SvcHost.ForDisplay(DefaultProviderRegistryHost) + "/" + ForDisplay(p)
      && Strings.Split(ForDisplay(p), '/') == [p.namespace, p.typeName]
    ensures p.hostname != DefaultProviderRegistryHost ==> ForDisplay(p) == String(p)
  {
    Strings.SplitTwo(p.namespace, p.typeName, '/');
  }

  /** A built-in address is displayed with its host and the word "builtin", whichever
      built-in host it uses. */
  lemma BuiltInDisplay(p: Provider)
    requires IsBuiltIn(p)
    ensures ForDisplay(p) == SvcHost.ForDisplay(p.hostname) + "/builtin/" + p.typeName
    ensures !IsLegacy(p)
  {
  }

  /** Equality is an equivalence relation. */
  lemma EqualsIsEquivalence(p: Provider, q: Provider, s: Provider)
    ensures Equals(p, p)
    ensures Equals(p, q) == Equals(q, p)
    ensures Equals(p, q) && Equals(q, s) ==> Equals(p, s)
  {
  }
}
