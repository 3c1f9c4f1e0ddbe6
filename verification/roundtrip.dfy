/** The invariants every parsed address keeps, and the round trips between parsing and
    rendering that they make possible. */
module RoundTrip {
  import opened Wrappers
  import Strings
  import Unicode
  import SvcHost
  import Part
  import Addr
  import Source

  /** A token that is its own parse: accepted and already normalised. */
  predicate IsNormalPart(s: string) {
    Part.ParseProviderPart(s) == Success(s)
  }

  /** The invariants of an address produced by parsing: a normalised type without a
      reserved prefix (outside the built-in namespace), a normalised namespace or the
      unknown-namespace marker, and a normalised host. */
  predicate Valid(p: Addr.Provider) {
    && IsNormalPart(p.typeName)
    && (p.namespace == Addr.UnknownProviderNamespace || IsNormalPart(p.namespace))
    && SvcHost.ForComparison(p.hostname.name) == Success(p.hostname)
    && !Source.IsReservedType(p.namespace, p.typeName)
  }

  lemma DefaultHostFacts()
    ensures SvcHost.IsHostName("registry.opentofu.org")
    ensures ':' !in "registry.opentofu.org"
  {
  }

  lemma DefaultHostLower()
    ensures Unicode.Lower("registry.opentofu.org") == "registry.opentofu.org"
  {
    var s := "registry.opentofu.org";
    forall i | 0 <= i < |s|
      ensures !Unicode.IsUpper(s[i])
    {
    }
    Unicode.LowerOfLowerCase(s);
  }

  /** The default registry host is in normal form. */
  lemma DefaultHostIsNormal()
    ensures SvcHost.ForComparison(Addr.DefaultProviderRegistryHost.name) == Success(Addr.DefaultProviderRegistryHost)
  {
    DefaultHostFacts();
    DefaultHostLower();
    SvcHost.PlainHostName("registry.opentofu.org");
  }

  /** The type of a parsed address is its own parse. */
  lemma ParsedTypeIsNormal(str: string)
    requires Source.ParseProviderSource(str).err.None?
    ensures IsNormalPart(Source.ParseProviderSource(str).provider.typeName)
  {
    var parts := Strings.Split(str, '/');
    Part.ParsePartIdempotent(parts[|parts| - 1]);
  }

  /** The namespace of a parsed address is its own parse, or the unknown-namespace marker. */
  lemma ParsedNamespaceIsNormal(str: string)
    requires Source.ParseProviderSource(str).err.None?
    ensures var p := Source.ParseProviderSource(str).provider;
      p.namespace == Addr.UnknownProviderNamespace || IsNormalPart(p.namespace)
  {
    var parts := Strings.Split(str, '/');
    if |parts| >= 2 {
      Part.ParsePartIdempotent(parts[|parts| - 2]);
    }
  }

  /** The host of a parsed address is in normal form. */
  lemma ParsedHostIsNormal(str: string)
    requires Source.ParseProviderSource(str).err.None?
    ensures var h := Source.ParseProviderSource(str).provider.hostname;
      SvcHost.ForComparison(h.name) == Success(h)
  {
    var parts := Strings.Split(str, '/');
    Source.ParsedHost(str);
    if |parts| == 3 {
      SvcHost.ForComparisonIdempotent(parts[0]);
    } else {
      DefaultHostIsNormal();
    }
  }

  /** Every address the parser returns keeps the invariants. */
  lemma ParsedIsValid(str: string)
    requires Source.ParseProviderSource(str).err.None?
    ensures Valid(Source.ParseProviderSource(str).provider)
  {
    ParsedTypeIsNormal(str);
    ParsedNamespaceIsNormal(str);
    ParsedHostIsNormal(str);
  }

  /** The fields of a valid address are slash-free, non-empty segments. */
  lemma ValidFieldsAreSegments(p: Addr.Provider)
    requires Valid(p)
    ensures |p.typeName| > 0 && '/' !in p.typeName
    ensures p.namespace != Addr.UnknownProviderNamespace ==> |p.namespace| > 0 && '/' !in p.namespace
    ensures |p.hostname.name| > 0 && '/' !in p.hostname.name
  {
    Source.WellFormedIsSegment(p.typeName);
    if p.namespace != Addr.UnknownProviderNamespace {
      Source.WellFormedIsSegment(p.namespace);
    }
    SvcHost.NormalNameIsSegment(p.hostname.name);
  }

  /** The canonical string of a valid address with a namespace parses back to the address. */
  lemma ParseString(p: Addr.Provider)
    requires Valid(p) && p.namespace != Addr.UnknownProviderNamespace
    ensures Source.ParseProviderSource(Addr.String(p)) == Source.Parsed(p, None)
  {
    ValidFieldsAreSegments(p);
    Source.ParseThreeSegments(p.hostname.name, p.namespace, p.typeName);
  }

  /** The display string of a valid address with a namespace parses back to the address. */
  lemma ParseForDisplay(p: Addr.Provider)
    requires Valid(p) && p.namespace != Addr.UnknownProviderNamespace
    ensures Source.ParseProviderSource(Addr.ForDisplay(p)) == Source.Parsed(p, None)
  {
    ValidFieldsAreSegments(p);
    if p.hostname == Addr.DefaultProviderRegistryHost {
      Source.ParseTwoSegments(p.namespace, p.typeName);
    } else {
      ParseString(p);
    }
  }

  /** A valid address in the unknown namespace on the default host parses back from its
      bare type. */
  lemma ParseBareType(p: Addr.Provider)
    requires Valid(p) && p.namespace == Addr.UnknownProviderNamespace
    requires p.hostname == Addr.DefaultProviderRegistryHost
    ensures Source.ParseProviderSource(p.typeName) == Source.Parsed(p, None)
  {
    ValidFieldsAreSegments(p);
    Source.ParseOneSegment(p.typeName);
  }

  /** Rendering a parsed address and parsing the result gives the same address: through
      the canonical and the display string when the source named a namespace, through the
      bare type when it did not. */
  lemma RenderThenParse(str: string)
    requires Source.ParseProviderSource(str).err.None?
    ensures var p := Source.ParseProviderSource(str).provider;
      if p.namespace != Addr.UnknownProviderNamespace then
        && Source.ParseProviderSource(Addr.String(p)) == Source.ParseProviderSource(str)
        && Source.ParseProviderSource(Addr.ForDisplay(p)) == Source.ParseProviderSource(str)
      else Source.ParseProviderSource(p.typeName) == Source.ParseProviderSource(str)
  {
    var r := Source.ParseProviderSource(str);
    var p := r.provider;
    assert r == Source.Parsed(p, None);
    ParsedIsValid(str);
    if p.namespace != Addr.UnknownProviderNamespace {
      ParseString(p);
      ParseForDisplay(p);
    } else {
      Source.OneSegmentIffNoSlash(str);
      ParseBareType(p);
    }
  }
}
