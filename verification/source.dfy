/** ParseProviderSource: from a source string to a provider address. */
module Source {
  import opened Wrappers
  import Strings
  import Unicode
  import SvcHost
  import Errors
  import Part
  import Addr

  /** What the parser returns: an address and, on failure, an error beside the zero address. */
  datatype Parsed = Parsed(provider: Addr.Provider, err: Option<Errors.ParserError>)

  const SummarySource := "Invalid provider source string"
  const DetailSource := "The \"source\" attribute must be in the format \"[hostname/][namespace/]name\""
  const SummaryHost := "Invalid provider source hostname"
  const SummaryNamespace := "Invalid provider namespace"
  const SummaryType := "Invalid provider type"

  /** Type prefixes that repeat the name of OpenTofu or of its predecessor.  Each long
      "-provider-" form comes before its short form, so the message names the more
      specific one: that form usually means a repository or executable name was given. */
  const ReservedPrefixes: seq<string> := ["opentofu-provider-", "opentofu-", "terraform-provider-", "terraform-"]

  function Quote(s: string): string {
    "\"" + s + "\""
  }

  function Fail(summary: string, detail: string): Parsed {
    Parsed(Addr.Zero, Some(Errors.ParserError(summary, detail)))
  }

  /** The first of the prefixes the string starts with. */
  function FirstPrefix(s: string, prefixes: seq<string>): (r: Option<string>)
    ensures r.Some? ==> r.value in prefixes && Strings.HasPrefix(s, r.value)
    ensures r.None? <==> forall i :: 0 <= i < |prefixes| ==> !Strings.HasPrefix(s, prefixes[i])
    ensures |prefixes| > 0 && Strings.HasPrefix(s, prefixes[0]) ==> r == Some(prefixes[0])
    decreases |prefixes|
  {
    if |prefixes| == 0 then None
    else if Strings.HasPrefix(s, prefixes[0]) then Some(prefixes[0])
    else FirstPrefix(s, prefixes[1..])
  }

  /** The reserved prefix a type starts with, if any.  Only the two short forms matter
      for acceptance; the long forms only choose the message. */
  function ReservedPrefixOf(typeName: string): (r: Option<string>)
    ensures r.Some? ==> r.value in ReservedPrefixes && Strings.HasPrefix(typeName, r.value)
    ensures r.None? <==> !Strings.HasPrefix(typeName, "opentofu-") && !Strings.HasPrefix(typeName, "terraform-")
    ensures Strings.HasPrefix(typeName, "opentofu-provider-") ==> r == Some("opentofu-provider-")
    ensures Strings.HasPrefix(typeName, "terraform-provider-") ==> r == Some("terraform-provider-")
  {
    var r := FirstPrefix(typeName, ReservedPrefixes);
    assert ReservedPrefixes[1..][1..][1..] == ["terraform-"];
    LongPrefixesExtendShort();
    if Strings.HasPrefix(typeName, "opentofu-provider-") then
      Strings.PrefixOfPrefix(typeName, "opentofu-provider-", "opentofu-");
      assert typeName[0] == 'o';
      r
    else if Strings.HasPrefix(typeName, "terraform-provider-") then
      Strings.PrefixOfPrefix(typeName, "terraform-provider-", "terraform-");
      assert typeName[0] == 't' && !Strings.HasPrefix(typeName, ReservedPrefixes[1]);
      r
    else r
  }

  /** Each long reserved prefix extends its short form. */
  lemma LongPrefixesExtendShort()
    ensures Strings.HasPrefix("opentofu-provider-", "opentofu-")
    ensures Strings.HasPrefix("terraform-provider-", "terraform-")
  {
  }

  /** A type the parser refuses for its prefix: any namespace but the built-in one. */
  predicate IsReservedType(namespace: string, typeName: string) {
    namespace != Addr.BuiltInProviderNamespace && ReservedPrefixOf(typeName).Some?
  }

  function PartDetail(what: string, given: string, source: string, msg: string): string {
    "Invalid provider " + what + " " + Quote(given) + " in source " + Quote(source) + ": " + msg
  }

  function HostDetail(given: string, source: string, msg: string): string {
    "Invalid provider source hostname " + Quote(given) + " in source " + Quote(source) + ": " + msg
  }

  lemma HostDetailEndsWithMessage(given: string, source: string, msg: string)
    ensures Strings.HasSuffix(HostDetail(given, source, msg), msg)
  {
  }

  lemma PartDetailEndsWithMessage(what: string, given: string, source: string, msg: string)
    ensures Strings.HasSuffix(PartDetail(what, given, source, msg), msg)
  {
  }

  function PrefixDetail(candidate: Addr.Provider, prefix: string): string {
    "Provider source " + Quote(Addr.ForDisplay(candidate)) + " has a type with the prefix " + Quote(prefix)
    + PrefixAdvice
  }

  const PrefixAdvice := ", which is not allowed: a provider type must not repeat the name of OpenTofu or of its predecessor,"
    + " and a \"-provider-\" prefix is the form of a repository or executable name rather than a provider type."

  /** Parses "[hostname/][namespace/]type".  The string is split on "/" into one, two or
      three non-empty segments; a missing host is the default registry host, a missing
      namespace is the unknown-namespace marker.  The host goes to the host normaliser,
      namespace and type to ParseProviderPart, and a type with a reserved prefix is refused
      outside the built-in namespace.  Any failure returns the zero address. */
  function ParseProviderSource(str: string): (r: Parsed)
    ensures r.err.Some? ==> r.provider == Addr.Zero
    ensures r.err.None? ==> Part.WellFormed(r.provider.typeName) && !Part.HasDoubleDash(r.provider.typeName)
    ensures r.err.None? ==> (r.provider.namespace == Addr.UnknownProviderNamespace <==> '/' !in str)
    ensures r.err.None? ==> r.provider.namespace == Addr.UnknownProviderNamespace || Part.WellFormed(r.provider.namespace)
    ensures r.err.None? ==> !IsReservedType(r.provider.namespace, r.provider.typeName)
  {
    OneSegmentIffNoSlash(str);
    ParseSegments(Strings.Split(str, '/'), str)
  }

  /** The parse of the segments of str, which is only quoted in messages.  One segment is
      a type, two are namespace and type, three are host, namespace and type. */
  function ParseSegments(parts: seq<string>, str: string): (r: Parsed)
    requires |parts| > 0
    ensures r.err.Some? ==> r.provider == Addr.Zero
    ensures r.err.None? ==> |parts| <= 3 && "" !in parts
    ensures r.err.None? ==> Part.WellFormed(r.provider.typeName) && !Part.HasDoubleDash(r.provider.typeName)
    ensures r.err.None? ==> (r.provider.namespace == Addr.UnknownProviderNamespace <==> |parts| == 1)
    ensures r.err.None? ==> r.provider.namespace == Addr.UnknownProviderNamespace || Part.WellFormed(r.provider.namespace)
    ensures r.err.None? ==> !IsReservedType(r.provider.namespace, r.provider.typeName)
  {
    if |parts| > 3 || "" in parts then Fail(SummarySource, DetailSource)
    else
      var given := parts[|parts| - 1];
      var host := if |parts| == 3 then SvcHost.ForComparison(parts[0]) else Success(Addr.DefaultProviderRegistryHost);
      if host.Failure? then
        Fail(SummaryHost, HostDetail(parts[0], str, host.error))
      else if |parts| >= 2 && Part.ParseProviderPart(parts[|parts| - 2]).Failure? then
        Fail(SummaryNamespace, PartDetail("namespace", parts[|parts| - 2], str, Part.ParseProviderPart(parts[|parts| - 2]).error))
      else
        var namespace := if |parts| >= 2 then Part.ParseProviderPart(parts[|parts| - 2]).value else Addr.UnknownProviderNamespace;
        var typeName := Part.ParseProviderPart(given);
        if typeName.Failure? then
          Fail(SummaryType, PartDetail("type", given, str, typeName.error))
        else Assemble(host.value, namespace, typeName.value)
  }

  /** The last step of a parse: the address from its normalised parts, unless the type
      carries a reserved prefix. */
  function Assemble(host: SvcHost.Hostname, namespace: string, typeName: string): (r: Parsed)
    ensures r.err.None? <==> !IsReservedType(namespace, typeName)
    ensures r.err.None? ==> r.provider == Addr.Provider(typeName, namespace, host)
    ensures r.err.Some? ==> r.provider == Addr.Zero && r.err.value.summary == SummaryType
  {
    var candidate := Addr.Provider(typeName, namespace, host);
    var prefix := ReservedPrefixOf(typeName);
    if namespace != Addr.BuiltInProviderNamespace && prefix.Some? then
      Fail(SummaryType, PrefixDetail(candidate, prefix.value))
    else Parsed(candidate, None)
  }

  /** A parsed token never holds a slash and is never empty. */
  lemma WellFormedIsSegment(s: string)
    requires Part.WellFormed(s)
    ensures |s| > 0 && '/' !in s
  {
    forall i | 0 <= i < |s|
      ensures s[i] != '/'
    {
      assert Part.IsPartChar(s[i]);
    }
  }

  /** The string splits into one piece exactly when it holds no slash. */
  lemma OneSegmentIffNoSlash(str: string)
    ensures |Strings.Split(str, '/')| == 1 <==> '/' !in str
  {
  }

  /** Three slash-free segments: host, namespace and type, each judged on its own. */
  lemma ParseThreeSegments(h: string, n: string, t: string)
    requires '/' !in h && '/' !in n && '/' !in t
    ensures var r := ParseProviderSource(h + "/" + n + "/" + t);
      && (r.err.None? <==>
           && SvcHost.ForComparison(h).Success?
           && Part.ParseProviderPart(n).Success?
           && Part.ParseProviderPart(t).Success?
           && !IsReservedType(Part.ParseProviderPart(n).value, Part.ParseProviderPart(t).value))
      && (r.err.None? ==>
           r.provider == Addr.Provider(Part.ParseProviderPart(t).value, Part.ParseProviderPart(n).value, SvcHost.ForComparison(h).value))
  {
    var str := h + "/" + n + "/" + t;
    Strings.SplitThree(h, n, t, '/');
    assert ParseProviderSource(str) == ParseSegments([h, n, t], str);
    SegmentsThree(h, n, t, str);
  }

  lemma SegmentsThree(h: string, n: string, t: string, str: string)
    ensures var r := ParseSegments([h, n, t], str);
      && (r.err.None? <==>
           && SvcHost.ForComparison(h).Success?
           && Part.ParseProviderPart(n).Success?
           && Part.ParseProviderPart(t).Success?
           && !IsReservedType(Part.ParseProviderPart(n).value, Part.ParseProviderPart(t).value))
      && (r.err.None? ==>
           r.provider == Addr.Provider(Part.ParseProviderPart(t).value, Part.ParseProviderPart(n).value, SvcHost.ForComparison(h).value))
  {
    var parts := [h, n, t];
    assert parts[0] == h && parts[1] == n && parts[2] == t;
    assert "" in parts <==> h == "" || n == "" || t == "";
    SvcHost.EmptyHostRejected();
  }

  /** Two slash-free segments: namespace and type on the default registry host. */
  lemma ParseTwoSegments(n: string, t: string)
    requires '/' !in n && '/' !in t
    ensures var r := ParseProviderSource(n + "/" + t);
      && (r.err.None? <==>
           && Part.ParseProviderPart(n).Success?
           && Part.ParseProviderPart(t).Success?
           && !IsReservedType(Part.ParseProviderPart(n).value, Part.ParseProviderPart(t).value))
      && (r.err.None? ==>
           r.provider == Addr.Provider(Part.ParseProviderPart(t).value, Part.ParseProviderPart(n).value, Addr.DefaultProviderRegistryHost))
  {
    Strings.SplitTwo(n, t, '/');
    assert ParseProviderSource(n + "/" + t) == ParseSegments([n, t], n + "/" + t);
    SegmentsTwo(n, t, n + "/" + t);
  }

  lemma SegmentsTwo(n: string, t: string, str: string)
    ensures var r := ParseSegments([n, t], str);
      && (r.err.None? <==>
           && Part.ParseProviderPart(n).Success?
           && Part.ParseProviderPart(t).Success?
           && !IsReservedType(Part.ParseProviderPart(n).value, Part.ParseProviderPart(t).value))
      && (r.err.None? ==>
           r.provider == Addr.Provider(Part.ParseProviderPart(t).value, Part.ParseProviderPart(n).value, Addr.DefaultProviderRegistryHost))
  {
    var parts := [n, t];
    assert parts[0] == n && parts[1] == t;
    assert "" in parts <==> n == "" || t == "";
  }

  /** One segment: a type on the default registry host in the unknown namespace. */
  lemma ParseOneSegment(t: string)
    requires '/' !in t
    ensures var r := ParseProviderSource(t);
      && (r.err.None? <==> Part.ParseProviderPart(t).Success? && ReservedPrefixOf(Part.ParseProviderPart(t).value).None?)
      && (r.err.None? ==>
           r.provider == Addr.Provider(Part.ParseProviderPart(t).value, Addr.UnknownProviderNamespace, Addr.DefaultProviderRegistryHost))
  {
    Strings.SplitNoSep(t, '/');
    assert ParseProviderSource(t) == ParseSegments([t], t);
  }

  /** More than three segments is a malformed source string. */
  lemma TooManySegments(str: string)
    requires multiset(str)['/'] >= 3
    ensures ParseProviderSource(str) == Fail(SummarySource, DetailSource)
  {
  }

  /** An empty segment is a malformed source string, whatever the other segments. */
  lemma EmptyPartRejected(str: string)
    requires "" in Strings.Split(str, '/')
    ensures ParseProviderSource(str) == Fail(SummarySource, DetailSource)
  {
  }

  /** A leading slash leaves an empty first segment: a malformed source string. */
  lemma LeadingSlashRejected(a: string)
    ensures ParseProviderSource("/" + a) == Fail(SummarySource, DetailSource)
  {
    Strings.SplitAppend("", '/', a);
    assert "" + ['/'] + a == "/" + a;
    assert Strings.Split("", '/') == [""];
    assert "" in Strings.Split("/" + a, '/');
    EmptyPartRejected("/" + a);
  }

  /** A trailing slash leaves an empty last segment: a malformed source string. */
  lemma TrailingSlashRejected(a: string)
    ensures ParseProviderSource(a + "/") == Fail(SummarySource, DetailSource)
  {
    Strings.SplitAppend(a, '/', "");
    assert a + ['/'] + "" == a + "/";
    var parts := Strings.Split(a + "/", '/');
    assert parts[|parts| - 1] == "";
    EmptyPartRejected(a + "/");
  }

  /** A doubled slash leaves an empty inner segment: a malformed source string. */
  lemma DoubleSlashRejected(a: string, b: string)
    ensures ParseProviderSource(a + "//" + b) == Fail(SummarySource, DetailSource)
  {
    assert a + "//" + b == a + ['/', '/'] + b;
    Strings.SplitDoubleSep(a, '/', b);
    EmptyPartRejected(a + "//" + b);
  }

  /** An empty segment, from a leading, trailing or doubled slash, is a malformed source string. */
  lemma EmptySegmentRejected(a: string, b: string)
    ensures ParseProviderSource("/" + a) == Fail(SummarySource, DetailSource)
    ensures ParseProviderSource(a + "/") == Fail(SummarySource, DetailSource)
    ensures ParseProviderSource(a + "//" + b) == Fail(SummarySource, DetailSource)
  {
    LeadingSlashRejected(a);
    TrailingSlashRejected(a);
    DoubleSlashRejected(a, b);
  }

  /** A host the normaliser refuses fails the parse, and its message is passed on at the
      end of the detail. */
  lemma HostErrorForwarded(h: string, n: string, t: string)
    requires '/' !in h && '/' !in n && '/' !in t
    requires h != "" && SvcHost.ForComparison(h).Failure?
    requires Part.ParseProviderPart(n).Success? && Part.ParseProviderPart(t).Success?
    ensures var r := ParseProviderSource(h + "/" + n + "/" + t);
      && r.provider == Addr.Zero
      && r.err.Some? && r.err.value.summary == SummaryHost
      && Strings.HasSuffix(r.err.value.detail, SvcHost.ForComparison(h).error)
  {
    Strings.SplitThree(h, n, t, '/');
    var str := h + "/" + n + "/" + t;
    assert ParseProviderSource(str) == ParseSegments([h, n, t], str);
    SegmentsHostError(h, n, t, str);
    HostDetailEndsWithMessage(h, str, SvcHost.ForComparison(h).error);
  }

  lemma SegmentsHostError(h: string, n: string, t: string, str: string)
    requires h != "" && SvcHost.ForComparison(h).Failure?
    requires Part.ParseProviderPart(n).Success? && Part.ParseProviderPart(t).Success?
    ensures ParseSegments([h, n, t], str) == Fail(SummaryHost, HostDetail(h, str, SvcHost.ForComparison(h).error))
  {
    var parts := [h, n, t];
    assert parts[0] == h && parts[1] == n && parts[2] == t;
    assert "" !in parts;
  }

  /** A namespace ParseProviderPart refuses, before an accepted type, fails the parse, its
      message at the end of the detail, with or without a good host in front of it. */
  lemma NamespaceErrorForwarded(h: string, n: string, t: string)
    requires '/' !in h && '/' !in n && '/' !in t
    requires n != ""
    requires Part.ParseProviderPart(n).Failure? && Part.ParseProviderPart(t).Success?
    ensures var r := ParseProviderSource(n + "/" + t);
      && r.provider == Addr.Zero
      && r.err.Some? && r.err.value.summary == SummaryNamespace
      && Strings.HasSuffix(r.err.value.detail, Part.ParseProviderPart(n).error)
    ensures SvcHost.ForComparison(h).Success? ==>
      var r := ParseProviderSource(h + "/" + n + "/" + t);
      && r.provider == Addr.Zero
      && r.err.Some? && r.err.value.summary == SummaryNamespace
      && Strings.HasSuffix(r.err.value.detail, Part.ParseProviderPart(n).error)
  {
    var two := n + "/" + t;
    Strings.SplitTwo(n, t, '/');
    assert ParseProviderSource(two) == ParseSegments([n, t], two);
    SegmentsNamespaceError([n, t], two);
    PartDetailEndsWithMessage("namespace", n, two, Part.ParseProviderPart(n).error);
    if SvcHost.ForComparison(h).Success? {
      var three := h + "/" + n + "/" + t;
      SvcHost.EmptyHostRejected();
      Strings.SplitThree(h, n, t, '/');
      assert ParseProviderSource(three) == ParseSegments([h, n, t], three);
      SegmentsNamespaceError([h, n, t], three);
      PartDetailEndsWithMessage("namespace", n, three, Part.ParseProviderPart(n).error);
    }
  }

  /** The one refused segment is the namespace: the host, if any, and the type are accepted. */
  lemma SegmentsNamespaceError(parts: seq<string>, str: string)
    requires 2 <= |parts| <= 3 && "" !in parts
    requires |parts| == 3 ==> SvcHost.ForComparison(parts[0]).Success?
    requires Part.ParseProviderPart(parts[|parts| - 2]).Failure?
    requires Part.ParseProviderPart(parts[|parts| - 1]).Success?
    ensures ParseSegments(parts, str)
         == Fail(SummaryNamespace, PartDetail("namespace", parts[|parts| - 2], str, Part.ParseProviderPart(parts[|parts| - 2]).error))
  {
  }

  /** A type ParseProviderPart refuses fails the parse, its message at the end of the detail,
      whether it stands alone or follows a good namespace and a good host. */
  lemma TypeErrorForwarded(h: string, n: string, t: string)
    requires '/' !in h && '/' !in n && '/' !in t && t != ""
    requires Part.ParseProviderPart(t).Failure?
    ensures var r := ParseProviderSource(t);
      && r.provider == Addr.Zero
      && r.err.Some? && r.err.value.summary == SummaryType
      && Strings.HasSuffix(r.err.value.detail, Part.ParseProviderPart(t).error)
    ensures Part.ParseProviderPart(n).Success? ==>
      var r := ParseProviderSource(n + "/" + t);
      && r.provider == Addr.Zero
      && r.err.Some? && r.err.value.summary == SummaryType
      && Strings.HasSuffix(r.err.value.detail, Part.ParseProviderPart(t).error)
    ensures Part.ParseProviderPart(n).Success? && SvcHost.ForComparison(h).Success? ==>
      var r := ParseProviderSource(h + "/" + n + "/" + t);
      && r.provider == Addr.Zero
      && r.err.Some? && r.err.value.summary == SummaryType
      && Strings.HasSuffix(r.err.value.detail, Part.ParseProviderPart(t).error)
  {
    Strings.SplitNoSep(t, '/');
    assert ParseProviderSource(t) == ParseSegments([t], t);
    SegmentsTypeError([t], t);
    PartDetailEndsWithMessage("type", t, t, Part.ParseProviderPart(t).error);
    if Part.ParseProviderPart(n).Success? {
      var two := n + "/" + t;
      Strings.SplitTwo(n, t, '/');
      assert ParseProviderSource(two) == ParseSegments([n, t], two);
      SegmentsTypeError([n, t], two);
      PartDetailEndsWithMessage("type", t, two, Part.ParseProviderPart(t).error);
      if SvcHost.ForComparison(h).Success? {
        var three := h + "/" + n + "/" + t;
        SvcHost.EmptyHostRejected();
        Strings.SplitThree(h, n, t, '/');
        assert ParseProviderSource(three) == ParseSegments([h, n, t], three);
        SegmentsTypeError([h, n, t], three);
        PartDetailEndsWithMessage("type", t, three, Part.ParseProviderPart(t).error);
      }
    }
  }

  /** The type is checked once the host and the namespace have passed. */
  lemma SegmentsTypeError(parts: seq<string>, str: string)
    requires 1 <= |parts| <= 3 && "" !in parts
    requires |parts| == 3 ==> SvcHost.ForComparison(parts[0]).Success?
    requires |parts| >= 2 ==> Part.ParseProviderPart(parts[|parts| - 2]).Success?
    requires Part.ParseProviderPart(parts[|parts| - 1]).Failure?
    ensures ParseSegments(parts, str)
         == Fail(SummaryType, PartDetail("type", parts[|parts| - 1], str, Part.ParseProviderPart(parts[|parts| - 1]).error))
  {
  }

  /** A type starting with "opentofu-" or "terraform-" (the "-provider-" forms included)
      is refused alone, and in every namespace but the built-in one. */
  lemma ReservedTypeRejected(h: string, n: string, t: string)
    requires '/' !in h && '/' !in n && '/' !in t
    requires Part.ParseProviderPart(t).Success?
    requires Strings.HasPrefix(Part.ParseProviderPart(t).value, "opentofu-") || Strings.HasPrefix(Part.ParseProviderPart(t).value, "terraform-")
    ensures var r := ParseProviderSource(t);
      r.provider == Addr.Zero && r.err.Some? && r.err.value.summary == SummaryType
    ensures Part.ParseProviderPart(n).Success? && Part.ParseProviderPart(n).value != Addr.BuiltInProviderNamespace ==>
      var r := ParseProviderSource(n + "/" + t);
      r.provider == Addr.Zero && r.err.Some? && r.err.value.summary == SummaryType
    ensures
      && Part.ParseProviderPart(n).Success? && Part.ParseProviderPart(n).value != Addr.BuiltInProviderNamespace
      && SvcHost.ForComparison(h).Success?
      ==>
      var r := ParseProviderSource(h + "/" + n + "/" + t);
      r.provider == Addr.Zero && r.err.Some? && r.err.value.summary == SummaryType
  {
    var tv := Part.ParseProviderPart(t).value;
    assert ReservedPrefixOf(tv).Some?;
    ReservedAlone(t);
    if Part.ParseProviderPart(n).Success? && Part.ParseProviderPart(n).value != Addr.BuiltInProviderNamespace {
      ReservedUnderNamespace(n, t);
      if SvcHost.ForComparison(h).Success? {
        ReservedUnderHost(h, n, t);
      }
    }
  }

  /** A bare reserved type: the unknown namespace is not the built-in one. */
  lemma ReservedAlone(t: string)
    requires '/' !in t && Part.ParseProviderPart(t).Success?
    requires IsReservedType(Addr.UnknownProviderNamespace, Part.ParseProviderPart(t).value)
    ensures var r := ParseProviderSource(t);
      r.provider == Addr.Zero && r.err.Some? && r.err.value.summary == SummaryType
  {
    Strings.SplitNoSep(t, '/');
    assert ParseProviderSource(t) == ParseSegments([t], t);
    SegmentsReservedType([t], t);
  }

  /** A reserved type after a namespace other than the built-in one. */
  lemma ReservedUnderNamespace(n: string, t: string)
    requires '/' !in n && '/' !in t
    requires Part.ParseProviderPart(n).Success? && Part.ParseProviderPart(t).Success?
    requires IsReservedType(Part.ParseProviderPart(n).value, Part.ParseProviderPart(t).value)
    ensures var r := ParseProviderSource(n + "/" + t);
      r.provider == Addr.Zero && r.err.Some? && r.err.value.summary == SummaryType
  {
    var two := n + "/" + t;
    Strings.SplitTwo(n, t, '/');
    assert ParseProviderSource(two) == ParseSegments([n, t], two);
    SegmentsReservedType([n, t], two);
  }

  /** A reserved type after a good host and a namespace other than the built-in one. */
  lemma ReservedUnderHost(h: string, n: string, t: string)
    requires '/' !in h && '/' !in n && '/' !in t
    requires SvcHost.ForComparison(h).Success?
    requires Part.ParseProviderPart(n).Success? && Part.ParseProviderPart(t).Success?
    requires IsReservedType(Part.ParseProviderPart(n).value, Part.ParseProviderPart(t).value)
    ensures var r := ParseProviderSource(h + "/" + n + "/" + t);
      r.provider == Addr.Zero && r.err.Some? && r.err.value.summary == SummaryType
  {
    var three := h + "/" + n + "/" + t;
    SvcHost.EmptyHostRejected();
    Strings.SplitThree(h, n, t, '/');
    assert ParseProviderSource(three) == ParseSegments([h, n, t], three);
    SegmentsReservedType([h, n, t], three);
  }

  /** The prefix gate runs last, on the normalised namespace and type. */
  lemma SegmentsReservedType(parts: seq<string>, str: string)
    requires 1 <= |parts| <= 3 && "" !in parts
    requires |parts| == 3 ==> SvcHost.ForComparison(parts[0]).Success?
    requires |parts| >= 2 ==> Part.ParseProviderPart(parts[|parts| - 2]).Success?
    requires Part.ParseProviderPart(parts[|parts| - 1]).Success?
    requires IsReservedType(
      if |parts| >= 2 then Part.ParseProviderPart(parts[|parts| - 2]).value else Addr.UnknownProviderNamespace,
      Part.ParseProviderPart(parts[|parts| - 1]).value)
    ensures var r := ParseSegments(parts, str);
      r.provider == Addr.Zero && r.err.Some? && r.err.value.summary == SummaryType
  {
  }

  /** The host of a parsed address: the normal form of the first of three segments, or
      the default registry host. */
  lemma ParsedHost(str: string)
    requires ParseProviderSource(str).err.None?
    ensures var parts := Strings.Split(str, '/');
      var h := ParseProviderSource(str).provider.hostname;
      if |parts| == 3 then SvcHost.ForComparison(parts[0]) == Success(h)
      else h == Addr.DefaultProviderRegistryHost
  {
  }

  /** Parsing never yields the legacy namespace, so no parsed address is legacy. */
  lemma ParsedNeverLegacy(str: string)
    requires ParseProviderSource(str).err.None?
    ensures ParseProviderSource(str).provider.namespace != Addr.LegacyProviderNamespace
    ensures !Addr.IsLegacy(ParseProviderSource(str).provider)
  {
    var p := ParseProviderSource(str).provider;
    if p.namespace != Addr.UnknownProviderNamespace {
      assert p.namespace[0] != '-';
    }
  }

  /** Only a three-segment source string can name a built-in address, since the default
      registry host is not a built-in host. */
  lemma BuiltInNeedsExplicitHost(str: string)
    requires ParseProviderSource(str).err.None?
    requires Addr.IsBuiltIn(ParseProviderSource(str).provider)
    ensures |Strings.Split(str, '/')| == 3
  {
  }

  /** Parsing ignores the letter case of namespace and type: both spellings give the same
      address, or both fail. */
  lemma ParseIgnoresCase(n: string, t: string)
    requires '/' !in n && '/' !in t
    ensures ParseProviderSource(Unicode.Lower(n) + "/" + Unicode.Lower(t)).provider == ParseProviderSource(n + "/" + t).provider
    ensures ParseProviderSource(Unicode.Lower(n) + "/" + Unicode.Lower(t)).err.None? == ParseProviderSource(n + "/" + t).err.None?
  {
    LowerKeepsNoSlash(n);
    LowerKeepsNoSlash(t);
    ParseTwoSegments(n, t);
    ParseTwoSegments(Unicode.Lower(n), Unicode.Lower(t));
    Part.ParsePartIgnoresCase(n);
    Part.ParsePartIgnoresCase(t);
  }

  lemma LowerKeepsNoSlash(s: string)
    requires '/' !in s
    ensures '/' !in Unicode.Lower(s)
  {
    forall i | 0 <= i < |s|
      ensures Unicode.Lower(s)[i] != '/'
    {
      assert Unicode.Lower(s)[i] == Unicode.ToLower(s[i]);
    }
  }
}
