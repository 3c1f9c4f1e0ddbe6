/** The source-string table of the repository's tests, one entry per lemma.  Each entry
    names its source string by a constant and reaches the parser through a helper whose
    string is a parameter, so that the verifier does not evaluate the parser on the
    literal itself. */
module SourceExamples {
  import opened Wrappers
  import Strings
  import Unicode
  import SvcHost
  import Part
  import Addr
  import Source
  import RoundTrip
  import PlainTokens
  import PartExamples

  // ---- helpers: one, two and three segments ----

  predicate Unreserved(ty: string) {
    !Strings.HasPrefix(ty, "opentofu-") && !Strings.HasPrefix(ty, "terraform-")
  }

  lemma AcceptOne(str: string, ty: string)
    requires '/' !in str && Part.ParseProviderPart(str) == Success(ty) && Unreserved(ty)
    ensures Source.ParseProviderSource(str)
         == Source.Parsed(Addr.Provider(ty, Addr.UnknownProviderNamespace, Addr.DefaultProviderRegistryHost), None)
  {
    Source.ParseOneSegment(str);
  }

  lemma AcceptTwo(str: string, n: string, t: string, ns: string, ty: string)
    requires str == n + "/" + t && '/' !in n && '/' !in t
    requires Part.ParseProviderPart(n) == Success(ns) && Part.ParseProviderPart(t) == Success(ty)
    requires Unreserved(ty)
    ensures Source.ParseProviderSource(str) == Source.Parsed(Addr.Provider(ty, ns, Addr.DefaultProviderRegistryHost), None)
  {
    Source.ParseTwoSegments(n, t);
  }

  lemma AcceptThree(str: string, h: string, n: string, t: string, host: SvcHost.Hostname, ns: string, ty: string)
    requires str == h + "/" + n + "/" + t && '/' !in h && '/' !in n && '/' !in t
    requires SvcHost.ForComparison(h) == Success(host)
    requires Part.ParseProviderPart(n) == Success(ns) && Part.ParseProviderPart(t) == Success(ty)
    requires ns == Addr.BuiltInProviderNamespace || Unreserved(ty)
    ensures Source.ParseProviderSource(str) == Source.Parsed(Addr.Provider(ty, ns, host), None)
  {
    Source.ParseThreeSegments(h, n, t);
  }

  /** Three segments, one of the two tokens refused. */
  lemma RejectThree(str: string, h: string, n: string, t: string)
    requires str == h + "/" + n + "/" + t && '/' !in h && '/' !in n && '/' !in t
    requires Part.ParseProviderPart(n).Failure? || Part.ParseProviderPart(t).Failure?
    ensures Source.ParseProviderSource(str).err.Some?
    ensures Source.ParseProviderSource(str).provider == Addr.Zero
  {
    Source.ParseThreeSegments(h, n, t);
  }

  /** Three accepted segments whose type carries a reserved prefix outside the built-in
      namespace. */
  lemma RejectReserved(str: string, h: string, n: string, t: string)
    requires str == h + "/" + n + "/" + t && '/' !in h && '/' !in n && '/' !in t
    requires SvcHost.ForComparison(h).Success?
    requires Part.ParseProviderPart(n).Success? && Part.ParseProviderPart(n).value != Addr.BuiltInProviderNamespace
    requires Part.ParseProviderPart(t).Success? && !Unreserved(Part.ParseProviderPart(t).value)
    ensures Source.ParseProviderSource(str).err.Some?
    ensures Source.ParseProviderSource(str).provider == Addr.Zero
  {
    Source.ParseThreeSegments(h, n, t);
  }

  /** A source string starting with a slash has an empty first segment. */
  lemma RejectLeadingSlash(str: string, rest: string)
    requires str == "/" + rest
    ensures Source.ParseProviderSource(str) == Source.Fail(Source.SummarySource, Source.DetailSource)
  {
    Source.EmptySegmentRejected(rest, "");
  }

  lemma LowerHost(s: string)
    requires forall i :: 0 <= i < |s| ==> 'a' <= s[i] <= 'z' || '0' <= s[i] <= '9' || s[i] == '-' || s[i] == '.'
    requires |s| > 0
    ensures SvcHost.ForComparison(s) == Success(SvcHost.Hostname(s))
  {
    assert ':' !in s by {
      forall i | 0 <= i < |s|
        ensures s[i] != ':'
      {
      }
    }
    Unicode.LowerOfLowerCase(s);
    SvcHost.PlainHostName(s);
  }

  // ---- tokens ----

  lemma HashicorpPieces()
    ensures "hashicorp" == "hashi" + "corp"
  {
  }

  lemma HashicorpPiecesPlain()
    ensures PlainTokens.IsPlain("hashi") && !Part.HasDoubleDash("hashi")
    ensures PlainTokens.IsPlain("corp") && !Part.HasDoubleDash("corp")
  {
  }

  lemma HashicorpPlain()
    ensures PlainTokens.IsPlain("hashicorp") && !Part.HasDoubleDash("hashicorp")
  {
    HashicorpPieces();
    HashicorpPiecesPlain();
    PlainTokens.PlainJoin("hashi", "corp");
  }

  lemma ParseHashicorp()
    ensures Part.ParseProviderPart("hashicorp") == Success("hashicorp")
  {
    HashicorpPlain();
    PlainTokens.PlainToken("hashicorp");
  }

  lemma HashicorpMixedPieces()
    ensures "HashiCorp" == "Hashi" + "Corp" && "hashicorp" == "hashi" + "corp"
  {
  }

  lemma HashicorpPiecesFold()
    ensures Unicode.Lower("Hashi") == "hashi" && Unicode.Lower("Corp") == "corp"
  {
  }

  lemma HashicorpFolds()
    ensures Unicode.Lower("HashiCorp") == "hashicorp"
  {
    HashicorpMixedPieces();
    HashicorpPiecesFold();
    Unicode.LowerAppend("Hashi", "Corp");
  }

  lemma ParseHashicorpMixed()
    ensures Part.ParseProviderPart("HashiCorp") == Success("hashicorp")
  {
    HashicorpFolds();
    ParseHashicorp();
    Part.ParsePartIgnoresCase("HashiCorp");
  }

  lemma ParseAws()
    ensures Part.ParseProviderPart("aws") == Success("aws") && Unreserved("aws")
  {
    PlainTokens.PlainToken("aws");
  }

  lemma ParseAwsUpper()
    ensures Part.ParseProviderPart("AWS") == Success("aws")
  {
    assert Unicode.Lower("AWS") == "aws";
    ParseAws();
    Part.ParsePartIgnoresCase("AWS");
  }

  lemma BuiltinPieces()
    ensures "builtin" == "built" + "in"
  {
  }

  lemma BuiltinPiecesPlain()
    ensures PlainTokens.IsPlain("built") && !Part.HasDoubleDash("built")
    ensures PlainTokens.IsPlain("in") && !Part.HasDoubleDash("in")
  {
  }

  lemma BuiltinPlain()
    ensures PlainTokens.IsPlain("builtin") && !Part.HasDoubleDash("builtin")
  {
    BuiltinPieces();
    BuiltinPiecesPlain();
    PlainTokens.PlainJoin("built", "in");
  }

  lemma ParseBuiltin()
    ensures Part.ParseProviderPart("builtin") == Success("builtin")
  {
    BuiltinPlain();
    PlainTokens.PlainToken("builtin");
  }

  lemma OpentofuPieces()
    ensures "opentofu" == "opent" + "ofu"
  {
  }

  lemma OpentofuPiecesPlain()
    ensures PlainTokens.IsPlain("opent") && !Part.HasDoubleDash("opent")
    ensures PlainTokens.IsPlain("ofu") && !Part.HasDoubleDash("ofu")
  {
  }

  lemma OpentofuPlain()
    ensures PlainTokens.IsPlain("opentofu") && !Part.HasDoubleDash("opentofu")
  {
    OpentofuPieces();
    OpentofuPiecesPlain();
    PlainTokens.PlainJoin("opent", "ofu");
  }

  lemma ParseOpentofu()
    ensures Part.ParseProviderPart("opentofu") == Success("opentofu")
  {
    OpentofuPlain();
    PlainTokens.PlainToken("opentofu");
  }

  lemma TerraformPieces()
    ensures "terraform" == "terra" + "form"
  {
  }

  lemma TerraformPiecesPlain()
    ensures PlainTokens.IsPlain("terra") && !Part.HasDoubleDash("terra")
    ensures PlainTokens.IsPlain("form") && !Part.HasDoubleDash("form")
  {
  }

  lemma TerraformPlain()
    ensures PlainTokens.IsPlain("terraform") && !Part.HasDoubleDash("terraform")
  {
    TerraformPieces();
    TerraformPiecesPlain();
    PlainTokens.PlainJoin("terra", "form");
  }

  lemma ParseTerraform()
    ensures Part.ParseProviderPart("terraform") == Success("terraform")
  {
    TerraformPlain();
    PlainTokens.PlainToken("terraform");
  }

  lemma TerraformUnreserved()
    ensures Unreserved("terraform")
  {
    assert "terraform"[..9][0] != "opentofu-"[0];
  }

  lemma FooBarPieces()
    ensures "foo-bar" == "foo-b" + "ar"
  {
  }

  lemma FooBarPiecesPlain()
    ensures PlainTokens.IsPlain("foo-b") && !Part.HasDoubleDash("foo-b")
    ensures PlainTokens.IsPlain("ar") && !Part.HasDoubleDash("ar")
  {
  }

  lemma FooBarPlain()
    ensures PlainTokens.IsPlain("foo-bar") && !Part.HasDoubleDash("foo-bar")
  {
    FooBarPieces();
    FooBarPiecesPlain();
    PlainTokens.PlainJoin("foo-b", "ar");
  }

  lemma ParseFooBar()
    ensures Part.ParseProviderPart("foo-bar") == Success("foo-bar")
  {
    FooBarPlain();
    PlainTokens.PlainToken("foo-bar");
  }

  lemma BazBoopPieces()
    ensures "baz-boop" == "baz-b" + "oop"
  {
  }

  lemma BazBoopPiecesPlain()
    ensures PlainTokens.IsPlain("baz-b") && !Part.HasDoubleDash("baz-b")
    ensures PlainTokens.IsPlain("oop") && !Part.HasDoubleDash("oop")
  {
  }

  lemma BazBoopPlain()
    ensures PlainTokens.IsPlain("baz-boop") && !Part.HasDoubleDash("baz-boop")
  {
    BazBoopPieces();
    BazBoopPiecesPlain();
    PlainTokens.PlainJoin("baz-b", "oop");
  }

  lemma ParseBazBoop()
    ensures Part.ParseProviderPart("baz-boop") == Success("baz-boop") && Unreserved("baz-boop")
  {
    BazBoopPlain();
    PlainTokens.PlainToken("baz-boop");
  }

  lemma ParseBar()
    ensures Part.ParseProviderPart("bar") == Success("bar") && Unreserved("bar")
  {
    PlainTokens.PlainToken("bar");
  }

  // ---- hosts ----

  lemma ExampleHost()
    ensures SvcHost.ForComparison("example.com") == Success(SvcHost.Hostname("example.com"))
  {
    LowerHost("example.com");
  }

  lemma OpentofuHost()
    ensures SvcHost.ForComparison("opentofu.org") == Success(Addr.BuiltInProviderHost)
  {
    LowerHost("opentofu.org");
  }

  lemma TerraformHost()
    ensures SvcHost.ForComparison("terraform.io") == Success(Addr.TransitionalBuiltInProviderHost)
  {
    LowerHost("terraform.io");
  }

  lemma LocalhostFacts()
    ensures SvcHost.IsHostName("localhost") && ':' !in "localhost" && SvcHost.IsPort("8080")
  {
  }

  lemma LocalhostLower()
    ensures Unicode.Lower("localhost") == "localhost"
  {
    Unicode.LowerOfLowerCase("localhost");
  }

  lemma LocalhostJoin()
    ensures "localhost:8080" == "localhost" + ":" + "8080"
  {
  }

  lemma LocalhostWithPort()
    ensures SvcHost.ForComparison("localhost:8080") == Success(SvcHost.Hostname("localhost:8080"))
  {
    LocalhostFacts();
    LocalhostLower();
    LocalhostJoin();
    SvcHost.HostNameWithPort("localhost", "8080");
  }

  /** A host name holding a character no host name may hold is refused. */
  lemma ForeignHostChar(s: string, i: nat)
    requires i < |s| && !SvcHost.IsHostChar(s[i]) && ':' !in s
    ensures SvcHost.ForComparison(s).Failure?
  {
    Strings.SplitNoSep(s, ':');
  }

  lemma BadHostFacts()
    ensures "badhost!"[7] == '!' && ':' !in "badhost!"
  {
  }

  lemma BadHost()
    ensures SvcHost.ForComparison("badhost!").Failure?
  {
    BadHostFacts();
    ForeignHostChar("badhost!", 7);
  }

  // ---- accepted source strings ----

  const HashicorpAws := "hashicorp/aws"
  const HashicorpAwsMixed := "HashiCorp/AWS"
  const RegistryHashicorpAws := "registry.opentofu.org/hashicorp/aws"
  const RegistryHashicorpAwsMixed := "registry.opentofu.org/HashiCorp/AWS"
  const BuiltInOpentofu := "opentofu.org/builtin/opentofu"
  const BuiltInTerraform := "terraform.io/builtin/terraform"
  const BareTerraform := "terraform"
  const BareAws := "aws"
  const BareAwsUpper := "AWS"
  const ExampleFooBar := "example.com/foo-bar/baz-boop"
  const DefaultFooBar := "foo-bar/baz-boop"
  const LocalhostFooBar := "localhost:8080/foo/bar"

  lemma HashicorpAwsSegments()
    ensures HashicorpAws == "hashicorp" + "/" + "aws"
    ensures '/' !in "hashicorp" && '/' !in "aws"
  {
  }

  lemma HashicorpAwsMixedSegments()
    ensures HashicorpAwsMixed == "HashiCorp" + "/" + "AWS"
    ensures '/' !in "HashiCorp" && '/' !in "AWS"
  {
  }

  lemma DefaultFooBarSegments()
    ensures DefaultFooBar == "foo-bar" + "/" + "baz-boop"
    ensures '/' !in "foo-bar" && '/' !in "baz-boop"
  {
  }

  lemma RegistryHashicorpAwsSegments()
    ensures RegistryHashicorpAws == "registry.opentofu.org" + "/" + "hashicorp" + "/" + "aws"
    ensures '/' !in "registry.opentofu.org" && '/' !in "hashicorp" && '/' !in "aws"
  {
  }

  lemma RegistryHashicorpAwsMixedSegments()
    ensures RegistryHashicorpAwsMixed == "registry.opentofu.org" + "/" + "HashiCorp" + "/" + "AWS"
    ensures '/' !in "registry.opentofu.org" && '/' !in "HashiCorp" && '/' !in "AWS"
  {
  }

  lemma BuiltInOpentofuSegments()
    ensures BuiltInOpentofu == "opentofu.org" + "/" + "builtin" + "/" + "opentofu"
    ensures '/' !in "opentofu.org" && '/' !in "builtin" && '/' !in "opentofu"
  {
  }

  lemma BuiltInTerraformSegments()
    ensures BuiltInTerraform == "terraform.io" + "/" + "builtin" + "/" + "terraform"
    ensures '/' !in "terraform.io" && '/' !in "builtin" && '/' !in "terraform"
  {
  }

  lemma ExampleFooBarSegments()
    ensures ExampleFooBar == "example.com" + "/" + "foo-bar" + "/" + "baz-boop"
    ensures '/' !in "example.com" && '/' !in "foo-bar" && '/' !in "baz-boop"
  {
  }

  lemma LocalhostFooBarSegments()
    ensures LocalhostFooBar == "localhost:8080" + "/" + "foo" + "/" + "bar"
    ensures '/' !in "localhost:8080" && '/' !in "foo" && '/' !in "bar"
  {
  }

  lemma ParseHashicorpAws()
    ensures Source.ParseProviderSource(HashicorpAws)
         == Source.Parsed(Addr.Provider("aws", "hashicorp", Addr.DefaultProviderRegistryHost), None)
  {
    ParseHashicorp();
    ParseAws();
    HashicorpAwsSegments();
    AcceptTwo(HashicorpAws, "hashicorp", "aws", "hashicorp", "aws");
  }

  lemma ParseHashicorpAwsMixed()
    ensures Source.ParseProviderSource(HashicorpAwsMixed)
         == Source.Parsed(Addr.Provider("aws", "hashicorp", Addr.DefaultProviderRegistryHost), None)
  {
    ParseHashicorpMixed();
    ParseAwsUpper();
    ParseAws();
    HashicorpAwsMixedSegments();
    AcceptTwo(HashicorpAwsMixed, "HashiCorp", "AWS", "hashicorp", "aws");
  }

  lemma ParseRegistryHashicorpAws()
    ensures Source.ParseProviderSource(RegistryHashicorpAws)
         == Source.Parsed(Addr.Provider("aws", "hashicorp", Addr.DefaultProviderRegistryHost), None)
  {
    RoundTrip.DefaultHostIsNormal();
    ParseHashicorp();
    ParseAws();
    RegistryHashicorpAwsSegments();
    AcceptThree(RegistryHashicorpAws, "registry.opentofu.org", "hashicorp", "aws", Addr.DefaultProviderRegistryHost, "hashicorp", "aws");
  }

  lemma ParseRegistryHashicorpAwsMixed()
    ensures Source.ParseProviderSource(RegistryHashicorpAwsMixed)
         == Source.Parsed(Addr.Provider("aws", "hashicorp", Addr.DefaultProviderRegistryHost), None)
  {
    RoundTrip.DefaultHostIsNormal();
    ParseHashicorpMixed();
    ParseAwsUpper();
    ParseAws();
    RegistryHashicorpAwsMixedSegments();
    AcceptThree(RegistryHashicorpAwsMixed, "registry.opentofu.org", "HashiCorp", "AWS", Addr.DefaultProviderRegistryHost, "hashicorp", "aws");
  }

  lemma ParseBuiltInOpentofu()
    ensures Source.ParseProviderSource(BuiltInOpentofu)
         == Source.Parsed(Addr.Provider("opentofu", Addr.BuiltInProviderNamespace, Addr.BuiltInProviderHost), None)
  {
    OpentofuHost();
    ParseBuiltin();
    ParseOpentofu();
    BuiltInOpentofuSegments();
    AcceptThree(BuiltInOpentofu, "opentofu.org", "builtin", "opentofu", Addr.BuiltInProviderHost, "builtin", "opentofu");
  }

  lemma ParseBuiltInTerraform()
    ensures Source.ParseProviderSource(BuiltInTerraform)
         == Source.Parsed(Addr.Provider("terraform", Addr.BuiltInProviderNamespace, Addr.TransitionalBuiltInProviderHost), None)
  {
    TerraformHost();
    ParseBuiltin();
    ParseTerraform();
    BuiltInTerraformSegments();
    AcceptThree(BuiltInTerraform, "terraform.io", "builtin", "terraform", Addr.TransitionalBuiltInProviderHost, "builtin", "terraform");
  }

  lemma ParseBareTerraform()
    ensures Source.ParseProviderSource(BareTerraform)
         == Source.Parsed(Addr.Provider("terraform", Addr.UnknownProviderNamespace, Addr.DefaultProviderRegistryHost), None)
  {
    ParseTerraform();
    TerraformUnreserved();
    AcceptOne(BareTerraform, "terraform");
  }

  lemma ParseBareAws()
    ensures Source.ParseProviderSource(BareAws)
         == Source.Parsed(Addr.Provider("aws", Addr.UnknownProviderNamespace, Addr.DefaultProviderRegistryHost), None)
  {
    ParseAws();
    AcceptOne(BareAws, "aws");
  }

  lemma ParseBareAwsUpper()
    ensures Source.ParseProviderSource(BareAwsUpper)
         == Source.Parsed(Addr.Provider("aws", Addr.UnknownProviderNamespace, Addr.DefaultProviderRegistryHost), None)
  {
    ParseAwsUpper();
    ParseAws();
    AcceptOne(BareAwsUpper, "aws");
  }

  lemma ParseExampleFooBar()
    ensures Source.ParseProviderSource(ExampleFooBar)
         == Source.Parsed(Addr.Provider("baz-boop", "foo-bar", SvcHost.Hostname("example.com")), None)
  {
    ExampleHost();
    ParseFooBar();
    ParseBazBoop();
    ExampleFooBarSegments();
    AcceptThree(ExampleFooBar, "example.com", "foo-bar", "baz-boop", SvcHost.Hostname("example.com"), "foo-bar", "baz-boop");
  }

  lemma ParseDefaultFooBar()
    ensures Source.ParseProviderSource(DefaultFooBar)
         == Source.Parsed(Addr.Provider("baz-boop", "foo-bar", Addr.DefaultProviderRegistryHost), None)
  {
    ParseFooBar();
    ParseBazBoop();
    DefaultFooBarSegments();
    AcceptTwo(DefaultFooBar, "foo-bar", "baz-boop", "foo-bar", "baz-boop");
  }

  lemma ParseLocalhostFooBar()
    ensures Source.ParseProviderSource(LocalhostFooBar)
         == Source.Parsed(Addr.Provider("bar", "foo", SvcHost.Hostname("localhost:8080")), None)
  {
    LocalhostWithPort();
    PartExamples.ParseFoo();
    ParseBar();
    LocalhostFooBarSegments();
    AcceptThree(LocalhostFooBar, "localhost:8080", "foo", "bar", SvcHost.Hostname("localhost:8080"), "foo", "bar");
  }

  // ---- refused source strings ----

  /** A refused host on an otherwise well-formed three-segment string. */
  lemma RejectHost(str: string, h: string, n: string, t: string)
    requires str == h + "/" + n + "/" + t && '/' !in h && '/' !in n && '/' !in t
    requires h != "" && SvcHost.ForComparison(h).Failure?
    requires Part.ParseProviderPart(n).Success? && Part.ParseProviderPart(t).Success?
    ensures Source.ParseProviderSource(str).err.Some?
    ensures Source.ParseProviderSource(str).err.value.summary == Source.SummaryHost
    ensures Source.ParseProviderSource(str).provider == Addr.Zero
  {
    Source.HostErrorForwarded(h, n, t);
  }

  const TooManyParts := "example.com/too/many/parts/here"
  const TooManySlashes := "/too///many//slashes"
  const OnlySlashes := "///"
  const BlankSegments := "/ / /"
  const BadHostSource := "badhost!/hashicorp/aws"

  /** Four segments hold at least three slashes. */
  lemma ThreeSlashes(a: string, b: string, c: string, d: string)
    ensures multiset(a + "/" + b + "/" + c + "/" + d)['/'] >= 3
  {
    assert multiset("/")['/'] == 1;
  }

  lemma TooManyPartsShape()
    ensures TooManyParts == "example.com" + "/" + "too" + "/" + "many" + "/" + "parts/here"
  {
  }

  lemma TooManyPartsCount()
    ensures multiset(TooManyParts)['/'] >= 3
  {
    TooManyPartsShape();
    ThreeSlashes("example.com", "too", "many", "parts/here");
  }

  lemma ParseTooManyParts()
    ensures Source.ParseProviderSource(TooManyParts) == Source.Fail(Source.SummarySource, Source.DetailSource)
  {
    TooManyPartsCount();
    Source.TooManySegments(TooManyParts);
  }

  lemma TooManySlashesShape()
    ensures TooManySlashes == "/" + "too///many//slashes"
  {
  }

  lemma ParseTooManySlashes()
    ensures Source.ParseProviderSource(TooManySlashes) == Source.Fail(Source.SummarySource, Source.DetailSource)
  {
    TooManySlashesShape();
    RejectLeadingSlash(TooManySlashes, "too///many//slashes");
  }

  lemma OnlySlashesShape()
    ensures OnlySlashes == "/" + "//"
  {
  }

  lemma ParseOnlySlashes()
    ensures Source.ParseProviderSource(OnlySlashes) == Source.Fail(Source.SummarySource, Source.DetailSource)
  {
    OnlySlashesShape();
    RejectLeadingSlash(OnlySlashes, "//");
  }

  lemma BlankSegmentsShape()
    ensures BlankSegments == "/" + " / /"
  {
  }

  lemma ParseBlankSegments()
    ensures Source.ParseProviderSource(BlankSegments) == Source.Fail(Source.SummarySource, Source.DetailSource)
  {
    BlankSegmentsShape();
    RejectLeadingSlash(BlankSegments, " / /");
  }

  lemma BadHostSourceSegments()
    ensures BadHostSource == "badhost!" + "/" + "hashicorp" + "/" + "aws"
    ensures '/' !in "badhost!" && '/' !in "hashicorp" && '/' !in "aws"
  {
  }

  lemma ParseBadHostSource()
    ensures Source.ParseProviderSource(BadHostSource).err.Some?
    ensures Source.ParseProviderSource(BadHostSource).err.value.summary == Source.SummaryHost
    ensures Source.ParseProviderSource(BadHostSource).provider == Addr.Zero
  {
    BadHostSourceSegments();
    BadHost();
    ParseHashicorp();
    ParseAws();
    RejectHost(BadHostSource, "badhost!", "hashicorp", "aws");
  }

  // ---- refused tokens inside a three-segment string ----

  lemma RefuseForeign()
    ensures Part.ParseProviderPart("badnamespace!").Failure?
    ensures Part.ParseProviderPart("badtype!").Failure?
  {
    assert "badnamespace!"[12] == '!';
    Part.ForeignCharRejected("badnamespace!", '!');
    assert "badtype!"[7] == '!';
    Part.ForeignCharRejected("badtype!", '!');
  }

  lemma DoubleDashNamespacePieces()
    ensures "bad--namespace" == "bad" + "--namespace"
  {
  }

  lemma DoubleDashNamespaceTail()
    ensures Part.HasDoubleDash("--namespace")
  {
  }

  lemma RefuseDoubleDashNamespace()
    ensures Part.ParseProviderPart("bad--namespace").Failure?
  {
    DoubleDashNamespacePieces();
    DoubleDashNamespaceTail();
    Part.DoubleDashAppend("bad", "--namespace");
  }

  lemma DoubleDashTypePieces()
    ensures "bad--type" == "bad" + "--type"
  {
  }

  lemma DoubleDashTypeTail()
    ensures Part.HasDoubleDash("--type")
  {
  }

  lemma RefuseDoubleDashType()
    ensures Part.ParseProviderPart("bad--type").Failure?
  {
    DoubleDashTypePieces();
    DoubleDashTypeTail();
    Part.DoubleDashAppend("bad", "--type");
  }

  lemma RefuseLeadingDash(s: string)
    requires |s| > 0 && s[0] == '-' && '.' !in s && !Part.HasDoubleDash(s)
    ensures Part.ParseProviderPart(s).Failure?
  {
    Part.SingleFaultMessages(s);
  }

  lemma RefuseTrailingDash(s: string)
    requires |s| > 0 && s[|s| - 1] == '-' && '.' !in s && !Part.HasDoubleDash(s)
    ensures Part.ParseProviderPart(s).Failure?
  {
    Part.SingleFaultMessages(s);
  }

  lemma LeadingDashNamespaceShape()
    ensures '.' !in "-badnamespace"
  {
  }

  lemma LeadingDashNamespacePieces()
    ensures "-badnamespace" == "-badn" + "amesp" + "ace"
  {
  }

  lemma LeadingDashNamespacePiecesPlain()
    ensures PlainTokens.IsPlain("-badn") && !Part.HasDoubleDash("-badn")
    ensures PlainTokens.IsPlain("amesp") && !Part.HasDoubleDash("amesp")
    ensures PlainTokens.IsPlain("ace") && !Part.HasDoubleDash("ace")
  {
  }

  lemma LeadingDashNamespacePlain()
    ensures PlainTokens.IsPlain("-badnamespace") && !Part.HasDoubleDash("-badnamespace")
  {
    LeadingDashNamespacePieces();
    LeadingDashNamespacePiecesPlain();
    PlainTokens.PlainJoin("-badn", "amesp");
    PlainTokens.PlainJoin("-badn" + "amesp", "ace");
  }

  lemma LeadingDashNamespaceDashes()
    ensures !Part.HasDoubleDash("-badnamespace")
  {
    LeadingDashNamespacePlain();
  }

  lemma RefuseLeadingDashNamespace()
    ensures Part.ParseProviderPart("-badnamespace").Failure?
  {
    LeadingDashNamespaceShape();
    LeadingDashNamespaceDashes();
    RefuseLeadingDash("-badnamespace");
  }

  lemma TrailingDashNamespaceShape()
    ensures '.' !in "badnamespace-"
  {
  }

  lemma TrailingDashNamespacePieces()
    ensures "badnamespace-" == "badna" + "mespa" + "ce-"
  {
  }

  lemma TrailingDashNamespacePiecesPlain()
    ensures PlainTokens.IsPlain("badna") && !Part.HasDoubleDash("badna")
    ensures PlainTokens.IsPlain("mespa") && !Part.HasDoubleDash("mespa")
    ensures PlainTokens.IsPlain("ce-") && !Part.HasDoubleDash("ce-")
  {
  }

  lemma TrailingDashNamespacePlain()
    ensures PlainTokens.IsPlain("badnamespace-") && !Part.HasDoubleDash("badnamespace-")
  {
    TrailingDashNamespacePieces();
    TrailingDashNamespacePiecesPlain();
    PlainTokens.PlainJoin("badna", "mespa");
    PlainTokens.PlainJoin("badna" + "mespa", "ce-");
  }

  lemma TrailingDashNamespaceDashes()
    ensures !Part.HasDoubleDash("badnamespace-")
  {
    TrailingDashNamespacePlain();
  }

  lemma RefuseTrailingDashNamespace()
    ensures Part.ParseProviderPart("badnamespace-").Failure?
  {
    TrailingDashNamespaceShape();
    TrailingDashNamespaceDashes();
    RefuseTrailingDash("badnamespace-");
  }

  lemma LeadingDashTypeShape()
    ensures '.' !in "-badtype"
  {
  }

  lemma LeadingDashTypePieces()
    ensures "-badtype" == "-badt" + "ype"
  {
  }

  lemma LeadingDashTypePiecesPlain()
    ensures PlainTokens.IsPlain("-badt") && !Part.HasDoubleDash("-badt")
    ensures PlainTokens.IsPlain("ype") && !Part.HasDoubleDash("ype")
  {
  }

  lemma LeadingDashTypePlain()
    ensures PlainTokens.IsPlain("-badtype") && !Part.HasDoubleDash("-badtype")
  {
    LeadingDashTypePieces();
    LeadingDashTypePiecesPlain();
    PlainTokens.PlainJoin("-badt", "ype");
  }

  lemma LeadingDashTypeDashes()
    ensures !Part.HasDoubleDash("-badtype")
  {
    LeadingDashTypePlain();
  }

  lemma RefuseLeadingDashType()
    ensures Part.ParseProviderPart("-badtype").Failure?
  {
    LeadingDashTypeShape();
    LeadingDashTypeDashes();
    RefuseLeadingDash("-badtype");
  }

  lemma TrailingDashTypeShape()
    ensures '.' !in "badtype-"
  {
  }

  lemma TrailingDashTypePieces()
    ensures "badtype-" == "badty" + "pe-"
  {
  }

  lemma TrailingDashTypePiecesPlain()
    ensures PlainTokens.IsPlain("badty") && !Part.HasDoubleDash("badty")
    ensures PlainTokens.IsPlain("pe-") && !Part.HasDoubleDash("pe-")
  {
  }

  lemma TrailingDashTypePlain()
    ensures PlainTokens.IsPlain("badtype-") && !Part.HasDoubleDash("badtype-")
  {
    TrailingDashTypePieces();
    TrailingDashTypePiecesPlain();
    PlainTokens.PlainJoin("badty", "pe-");
  }

  lemma TrailingDashTypeDashes()
    ensures !Part.HasDoubleDash("badtype-")
  {
    TrailingDashTypePlain();
  }

  lemma RefuseTrailingDashType()
    ensures Part.ParseProviderPart("badtype-").Failure?
  {
    TrailingDashTypeShape();
    TrailingDashTypeDashes();
    RefuseTrailingDash("badtype-");
  }

  lemma RefuseDot()
    ensures Part.ParseProviderPart("bad.namespace").Failure?
    ensures Part.ParseProviderPart("bad.type").Failure?
  {
    assert "bad.namespace"[3] == '.';
    assert "bad.type"[3] == '.';
  }

  /** "example.com/<namespace>/aws" with a refused namespace. */
  lemma ParseBadNamespace(str: string, n: string)
    requires str == "example.com" + "/" + n + "/" + "aws" && '/' !in n
    requires Part.ParseProviderPart(n).Failure?
    ensures Source.ParseProviderSource(str).err.Some?
    ensures Source.ParseProviderSource(str).provider == Addr.Zero
  {
    RejectThree(str, "example.com", n, "aws");
  }

  /** "example.com/hashicorp/<type>" with a refused type. */
  lemma ParseBadType(str: string, t: string)
    requires str == "example.com" + "/" + "hashicorp" + "/" + t && '/' !in t
    requires Part.ParseProviderPart(t).Failure?
    ensures Source.ParseProviderSource(str).err.Some?
    ensures Source.ParseProviderSource(str).provider == Addr.Zero
  {
    RejectThree(str, "example.com", "hashicorp", t);
  }

  const SourceBadCharNamespace := "example.com/badnamespace!/aws"

  lemma SourceBadCharNamespaceJoin()
    ensures SourceBadCharNamespace == "example.com" + "/" + "badnamespace!" + "/" + "aws"
  {
  }

  lemma SourceBadCharNamespaceSlashFree()
    ensures '/' !in "badnamespace!"
  {
  }

  lemma SourceBadCharNamespaceShape()
    ensures SourceBadCharNamespace == "example.com" + "/" + "badnamespace!" + "/" + "aws" && '/' !in "badnamespace!"
  {
    SourceBadCharNamespaceJoin();
    SourceBadCharNamespaceSlashFree();
  }

  lemma ParseBadCharNamespace()
    ensures Source.ParseProviderSource(SourceBadCharNamespace).err.Some?
    ensures Source.ParseProviderSource(SourceBadCharNamespace).provider == Addr.Zero
  {
    SourceBadCharNamespaceShape();
    RefuseForeign();
    ParseBadNamespace(SourceBadCharNamespace, "badnamespace!");
  }

  const SourceDoubleDashNamespace := "example.com/bad--namespace/aws"

  lemma SourceDoubleDashNamespaceJoin()
    ensures SourceDoubleDashNamespace == "example.com" + "/" + "bad--namespace" + "/" + "aws"
  {
  }

  lemma SourceDoubleDashNamespaceSlashFree()
    ensures '/' !in "bad--namespace"
  {
  }

  lemma SourceDoubleDashNamespaceShape()
    ensures SourceDoubleDashNamespace == "example.com" + "/" + "bad--namespace" + "/" + "aws" && '/' !in "bad--namespace"
  {
    SourceDoubleDashNamespaceJoin();
    SourceDoubleDashNamespaceSlashFree();
  }

  lemma ParseDoubleDashNamespace()
    ensures Source.ParseProviderSource(SourceDoubleDashNamespace).err.Some?
    ensures Source.ParseProviderSource(SourceDoubleDashNamespace).provider == Addr.Zero
  {
    SourceDoubleDashNamespaceShape();
    RefuseDoubleDashNamespace();
    ParseBadNamespace(SourceDoubleDashNamespace, "bad--namespace");
  }

  const SourceLeadingDashNamespace := "example.com/-badnamespace/aws"

  lemma SourceLeadingDashNamespaceJoin()
    ensures SourceLeadingDashNamespace == "example.com" + "/" + "-badnamespace" + "/" + "aws"
  {
  }

  lemma SourceLeadingDashNamespaceSlashFree()
    ensures '/' !in "-badnamespace"
  {
  }

  lemma SourceLeadingDashNamespaceShape()
    ensures SourceLeadingDashNamespace == "example.com" + "/" + "-badnamespace" + "/" + "aws" && '/' !in "-badnamespace"
  {
    SourceLeadingDashNamespaceJoin();
    SourceLeadingDashNamespaceSlashFree();
  }

  lemma ParseLeadingDashNamespace()
    ensures Source.ParseProviderSource(SourceLeadingDashNamespace).err.Some?
    ensures Source.ParseProviderSource(SourceLeadingDashNamespace).provider == Addr.Zero
  {
    SourceLeadingDashNamespaceShape();
    RefuseLeadingDashNamespace();
    ParseBadNamespace(SourceLeadingDashNamespace, "-badnamespace");
  }

  const SourceTrailingDashNamespace := "example.com/badnamespace-/aws"

  lemma SourceTrailingDashNamespaceJoin()
    ensures SourceTrailingDashNamespace == "example.com" + "/" + "badnamespace-" + "/" + "aws"
  {
  }

  lemma SourceTrailingDashNamespaceSlashFree()
    ensures '/' !in "badnamespace-"
  {
  }

  lemma SourceTrailingDashNamespaceShape()
    ensures SourceTrailingDashNamespace == "example.com" + "/" + "badnamespace-" + "/" + "aws" && '/' !in "badnamespace-"
  {
    SourceTrailingDashNamespaceJoin();
    SourceTrailingDashNamespaceSlashFree();
  }

  lemma ParseTrailingDashNamespace()
    ensures Source.ParseProviderSource(SourceTrailingDashNamespace).err.Some?
    ensures Source.ParseProviderSource(SourceTrailingDashNamespace).provider == Addr.Zero
  {
    SourceTrailingDashNamespaceShape();
    RefuseTrailingDashNamespace();
    ParseBadNamespace(SourceTrailingDashNamespace, "badnamespace-");
  }

  const SourceDotNamespace := "example.com/bad.namespace/aws"

  lemma SourceDotNamespaceJoin()
    ensures SourceDotNamespace == "example.com" + "/" + "bad.namespace" + "/" + "aws"
  {
  }

  lemma SourceDotNamespaceSlashFree()
    ensures '/' !in "bad.namespace"
  {
  }

  lemma SourceDotNamespaceShape()
    ensures SourceDotNamespace == "example.com" + "/" + "bad.namespace" + "/" + "aws" && '/' !in "bad.namespace"
  {
    SourceDotNamespaceJoin();
    SourceDotNamespaceSlashFree();
  }

  lemma ParseDotNamespace()
    ensures Source.ParseProviderSource(SourceDotNamespace).err.Some?
    ensures Source.ParseProviderSource(SourceDotNamespace).provider == Addr.Zero
  {
    SourceDotNamespaceShape();
    RefuseDot();
    ParseBadNamespace(SourceDotNamespace, "bad.namespace");
  }

  const SourceBadCharType := "example.com/hashicorp/badtype!"

  lemma SourceBadCharTypeJoin()
    ensures SourceBadCharType == "example.com" + "/" + "hashicorp" + "/" + "badtype!"
  {
  }

  lemma SourceBadCharTypeSlashFree()
    ensures '/' !in "badtype!"
  {
  }

  lemma SourceBadCharTypeShape()
    ensures SourceBadCharType == "example.com" + "/" + "hashicorp" + "/" + "badtype!" && '/' !in "badtype!"
  {
    SourceBadCharTypeJoin();
    SourceBadCharTypeSlashFree();
  }

  lemma ParseBadCharType()
    ensures Source.ParseProviderSource(SourceBadCharType).err.Some?
    ensures Source.ParseProviderSource(SourceBadCharType).provider == Addr.Zero
  {
    SourceBadCharTypeShape();
    RefuseForeign();
    ParseBadType(SourceBadCharType, "badtype!");
  }

  const SourceDoubleDashType := "example.com/hashicorp/bad--type"

  lemma SourceDoubleDashTypeJoin()
    ensures SourceDoubleDashType == "example.com" + "/" + "hashicorp" + "/" + "bad--type"
  {
  }

  lemma SourceDoubleDashTypeSlashFree()
    ensures '/' !in "bad--type"
  {
  }

  lemma SourceDoubleDashTypeShape()
    ensures SourceDoubleDashType == "example.com" + "/" + "hashicorp" + "/" + "bad--type" && '/' !in "bad--type"
  {
    SourceDoubleDashTypeJoin();
    SourceDoubleDashTypeSlashFree();
  }

  lemma ParseDoubleDashType()
    ensures Source.ParseProviderSource(SourceDoubleDashType).err.Some?
    ensures Source.ParseProviderSource(SourceDoubleDashType).provider == Addr.Zero
  {
    SourceDoubleDashTypeShape();
    RefuseDoubleDashType();
    ParseBadType(SourceDoubleDashType, "bad--type");
  }

  const SourceLeadingDashType := "example.com/hashicorp/-badtype"

  lemma SourceLeadingDashTypeJoin()
    ensures SourceLeadingDashType == "example.com" + "/" + "hashicorp" + "/" + "-badtype"
  {
  }

  lemma SourceLeadingDashTypeSlashFree()
    ensures '/' !in "-badtype"
  {
  }

  lemma SourceLeadingDashTypeShape()
    ensures SourceLeadingDashType == "example.com" + "/" + "hashicorp" + "/" + "-badtype" && '/' !in "-badtype"
  {
    SourceLeadingDashTypeJoin();
    SourceLeadingDashTypeSlashFree();
  }

  lemma ParseLeadingDashType()
    ensures Source.ParseProviderSource(SourceLeadingDashType).err.Some?
    ensures Source.ParseProviderSource(SourceLeadingDashType).provider == Addr.Zero
  {
    SourceLeadingDashTypeShape();
    RefuseLeadingDashType();
    ParseBadType(SourceLeadingDashType, "-badtype");
  }

  const SourceTrailingDashType := "example.com/hashicorp/badtype-"

  lemma SourceTrailingDashTypeJoin()
    ensures SourceTrailingDashType == "example.com" + "/" + "hashicorp" + "/" + "badtype-"
  {
  }

  lemma SourceTrailingDashTypeSlashFree()
    ensures '/' !in "badtype-"
  {
  }

  lemma SourceTrailingDashTypeShape()
    ensures SourceTrailingDashType == "example.com" + "/" + "hashicorp" + "/" + "badtype-" && '/' !in "badtype-"
  {
    SourceTrailingDashTypeJoin();
    SourceTrailingDashTypeSlashFree();
  }

  lemma ParseTrailingDashType()
    ensures Source.ParseProviderSource(SourceTrailingDashType).err.Some?
    ensures Source.ParseProviderSource(SourceTrailingDashType).provider == Addr.Zero
  {
    SourceTrailingDashTypeShape();
    RefuseTrailingDashType();
    ParseBadType(SourceTrailingDashType, "badtype-");
  }

  const SourceDotType := "example.com/hashicorp/bad.type"

  lemma SourceDotTypeJoin()
    ensures SourceDotType == "example.com" + "/" + "hashicorp" + "/" + "bad.type"
  {
  }

  lemma SourceDotTypeSlashFree()
    ensures '/' !in "bad.type"
  {
  }

  lemma SourceDotTypeShape()
    ensures SourceDotType == "example.com" + "/" + "hashicorp" + "/" + "bad.type" && '/' !in "bad.type"
  {
    SourceDotTypeJoin();
    SourceDotTypeSlashFree();
  }

  lemma ParseDotType()
    ensures Source.ParseProviderSource(SourceDotType).err.Some?
    ensures Source.ParseProviderSource(SourceDotType).provider == Addr.Zero
  {
    SourceDotTypeShape();
    RefuseDot();
    ParseBadType(SourceDotType, "bad.type");
  }

  // ---- reserved type prefixes ----

  lemma ExampleOpentofuFacts()
    ensures '/' !in "example.com" && '/' !in "opentofu"
    ensures "opentofu" != Addr.BuiltInProviderNamespace
  {
  }

  /** "example.com/opentofu/<type>" with a type that is accepted as a token but carries a
      reserved prefix. */
  lemma ParseReservedType(str: string, t: string)
    requires str == "example.com" + "/" + "opentofu" + "/" + t && '/' !in t
    requires Part.ParseProviderPart(t) == Success(t) && !Unreserved(t)
    ensures Source.ParseProviderSource(str).err.Some?
    ensures Source.ParseProviderSource(str).provider == Addr.Zero
  {
    ExampleHost();
    ParseOpentofu();
    ExampleOpentofuFacts();
    RejectReserved(str, "example.com", "opentofu", t);
  }

  const ReservedOpentofuProvider := "example.com/opentofu/opentofu-provider-bad"

  lemma ReservedOpentofuProviderPieces()
    ensures "opentofu-provider-bad" == "opent" + "ofu-p" + "rovid" + "er-ba" + "d"
  {
  }

  lemma ReservedOpentofuProviderPiecesPlain()
    ensures PlainTokens.IsPlain("opent") && !Part.HasDoubleDash("opent")
    ensures PlainTokens.IsPlain("ofu-p") && !Part.HasDoubleDash("ofu-p")
    ensures PlainTokens.IsPlain("rovid") && !Part.HasDoubleDash("rovid")
    ensures PlainTokens.IsPlain("er-ba") && !Part.HasDoubleDash("er-ba")
    ensures PlainTokens.IsPlain("d") && !Part.HasDoubleDash("d")
  {
  }

  lemma ReservedOpentofuProviderPlain()
    ensures PlainTokens.IsPlain("opentofu-provider-bad") && !Part.HasDoubleDash("opentofu-provider-bad")
  {
    ReservedOpentofuProviderPieces();
    ReservedOpentofuProviderPiecesPlain();
    PlainTokens.PlainJoin("opent", "ofu-p");
    PlainTokens.PlainJoin("opent" + "ofu-p", "rovid");
    PlainTokens.PlainJoin("opent" + "ofu-p" + "rovid", "er-ba");
    PlainTokens.PlainJoin("opent" + "ofu-p" + "rovid" + "er-ba", "d");
  }

  lemma ReservedOpentofuProviderToken()
    ensures Part.ParseProviderPart("opentofu-provider-bad") == Success("opentofu-provider-bad")
  {
    ReservedOpentofuProviderPlain();
    PlainTokens.PlainToken("opentofu-provider-bad");
  }

  lemma ReservedOpentofuProviderJoin()
    ensures ReservedOpentofuProvider == "example.com" + "/" + "opentofu" + "/" + "opentofu-provider-bad"
  {
  }

  lemma ReservedOpentofuProviderSlashFree()
    ensures '/' !in "opentofu-provider-bad"
  {
  }

  lemma ReservedOpentofuProviderPrefix()
    ensures Strings.HasPrefix("opentofu-provider-bad", "opentofu-")
  {
  }

  lemma ReservedOpentofuProviderShape()
    ensures ReservedOpentofuProvider == "example.com" + "/" + "opentofu" + "/" + "opentofu-provider-bad" && '/' !in "opentofu-provider-bad"
    ensures Strings.HasPrefix("opentofu-provider-bad", "opentofu-")
  {
    ReservedOpentofuProviderJoin();
    ReservedOpentofuProviderSlashFree();
    ReservedOpentofuProviderPrefix();
  }

  lemma ParseReservedOpentofuProvider()
    ensures Source.ParseProviderSource(ReservedOpentofuProvider).err.Some?
    ensures Source.ParseProviderSource(ReservedOpentofuProvider).provider == Addr.Zero
  {
    ReservedOpentofuProviderToken();
    ReservedOpentofuProviderShape();
    ParseReservedType(ReservedOpentofuProvider, "opentofu-provider-bad");
  }

  const ReservedOpentofu := "example.com/opentofu/opentofu-bad"

  lemma ReservedOpentofuPieces()
    ensures "opentofu-bad" == "opent" + "ofu-b" + "ad"
  {
  }

  lemma ReservedOpentofuPiecesPlain()
    ensures PlainTokens.IsPlain("opent") && !Part.HasDoubleDash("opent")
    ensures PlainTokens.IsPlain("ofu-b") && !Part.HasDoubleDash("ofu-b")
    ensures PlainTokens.IsPlain("ad") && !Part.HasDoubleDash("ad")
  {
  }

  lemma ReservedOpentofuPlain()
    ensures PlainTokens.IsPlain("opentofu-bad") && !Part.HasDoubleDash("opentofu-bad")
  {
    ReservedOpentofuPieces();
    ReservedOpentofuPiecesPlain();
    PlainTokens.PlainJoin("opent", "ofu-b");
    PlainTokens.PlainJoin("opent" + "ofu-b", "ad");
  }

  lemma ReservedOpentofuToken()
    ensures Part.ParseProviderPart("opentofu-bad") == Success("opentofu-bad")
  {
    ReservedOpentofuPlain();
    PlainTokens.PlainToken("opentofu-bad");
  }

  lemma ReservedOpentofuJoin()
    ensures ReservedOpentofu == "example.com" + "/" + "opentofu" + "/" + "opentofu-bad"
  {
  }

  lemma ReservedOpentofuSlashFree()
    ensures '/' !in "opentofu-bad"
  {
  }

  lemma ReservedOpentofuPrefix()
    ensures Strings.HasPrefix("opentofu-bad", "opentofu-")
  {
  }

  lemma ReservedOpentofuShape()
    ensures ReservedOpentofu == "example.com" + "/" + "opentofu" + "/" + "opentofu-bad" && '/' !in "opentofu-bad"
    ensures Strings.HasPrefix("opentofu-bad", "opentofu-")
  {
    ReservedOpentofuJoin();
    ReservedOpentofuSlashFree();
    ReservedOpentofuPrefix();
  }

  lemma ParseReservedOpentofu()
    ensures Source.ParseProviderSource(ReservedOpentofu).err.Some?
    ensures Source.ParseProviderSource(ReservedOpentofu).provider == Addr.Zero
  {
    ReservedOpentofuToken();
    ReservedOpentofuShape();
    ParseReservedType(ReservedOpentofu, "opentofu-bad");
  }

  const ReservedTerraformProvider := "example.com/opentofu/terraform-provider-bad"

  lemma ReservedTerraformProviderPieces()
    ensures "terraform-provider-bad" == "terra" + "form-" + "provi" + "der-b" + "ad"
  {
  }

  lemma ReservedTerraformProviderPiecesPlain()
    ensures PlainTokens.IsPlain("terra") && !Part.HasDoubleDash("terra")
    ensures PlainTokens.IsPlain("form-") && !Part.HasDoubleDash("form-")
    ensures PlainTokens.IsPlain("provi") && !Part.HasDoubleDash("provi")
    ensures PlainTokens.IsPlain("der-b") && !Part.HasDoubleDash("der-b")
    ensures PlainTokens.IsPlain("ad") && !Part.HasDoubleDash("ad")
  {
  }

  lemma ReservedTerraformProviderPlain()
    ensures PlainTokens.IsPlain("terraform-provider-bad") && !Part.HasDoubleDash("terraform-provider-bad")
  {
    ReservedTerraformProviderPieces();
    ReservedTerraformProviderPiecesPlain();
    PlainTokens.PlainJoin("terra", "form-");
    PlainTokens.PlainJoin("terra" + "form-", "provi");
    PlainTokens.PlainJoin("terra" + "form-" + "provi", "der-b");
    PlainTokens.PlainJoin("terra" + "form-" + "provi" + "der-b", "ad");
  }

  lemma ReservedTerraformProviderToken()
    ensures Part.ParseProviderPart("terraform-provider-bad") == Success("terraform-provider-bad")
  {
    ReservedTerraformProviderPlain();
    PlainTokens.PlainToken("terraform-provider-bad");
  }

  lemma ReservedTerraformProviderJoin()
    ensures ReservedTerraformProvider == "example.com" + "/" + "opentofu" + "/" + "terraform-provider-bad"
  {
  }

  lemma ReservedTerraformProviderSlashFree()
    ensures '/' !in "terraform-provider-bad"
  {
  }

  lemma ReservedTerraformProviderPrefix()
    ensures Strings.HasPrefix("terraform-provider-bad", "terraform-")
  {
  }

  lemma ReservedTerraformProviderShape()
    ensures ReservedTerraformProvider == "example.com" + "/" + "opentofu" + "/" + "terraform-provider-bad" && '/' !in "terraform-provider-bad"
    ensures Strings.HasPrefix("terraform-provider-bad", "terraform-")
  {
    ReservedTerraformProviderJoin();
    ReservedTerraformProviderSlashFree();
    ReservedTerraformProviderPrefix();
  }

  lemma ParseReservedTerraformProvider()
    ensures Source.ParseProviderSource(ReservedTerraformProvider).err.Some?
    ensures Source.ParseProviderSource(ReservedTerraformProvider).provider == Addr.Zero
  {
    ReservedTerraformProviderToken();
    ReservedTerraformProviderShape();
    ParseReservedType(ReservedTerraformProvider, "terraform-provider-bad");
  }

  const ReservedTerraform := "example.com/opentofu/terraform-bad"

  lemma ReservedTerraformPieces()
    ensures "terraform-bad" == "terra" + "form-" + "bad"
  {
  }

  lemma ReservedTerraformPiecesPlain()
    ensures PlainTokens.IsPlain("terra") && !Part.HasDoubleDash("terra")
    ensures PlainTokens.IsPlain("form-") && !Part.HasDoubleDash("form-")
    ensures PlainTokens.IsPlain("bad") && !Part.HasDoubleDash("bad")
  {
  }

  lemma ReservedTerraformPlain()
    ensures PlainTokens.IsPlain("terraform-bad") && !Part.HasDoubleDash("terraform-bad")
  {
    ReservedTerraformPieces();
    ReservedTerraformPiecesPlain();
    PlainTokens.PlainJoin("terra", "form-");
    PlainTokens.PlainJoin("terra" + "form-", "bad");
  }

  lemma ReservedTerraformToken()
    ensures Part.ParseProviderPart("terraform-bad") == Success("terraform-bad")
  {
    ReservedTerraformPlain();
    PlainTokens.PlainToken("terraform-bad");
  }

  lemma ReservedTerraformJoin()
    ensures ReservedTerraform == "example.com" + "/" + "opentofu" + "/" + "terraform-bad"
  {
  }

  lemma ReservedTerraformSlashFree()
    ensures '/' !in "terraform-bad"
  {
  }

  lemma ReservedTerraformPrefix()
    ensures Strings.HasPrefix("terraform-bad", "terraform-")
  {
  }

  lemma ReservedTerraformShape()
    ensures ReservedTerraform == "example.com" + "/" + "opentofu" + "/" + "terraform-bad" && '/' !in "terraform-bad"
    ensures Strings.HasPrefix("terraform-bad", "terraform-")
  {
    ReservedTerraformJoin();
    ReservedTerraformSlashFree();
    ReservedTerraformPrefix();
  }

  lemma ParseReservedTerraform()
    ensures Source.ParseProviderSource(ReservedTerraform).err.Some?
    ensures Source.ParseProviderSource(ReservedTerraform).provider == Addr.Zero
  {
    ReservedTerraformToken();
    ReservedTerraformShape();
    ParseReservedType(ReservedTerraform, "terraform-bad");
  }
}
