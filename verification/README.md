# Provider addresses of the OpenTofu registry, in Dafny

This project models the provider-address core of OpenTofu's `regaddr` package.
A provider address is written `hostname/namespace/type`. The hostname may be
left out, which means the default registry `registry.opentofu.org`. The namespace
may be left out too, which leaves the "unknown" namespace `?`. The model covers:

- `ParseProviderPart` (module `Part`). It checks one namespace or type token for
  emptiness, dots and consecutive dashes. It then normalises the token (Unicode
  composition, then lower case) and checks the normal form's characters and edge
  dashes. Each fault has its own error message.
- `ParseProviderSource` (module `Source`). It splits a source string on `/`,
  rejects too many or empty segments, and normalises the hostname, namespace and
  type. It refuses the reserved type prefixes `opentofu-` and `terraform-`. On
  any error it returns the zero `Provider` and a `ParserError`.
- The `Provider` value with its constants and views (module `Addr`):
  - `NewProvider`, the canonical `String`, the short `ForDisplay` and the bare
    `LegacyString`;
  - the `IsBuiltIn` and `IsLegacy` predicates and `Equals`.
- `ParserError` and its `Error` rendering `summary: detail` (module `Errors`).

Supporting modules:

- `Wrappers`: `Option` and `Result`.
- `Strings`: the Go string functions the parser uses, such as `strings.Split`
  and `strings.HasPrefix`.
- `Unicode`: a stand-in for Unicode composition and case folding, over a
  slice of the character tables.
- `SvcHost`: a stand-in for the hostname normaliser of the `svchost` library.

Two modules tie the operations together:

- `RoundTrip` proves the central promise. Every provider `ParseProviderSource`
  accepts renders, through `String`, through `ForDisplay` or as a bare type,
  back to a string that parses to the same provider.
- `PartExamples`, `SourceExamples` and `AddrExamples` state the rows of the
  repository's test tables as lemmas about the model.

The modelled behaviour comes from the test tables in `provider_test.go` and
the declarations in `errors.go`. The address code itself (`provider.go`) is
not part of this model. Two choices follow the tables where a plainer reading
of the grammar would differ:

- The dots error is exactly `dots are not allowed`, the message the table
  expects, rather than a longer one naming the namespace or type.
- The character and edge-dash check applies to the normalised token. The
  decomposed `münchen` row carries a combining mark, which is not a letter,
  yet that row is accepted.

## Model

| member | source | states |
|---|---|---|
| Errors.Error | errors.go:16-18 | The rendering starts with the summary, continues with `": "` and ends with the detail, and has exactly their combined length plus two |
| Errors.ReadRenderedError | errors.go:11-18 | Splitting a rendered error at its first colon gives the original summary and detail back, provided the summary has no colon |
| Errors.ErrorInjective | errors.go:11-18 | Two errors whose summaries have no colon render the same exactly when they are equal |
| Addr.LegacyString | provider_test.go:63-92 | For a legacy or built-in address, the legacy form is exactly the bare type |
| Addr.LegacyStringIsLastSegment | provider_test.go:63-92 | For a legacy or built-in address with a slash-free type, the legacy form is the last segment of both `String` and `ForDisplay` |
| Addr.Equals | provider_test.go:547-582 | Two addresses are equal exactly when hostname, namespace and type all agree |
| Addr.StringSplitsIntoFields | provider_test.go:16-61 | The canonical string splits on `/` into exactly the display hostname, the namespace and the type |
| Addr.ForDisplayDropsOnlyDefaultHost | provider_test.go:94-139 | The display form is the canonical string minus the hostname when the host is the default registry, and the canonical string itself otherwise |
| Addr.BuiltInDisplay | provider_test.go:123-130 | A built-in address is displayed as host, `builtin` and type, and is never legacy |
| Addr.EqualsIsEquivalence | provider_test.go:547-582 | Equality of addresses is reflexive, symmetric and transitive |
| Part.ParseProviderPart | provider_test.go:468-545 | On success the value is the normalised token, well formed, with no dot and no double dash. The empty-token error occurs exactly for the empty token. The dots, dashes and character errors each imply their fault. Any dot or double dash is refused |
| Part.SingleFaultMessages | provider_test.go:501-524 | A token with exactly one fault gets that fault's message: empty, dots, consecutive dashes, or a leading or trailing dash |
| Part.ForeignCharRejected | provider_test.go:385-388 | A token holding a character outside the modelled letter, digit and dash classes, other than the combining diaeresis, is refused |
| Part.ParsePartIdempotent | provider_test.go:473-500 | Parsing an accepted token's normal form accepts it unchanged |
| Part.ParsePartIgnoresCase | provider_test.go:473-484 | Lower-casing a token first does not change the parse result, whether success or error |
| Part.ParsePartIgnoresComposition | provider_test.go:493-500 | Composing a token first does not change the parse result |
| Part.NormalizeKeepsDoubleDash | provider_test.go:501-508 | Normalisation neither creates nor removes a double dash |
| Part.EdgeDashSurvives | provider_test.go:513-520 | A leading or trailing dash is still there after normalisation |
| Source.ReservedPrefixOf | provider_test.go:426-448 | A prefix is found exactly when the type starts with `opentofu-` or `terraform-`. The longer `opentofu-provider-` and `terraform-provider-` are reported when they apply |
| Source.ParseProviderSource | provider_test.go:260-466 | An error comes with the zero provider. A success has a well-formed type with no double dash and no reserved prefix. Its namespace is unknown exactly when the string has no slash, and well formed otherwise |
| Source.ParseThreeSegments | provider_test.go:265-296 | `host/namespace/type` is accepted exactly when the host, namespace and type each normalise and the type is not reserved. It then yields exactly those normal forms |
| Source.ParseTwoSegments | provider_test.go:309-324 | `namespace/type` behaves the same with the default registry host |
| Source.ParseOneSegment | provider_test.go:301-340 | A bare type is accepted exactly when it normalises and has no reserved prefix. It yields the unknown namespace on the default host |
| Source.TooManySegments | provider_test.go:365-368 | Three or more slashes are refused with the source-string error |
| Source.EmptySegmentRejected | provider_test.go:369-380 | A leading slash, a trailing slash or two adjacent slashes are refused with the source-string error |
| Source.EmptyPartRejected | provider_test.go:373-380 | Any empty segment is refused with the source-string error |
| Source.HostErrorForwarded | provider_test.go:381-384 | A bad hostname gives the hostname error summary, a detail that ends with the normaliser's message, and the zero provider |
| Source.NamespaceErrorForwarded | provider_test.go:385-404 | A bad namespace gives the namespace error summary, a detail that ends with the token's message, and the zero provider, when the type is accepted, in `namespace/type` and in `host/namespace/type` with an accepted host |
| Source.TypeErrorForwarded | provider_test.go:405-424 | A bad type gives the type error summary, a detail that ends with the token's message, and the zero provider, alone, after an accepted namespace, and after an accepted host and namespace |
| Source.ReservedTypeRejected | provider_test.go:433-448 | A type with a reserved prefix is refused with the type error summary and the zero provider, alone and under any namespace except `builtin`, with or without an accepted host |
| Source.ParsedHost | provider_test.go:265-364 | The host of a parse is the normalised first segment when there are three segments, and the default registry otherwise |
| Source.ParsedNeverLegacy | provider_test.go:513-520 | A token with a leading or trailing dash is refused, so the legacy namespace `-` never comes out of the parser and no parsed address is legacy |
| Source.BuiltInNeedsExplicitHost | provider_test.go:281-296 | A parsed built-in address always came from a string with an explicit hostname |
| Source.ParseIgnoresCase | provider_test.go:317-324 | Lower-casing namespace and type first yields the same provider and the same success |
| RoundTrip.ParsedIsValid | provider_test.go:260-466 | Every parsed provider is valid: its type, its namespace unless unknown, and its host are fixed points of their normalisers, and its type is not reserved |
| RoundTrip.ParseString | provider_test.go:16-61 | A valid address with a known namespace parses back from its canonical string unchanged |
| RoundTrip.ParseForDisplay | provider_test.go:94-139 | A valid address with a known namespace parses back from its display string unchanged |
| RoundTrip.ParseBareType | provider_test.go:301-340 | A valid address with the unknown namespace on the default host parses back from its bare type |
| RoundTrip.RenderThenParse | provider_test.go:251-258 | Rendering any parsed provider and parsing again gives the same result |
| SvcHost.ForComparisonIdempotent | provider_test.go:357-364 | Normalising an already-normalised hostname gives it back |
| PartExamples.ParseFoo | provider_test.go:473-476 | `foo` is accepted as `foo` |
| PartExamples.ParseFooUpper | provider_test.go:477-480 | `FOO` is accepted as `foo` |
| PartExamples.ParseFooCapitalised | provider_test.go:481-484 | `Foo` is accepted as `foo` |
| PartExamples.ParseDashedToken | provider_test.go:485-488 | `abc-123` is accepted unchanged |
| PartExamples.ParseCyrillic | provider_test.go:489-492 | The capitalised Cyrillic word is accepted in lower case |
| PartExamples.ParsePrecomposed | provider_test.go:493-496 | The precomposed `münchen` is accepted unchanged |
| PartExamples.ParseDecomposed | provider_test.go:497-500 | The decomposed `münchen` is accepted as its precomposed form |
| PartExamples.ParseDecomposedCyrillicIo | provider_test.go:489-500 | A Cyrillic `е` followed by a combining diaeresis is accepted as the precomposed `ё`, as for the Cyrillic and decomposed rows |
| PartExamples.ParseDecomposedLatinYDiaeresis | provider_test.go:493-500 | A `y` followed by a combining diaeresis is accepted as the precomposed `ÿ` |
| PartExamples.RejectDoubleDash | provider_test.go:501-504 | `abc--123` is refused with the consecutive-dashes message |
| PartExamples.RejectPunycode | provider_test.go:505-508 | The punycode token is refused with the consecutive-dashes message |
| PartExamples.RejectDot | provider_test.go:509-512 | `abc.123` is refused with the dots message |
| PartExamples.RejectLeadingDash | provider_test.go:513-516 | `-abc123` is refused with the characters message |
| PartExamples.RejectTrailingDash | provider_test.go:517-520 | `abc123-` is refused with the characters message |
| PartExamples.RejectEmpty | provider_test.go:521-524 | The empty token is refused with the at-least-one-character message |
| SourceExamples.ParseRegistryHashicorpAws | provider_test.go:265-272 | `registry.opentofu.org/hashicorp/aws` parses to `aws` in `hashicorp` on the default registry |
| SourceExamples.ParseRegistryHashicorpAwsMixed | provider_test.go:273-280 | The mixed-case form of that string parses to the same provider |
| SourceExamples.ParseBuiltInOpentofu | provider_test.go:281-288 | `opentofu.org/builtin/opentofu` parses to the built-in provider on `opentofu.org` |
| SourceExamples.ParseBuiltInTerraform | provider_test.go:289-296 | `terraform.io/builtin/terraform` parses to the built-in provider on the transitional host |
| SourceExamples.ParseBareTerraform | provider_test.go:301-308 | `terraform` parses to the unknown namespace on the default registry |
| SourceExamples.ParseHashicorpAws | provider_test.go:309-316 | `hashicorp/aws` parses to `aws` in `hashicorp` on the default registry |
| SourceExamples.ParseHashicorpAwsMixed | provider_test.go:317-324 | `HashiCorp/AWS` parses to the same provider |
| SourceExamples.ParseBareAws | provider_test.go:325-332 | `aws` parses to the unknown namespace on the default registry |
| SourceExamples.ParseBareAwsUpper | provider_test.go:333-340 | `AWS` parses to the same provider |
| SourceExamples.ParseExampleFooBar | provider_test.go:341-348 | `example.com/foo-bar/baz-boop` keeps its host |
| SourceExamples.ParseDefaultFooBar | provider_test.go:349-356 | `foo-bar/baz-boop` lands on the default registry |
| SourceExamples.ParseLocalhostFooBar | provider_test.go:357-364 | `localhost:8080/foo/bar` keeps its host and port |
| SourceExamples.ParseTooManyParts | provider_test.go:365-368 | Four segments are refused with the source-string error |
| SourceExamples.ParseTooManySlashes | provider_test.go:369-372 | `/too///many//slashes` is refused with the source-string error |
| SourceExamples.ParseOnlySlashes | provider_test.go:373-376 | `///` is refused with the source-string error |
| SourceExamples.ParseBlankSegments | provider_test.go:377-380 | `/ / /` is refused with the source-string error |
| SourceExamples.ParseBadHostSource | provider_test.go:381-384 | `badhost!/hashicorp/aws` is refused with the hostname error and the zero provider |
| SourceExamples.ParseBadCharNamespace | provider_test.go:385-388 | A namespace with `!` is refused with the zero provider |
| SourceExamples.ParseDoubleDashNamespace | provider_test.go:389-392 | A namespace with `--` is refused with the zero provider |
| SourceExamples.ParseLeadingDashNamespace | provider_test.go:393-396 | A namespace with a leading dash is refused with the zero provider |
| SourceExamples.ParseTrailingDashNamespace | provider_test.go:397-400 | A namespace with a trailing dash is refused with the zero provider |
| SourceExamples.ParseDotNamespace | provider_test.go:401-404 | A namespace with a dot is refused with the zero provider |
| SourceExamples.ParseBadCharType | provider_test.go:405-408 | A type with `!` is refused with the zero provider |
| SourceExamples.ParseDoubleDashType | provider_test.go:409-412 | A type with `--` is refused with the zero provider |
| SourceExamples.ParseLeadingDashType | provider_test.go:413-416 | A type with a leading dash is refused with the zero provider |
| SourceExamples.ParseTrailingDashType | provider_test.go:417-420 | A type with a trailing dash is refused with the zero provider |
| SourceExamples.ParseDotType | provider_test.go:421-424 | A type with a dot is refused with the zero provider |
| SourceExamples.ParseReservedOpentofuProvider | provider_test.go:433-436 | The type `opentofu-provider-bad` is refused with the zero provider |
| SourceExamples.ParseReservedOpentofu | provider_test.go:437-440 | The type `opentofu-bad` is refused with the zero provider |
| SourceExamples.ParseReservedTerraformProvider | provider_test.go:441-444 | The type `terraform-provider-bad` is refused with the zero provider |
| SourceExamples.ParseReservedTerraform | provider_test.go:445-448 | The type `terraform-bad` is refused with the zero provider |
| AddrExamples.StringKeepsDefaultHost | provider_test.go:21-52 | The canonical form on the default registry keeps that host |
| AddrExamples.StringOtherHost | provider_test.go:37-44 | The canonical form on another registry keeps that host |
| AddrExamples.LegacyStringRows | provider_test.go:68-83 | The bare type of a legacy address and of a built-in one |
| AddrExamples.DisplayDefaultHost | provider_test.go:99-122 | The display form drops the default registry host |
| AddrExamples.DisplayOtherHost | provider_test.go:107-114 | The display form keeps another registry host |
| AddrExamples.DisplayTransitionalBuiltIn | provider_test.go:123-130 | A built-in address on the transitional host is displayed with that host |
| AddrExamples.IsBuiltInRows | provider_test.go:141-210 | Built in needs both the `builtin` namespace and a built-in host |
| AddrExamples.IsLegacyRows | provider_test.go:212-249 | Legacy needs both the legacy namespace and the default registry host |
| AddrExamples.EqualsRows | provider_test.go:547-582 | Equality separates addresses that differ in namespace, type or host |

## Left out

- Hostname normalisation by IDNA and the `svchost` library is not part of this model. `SvcHost.ForComparison` is a stand-in: a non-empty run of ASCII letters, digits, dots and dashes, without label structure, lower-cased, with an optional numeric port. So `.`, `a..b` and `-a` are accepted as hosts. It agrees with the real normaliser on the hosts the tables use: `registry.opentofu.org`, `opentofu.org`, `terraform.io`, `example.com`, `localhost:8080` and the refused `badhost!`. Every three-segment row and the display round trip go through it.
- Unicode normalisation, case folding and letter classification cover ASCII, Latin-1 (with its capital `Ÿ`, U+0178) and the basic Cyrillic block. Composition covers only the combining diaeresis over `a`, `e`, `i`, `o`, `u`, `y`, their capitals, and the Cyrillic `е`, `і` and their capitals. That is enough for every row of the tables, but it is not the full Unicode database. The model refuses tokens with letters of other scripts, such as `α`, and tokens with any combining mark other than the diaeresis, or a diaeresis over any other letter. For example, `e` followed by a combining acute accent is refused, though a Unicode-aware parser composes it to `é` and accepts it.
- Go's `%q` quoting in error details is modelled as plain double quotes around the text, without escaping.
- Source.ParseProviderSource: error details are modelled up to their summaries and to ending with the underlying message. The full wording is fixed only where the tables compare it.
- Source.NamespaceErrorForwarded: states the outcome of a single fault, with the type accepted, as every row of the tables has one fault. When several segments are bad at once, the model has to report one of them, but no lemma states which, because nothing in the modelled sources fixes that order.
- SourceExamples.ParseBadCharNamespace: this lemma and the other namespace and type error rows state only that an error comes with the zero provider, which is all the table checks.
- The `builtin` namespace is exempt from the reserved-prefix check. No row of the tables covers that case.
- Source.ParsedNeverLegacy: a source string whose namespace is `-` is refused, so the legacy namespace arises only from `Provider` values built directly, as the legacy rows of the tables build them.
- Part.ParsePartIgnoresCase: this lemma, `Part.ParsePartIdempotent`, `Unicode.NormalizeIdempotent`, `Unicode.NormalizeIgnoresCase` and `Unicode.LowerNfcCommute` state case and composition laws of the compose-then-fold normaliser over the slice of the character tables. Over full Unicode, composing and folding do not always commute (`J` followed by a combining caron is one such input), so these laws are not promised beyond the slice.
- Addr.LegacyString: its precondition is the documented caller contract: a legacy or built-in address. The source panics otherwise, and the model does not represent that panic.
- `NewProvider`, `String`, `ForDisplay`, `IsBuiltIn` and `IsLegacy` carry no contract of their own. Their meaning is stated by the lemmas `StringSplitsIntoFields`, `ForDisplayDropsOnlyDefaultHost`, `BuiltInDisplay` and `ParsedNeverLegacy`, and by the example rows.
- The rendering of the zero `Provider` is left out. It is not a valid address, and no row renders it.
- The unknown namespace `?` and the legacy namespace `-` are values the tables never print. The model only relies on neither being a valid token.
