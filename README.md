# VAST validator — a Dafny model

This project models the document validator of the `admein-vast-generator` Go module. It
also models the string validators of the `vast` package that check single VAST values:
durations, icon positions and skip offsets.

The validator takes an XML document. It builds a generic tree of its elements, checks that
the root is a `VAST` element with a `version` attribute, and walks the tree. At each node it
does four things:
- it checks the node against a catalog of known elements: whether the element is known,
  whether it exists in the document's version, whether its parent may contain it, and which
  attributes it may or must carry;
- it runs the custom hooks registered for the element's name;
- it runs the HTTP hooks registered for that name (built in: a `MediaFile` URL probe);
- it records the outcome in per-category buckets (`iab.analysis`, `custom.analysis`).

Finally it marks the root when the catalog does not list the version, and it counts the
buckets per category into summaries.

The model is organised by the Go sources it follows:

| file | models |
|---|---|
| `wrappers.dfy` | `Option` and `Result` |
| `text.dfy` | the `strings` functions the sources use: `TrimSpace`, `Index`, `HasSuffix`, decimal formatting, and `ToLower` restricted to ASCII letters (see Left out) |
| `catalog.dfy` | `validator/catalog.go`: the spec types, their lookups, and the default catalog entry by entry |
| `parser.dfy` | `validator/parser.go`: the tree builder over a token stream |
| `results.dfy` | `validator/result.go` and `markFailure`/`mergeAnalysis`: buckets, and the summarising walk as a class |
| `hooks.dfy` | `validator/custom.go`: `NodeContext`, the hook types, and the hook registries as a class |
| `mediafile.dfy` | `validator/mediafile_http_validator.go` |
| `engine.dfy` | `validator/validator.go`: options and config, and the per-node walk (`validateNodeRecursive`, `validateAttributes`, the hook runners) |
| `walk_properties.dfy` | properties of the walk as a whole |
| `validator.dfy` | `Validate` |
| `common.dfy` | `vast/common.go`: `NumericBool`, `Duration`, `XPosition`, `YPosition` |
| `linear.dfy` | `vast/linear.go`: `SkipOffset` |

The code that updates state in place is modelled imperatively:
- `config` is the class `Engine.Config`, updated by `Apply`;
- the hook registries are `Hooks.HookRegistry<H>`, updated by `Register`;
- the summarising walk is `Results.Summarizer`, with the summaries map as its field.

Each loop of the Go code that updates state is a method with a loop:
- the token loop of `buildNodeTree`;
- the attribute loops of `validateAttributes`;
- the hook loops;
- the child loop of `validateNodeRecursive`;
- the digit loops of `ValidateDuration`.

Each such method is proved equal to a specification function, and the properties are proved
about those functions. The loops that only search a sequence are recursive functions instead:
the scan of `attrValue` is `Parser.AttrValue`, and the digit scans of `ValidateXPosition` and
`ValidateYPosition` are `Common.ScanDigits`.

The model's inputs and their stand-ins:
- The document is the token stream an XML decoder produces for it. A decoder error is a
  `SyntaxError` token.
- The network is a `Probe`, a function from a URL to a transport error or a status code and a
  `Content-Type` header.
- Go iterates over maps in an unspecified order. Where that order shows in the result, the
  methods return it as a ghost output. The specification functions take it as a parameter,
  and the properties hold for every order.

## Model

| member | source | states |
|---|---|---|
| Catalog.ListsVersion | validator/catalog.go:43-50 | the version scan answers true exactly when the version occurs in the list |
| Catalog.NodeSpec.Supports | validator/catalog.go:43-50 | a node spec supports exactly the versions it lists |
| Catalog.ChildSpec.Supports | validator/catalog.go:68-75 | a child relation supports exactly the versions it lists |
| Catalog.AttributeSpec.Supports | validator/catalog.go:77-84 | an attribute spec supports exactly the versions it lists |
| Catalog.Node | validator/catalog.go:35-41 | an absent catalog knows no node; otherwise a spec is found exactly when the name is a key (case-sensitive), and it is that key's spec |
| Catalog.Attribute | validator/catalog.go:52-58 | an absent spec declares nothing; otherwise found exactly for a declared attribute name, with its spec |
| Catalog.Child | validator/catalog.go:60-66 | an absent spec declares nothing; otherwise found exactly for a declared child name, with its relation |
| Catalog.DefaultCatalogWellFormed | validator/catalog.go:105-671 | every default entry is named after its key, and so is every attribute and child relation; all version lists are one of the two shared lists; only the extension containers accept unknown children; no attribute may be blank; the 4.0 elements list only 4.0 and later |
| Catalog.DefaultCatalogChildrenResolve | validator/catalog.go:105-671 | every child relation of the default catalog names an element the catalog describes |
| Catalog.DefaultCatalogRoot | validator/catalog.go:106-116 | the default catalog describes `VAST`, and `VAST` requires a `version` attribute |
| Catalog.DefaultCatalogHasNo20 | validator/catalog.go:86-100 | no version list of the default catalog, at any level, contains 2.0 |
| Catalog.DefaultCatalogPermissiveNodes | validator/catalog.go:105-671 | `Extension` and `CreativeExtension`, and only they, accept unknown children |
| Catalog.DefaultCatalog40PlusNodes | validator/catalog.go:251-322 | the viewability, universal-ad-id and verification elements are all in the default catalog, and none supports 3.0 |
| Parser.AttrValue | validator/parser.go:26-33 | a value is found exactly when some attribute has that local name, and it is the value of the first such attribute |
| Parser.Close | validator/parser.go:51-65 | closing an element attaches it as the last child of the enclosing open element, or makes it the root at top level |
| Parser.BuildNodeTree | validator/parser.go:36-88 | the token loop returns exactly `Parse(tokens)`, the fold of one step per token followed by taking the root |
| Parser.Advance | validator/parser.go:50-80 | one pass of the loop body computes exactly `Step` on the current stack and root |
| Parser.ErrorPersists | validator/parser.go:42-48 | once a prefix of the tokens fails, the whole run fails with the same error |
| Parser.RunSucceedsIffWellNested | validator/parser.go:41-81 | the loop succeeds exactly when no decoder error occurs and no end tag closes more elements than were opened; on success the stack depth is the nesting depth; no loop error is the empty-document error |
| Parser.RunOpenedIffStart | validator/parser.go:51-59 | after a successful loop, a root exists or an element is still open exactly when some start element was seen |
| Parser.FinishFindsRoot | validator/parser.go:83-87 | a root is returned exactly when an element was closed at top level or is still open |
| Parser.EmptyDocumentIffNoStart | validator/parser.go:83-85 | the empty-document error is returned exactly for well-nested token streams with no start element |
| Parser.UnexpectedClosingTagReported | validator/parser.go:61-64 | an end tag with nothing open yields the unexpected-closing-tag error naming that tag |
| Parser.EmptyElementAppended | validator/parser.go:51-65 | an empty element becomes the root at top level, or otherwise the new last child of the current element, and nothing else changes |
| Parser.ParsedContentTrimmed | validator/parser.go:67-80 | every node's text in a parsed tree is trimmed, because runs are trimmed and joined by single spaces |
| Parser.OtherTokensIgnored | validator/parser.go:50-81 | comments, processing instructions and directives do not change the result |
| Results.NonEmpty | validator/validator.go:298-303 | the reasons kept are the non-empty ones, with none lost |
| Results.NonEmptySingle | validator/validator.go:298-303 | a single reason is kept exactly when it is not empty; with `NonEmptyConcat` this fixes the filter's order and multiplicity |
| Results.NonEmptyConcat | validator/validator.go:298-303 | filtering distributes over concatenation |
| Results.AddAttribute | validator/result.go:32-34 | the attribute result is appended and nothing else changes |
| Results.MarkFailure | validator/validator.go:291-304 | the bucket fails, its reasons become the old reasons followed by exactly the non-empty new ones in order, and category and attributes are kept |
| Results.MarkFailureTwice | validator/validator.go:291-304 | marking twice equals marking once with both reason lists |
| Results.AddAnalysis | validator/result.go:46-56 | an existing bucket is returned unchanged; a missing one is created passing and empty and stored |
| Results.Merge | validator/validator.go:276-289 | a new category is stored as given; other categories are unchanged; the keys grow by the incoming category |
| Results.MergeMonotone | validator/validator.go:276-289 | merging never un-fails a bucket; into an existing bucket it appends the attributes, and a failing incoming bucket appends its non-empty reasons |
| Results.Cap | validator/result.go:94-96 | at most five reasons are kept, and they are the first ones |
| Results.CapAbsorbs | validator/result.go:94-96 | capping an intermediate list does not change the final sample |
| Results.SampleIsCap | validator/result.go:91-96 | adding a failing bucket's reasons one at a time while fewer than five are held equals capping the concatenation |
| Results.Summarizer.CountBuckets | validator/result.go:84-98 | counting one node's buckets updates the summaries to `AddNode` of the old summaries |
| Results.Summarizer.Walk | validator/result.go:80-102 | the recursive walk updates the summaries to `AddTree` of the old summaries |
| Results.SummarizeCategories | validator/result.go:74-108 | the result equals `Summaries(root)` |
| Results.AddTreeSummary | validator/result.go:80-102 | the walk adds to each category its node count, its failing count and the failing reasons in document order |
| Results.AddTreeKeys | validator/result.go:84-89 | a category gets a summary exactly when some node of the tree has that bucket |
| Results.FailCountBounded | validator/result.go:90-93 | no category has more failing nodes than nodes |
| Results.SummariesCount | validator/result.go:74-108 | there are no summaries exactly when no node has a bucket; otherwise each summary counts that category's nodes and failing nodes, fails exactly when a node failed, and holds the first five non-empty failing reasons |
| Text.TrimSpaceSpan | validator/custom.go:27-32 | what `TrimSpace` keeps is a slice of the string with only white space cut from either end |
| Hooks.NodeContext.Text | validator/custom.go:27-32 | the text is `TrimSpace` of the node's content, empty exactly for an absent node or blank content |
| Hooks.NodeContext.Attribute | validator/custom.go:35-40 | nothing for an absent node; otherwise found exactly when the node has an attribute of that local name, with the value of the first such attribute |
| Hooks.TextOfParsedNode | validator/custom.go:27-32 | on a parsed node, the hook sees the node's content unchanged |
| Hooks.WithHook | validator/custom.go:55-63 | registering appends the hook under the lower-cased name; an absent hook changes nothing |
| Hooks.LookupFindsEveryList | validator/custom.go:65-69 | in a registry whose keys are lower-case, the list stored under each key is exactly what a lookup of that key returns |
| Hooks.WithHookKeepsLowerKeys | validator/custom.go:61-62 | registration keeps every key lower-cased |
| Hooks.HookRegistry.constructor | validator/custom.go:72-75 | a new registry is empty |
| Hooks.HookRegistry.Register | validator/custom.go:78-86 | the store becomes `WithHook` of the old store, and the keys stay lower-cased |
| Hooks.HookRegistry.Get | validator/custom.go:88-92 | the hooks under the lower-cased name, oldest first |
| MediaFile.Normalized | validator/mediafile_http_validator.go:35 | the expected type is the lower-cased `TrimSpace` of the attribute, trimmed, and empty exactly when the attribute is blank |
| MediaFile.MediaType | validator/mediafile_http_validator.go:37-40 | the media type is the normalized header cut before its first `;` and trimmed again, or the whole normalized header without a `;`; it is trimmed and contains no parameters |
| MediaFile.MediaFileHTTPValidator | validator/mediafile_http_validator.go:18-48 | never returns an error; a custom bucket fails exactly when the URL is empty, the request fails, the status is 400 or more, or both types are known and differ; a failing bucket has one reason and a passing one none |
| MediaFile.EmptyURLIsNotProbed | validator/mediafile_http_validator.go:19-22 | an empty URL gives the same result whatever the network does |
| MediaFile.FailureReasons | validator/mediafile_http_validator.go:24-32 | the reasons for a transport error and an HTTP error status |
| MediaFile.MissingTypeNeverFails | validator/mediafile_http_validator.go:34-47 | a successful response passes when either type is missing or blank |
| MediaFile.RegisterBuiltInHTTPValidators | validator/mediafile_http_validator.go:14-16 | the MediaFile probe is registered under `MediaFile` |
| Engine.ConfigureFlags | validator/validator.go:52-65 | custom hooks run unless disabled; HTTP hooks run unless either option disables them; HTTP hooks never run without custom hooks |
| Engine.ConfigureCatalog | validator/validator.go:42-48 | the catalog is the last non-nil catalog option, or the default catalog |
| Engine.OptionsFlags | validator/validator.go:52-65 | from any config, options keep each kind of hook on exactly when it was on and no option disables it |
| Engine.OptionsCatalog | validator/validator.go:42-48 | from any config, options leave the last non-nil catalog supplied, or the catalog the config had |
| Engine.Config.constructor | validator/validator.go:32-39 | the default config |
| Engine.Config.Apply | validator/validator.go:42-72 | applying an option changes the config as the option's closure does |
| Engine.StructuralChecks | validator/validator.go:124-140 | the structural bucket fails exactly for an unknown node outside an extension, an unsupported node, or a node its parent may not contain in this version; one reason each, with its text (`not recognized in catalog`, `not supported in VAST <v>`, `not a valid child of <parent>`, `not allowed for parent <parent> in VAST <v>`) in the order the checks run; otherwise it is a fresh passing bucket |
| Engine.CheckStructure | validator/validator.go:124-140 | the structural checks return the bucket `StructuralBucket` describes |
| Engine.AttrResult | validator/validator.go:170-210 | an attribute result is named after the attribute and fails exactly when it has reasons |
| Engine.AttrResultFails | validator/validator.go:175-208 | an attribute fails exactly when its node is unknown, it is undeclared, its version is unsupported, or it is blank where that is not allowed; one reason per problem, none empty |
| Engine.SeenNamesPresent | validator/validator.go:168-172 | the seen set is exactly the local names of the node's attributes |
| Engine.PresentAttributesRecorded | validator/validator.go:170-211 | one result per present attribute is appended, in document order |
| Engine.PresentAttributesStatus | validator/validator.go:170-211 | the bucket fails after the present attributes exactly when it failed before or one of them failed |
| Engine.MissingRequiredCounted | validator/validator.go:213-232 | one result is appended per missing required attribute, and the bucket fails exactly when it failed before or one is missing |
| Engine.MissingRequiredReported | validator/validator.go:217-232 | every missing required attribute is reported, and only those |
| Engine.CheckPresentAttribute | validator/validator.go:170-211 | one pass of the attribute loop records that attribute's result |
| Engine.CheckPresentAttributes | validator/validator.go:168-211 | the first loop records every present attribute in document order and collects exactly their local names |
| Engine.ReportMissingRequired | validator/validator.go:217-232 | the loop over the declared attributes visits each of them once, in some order, and reports the missing required ones |
| Engine.ValidateAttributes | validator/validator.go:167-233 | validateAttributes returns the present attributes' results followed by the missing required ones |
| Engine.Categorized | validator/validator.go:241-243 | a bucket without a category gets `custom.analysis`; nothing else changes |
| Engine.HttpBucket | validator/validator.go:261-271 | an HTTP hook's error becomes a failing custom bucket with that reason; otherwise its bucket is kept, with a category |
| Engine.MergeExtends | validator/validator.go:276-289 | merging keeps every bucket and its key, and never un-fails a bucket |
| Engine.CustomHooksExtend | validator/validator.go:235-246 | running the custom hooks only adds to the buckets |
| Engine.HttpHooksExtend | validator/validator.go:248-274 | running the HTTP hooks only adds to the buckets |
| Engine.HttpErrorFails | validator/validator.go:262-265 | after an HTTP hook returns an error, the custom bucket fails and holds that error's text |
| Engine.ApplyCustomValidators | validator/validator.go:235-246 | the loop equals the fold of the custom hooks |
| Engine.ApplyHTTPValidators | validator/validator.go:248-274 | the loop equals the fold of the HTTP hooks |
| Engine.ValidateOwnBuckets | validator/validator.go:116-151 | a node's buckets are the structural checks, then its attributes (outside extensions), then the hooks that are enabled |
| Engine.ValidateChildren | validator/validator.go:153-162 | one result per child, in document order, each validated against the catalog's spec for its name |
| Engine.ValidateNode | validator/validator.go:115-165 | the recursive walk returns `Validated` of the node |
| WalkProperties.AttributesKeep | validator/validator.go:167-233 | checking attributes never un-fails the bucket, and only appends reasons and attribute results |
| WalkProperties.OwnBucketKept | validator/validator.go:124-151 | every node has an `iab.analysis` bucket, which keeps what the structural and attribute checks put in it; every bucket is stored under its category |
| WalkProperties.UnknownNodeFails | validator/validator.go:125-128 | an unknown node outside an extension fails, with the not-recognized reason first |
| WalkProperties.ChildAt | validator/validator.go:158-162 | the i-th child result is the validation of the i-th child |
| WalkProperties.ValidatedMirrors | validator/validator.go:115-165 | the result tree has the document's shape, with an `iab.analysis` bucket at every node |
| WalkProperties.MirrorsCount | validator/result.go:84-101 | a result tree of the document's shape counts one `iab.analysis` bucket per element |
| WalkProperties.PermissiveSubtreeQuiet | validator/validator.go:142-156 | inside an extension, with hooks off, every node has only a structural bucket, without attribute results, that fails only for a known but unsupported element |
| WalkProperties.DisabledHooksIgnored | validator/validator.go:146-151 | hooks that are switched off, and the network when HTTP hooks are off, do not affect the walk |
| Validator.Configure | validator/validator.go:80-83 | applying the options in order gives `Engine.Configure(opts)` |
| Validator.RootChecks | validator/validator.go:90-98 | a root not named `VAST` is an invalid root; a missing or blank version is a missing version; otherwise the version is the trimmed, non-empty attribute value |
| Validator.PrepareErrors | validator/validator.go:75-103 | the parse error comes first, then the root errors; the missing-root-spec error occurs exactly when the configured catalog lacks `VAST`; on success the root, version and settings are those of the parse, the root check and the options |
| Validator.EmptyInputRejected | validator/validator.go:76-78 | an empty document is refused with the empty-document error |
| Validator.RootSpecFound | validator/validator.go:100-103 | with the default catalog, or a catalog option that describes `VAST`, the root spec is found |
| Validator.Complete | validator/validator.go:104-112 | walking, marking and summarising return `Completed` of the prepared document |
| Validator.Validate | validator/validator.go:75-113 | Validate returns `Validation` of the tokens, the options, the registries' contents and the network |
| Validator.ValidationFailsEarly | validator/validator.go:75-103 | Validate fails exactly when the preparation fails, with the same error |
| Validator.MarkUnsupportedFails | validator/validator.go:107-110 | marking the root fails its `iab.analysis` bucket with one more reason, "Unsupported VAST version: v", and changes nothing else |
| Validator.RootVersionVerdict | validator/validator.go:104-110 | the root is marked exactly when the root spec does not list the version |
| Validator.ValidationMirrorsDocument | validator/validator.go:106-112 | the result mirrors the document, and the summaries always exist and count every element under `iab.analysis` |
| Validator.DisabledHooksIgnored | validator/validator.go:50-65 | with custom validators disabled no hook or probe matters; with HTTP validators disabled no HTTP hook or probe matters |
| Common.MarshalNumericBool | vast/common.go:7-12 | true marshals to "1" and false to "0", never with an error |
| Common.ValidateDuration | vast/common.go:45-94 | the method returns `DurationVerdict(s)`, the checks in the order the code makes them |
| Common.NewDuration | vast/common.go:35-41 | the value is kept exactly when it validates; otherwise "" and the error |
| Common.HhmmssFields | vast/common.go:79-84 | the accumulated number of a well-shaped duration is hh*10000 + mm*100 + ss |
| Common.DurationAccepted | vast/common.go:45-94 | as written, a duration is accepted exactly when it is well shaped and at least 00:00:05; a bad shape, a zero and a sub-five value each get their own error |
| Common.OutOfRangeAccepted | vast/common.go:62-76 | "99:99:99" is accepted although its hours, minutes and seconds are out of range |
| Common.IntendedDurationAccepted | vast/common.go:43-44 | with the range checks on the accumulated number, a duration is accepted exactly when it is well shaped, hh ≤ 23, mm ≤ 59, ss ≤ 59 and it is at least 5 seconds; each out-of-range field gets its own error |
| Common.EmptyDurationRefused | vast/common.go:47-49 | the empty duration is refused as badly formatted |
| Common.ScanDigits | vast/common.go:122-126 | the scan succeeds exactly when every character is an ASCII digit |
| Common.ValidateXPosition | vast/common.go:115-128 | accepted exactly for "left", "right" or a digit string, the empty string included |
| Common.ValidateYPosition | vast/common.go:149-162 | accepted exactly for "top", "bottom" or a digit string, the empty string included |
| Common.NewXPosition | vast/common.go:106-112 | the value is kept exactly when it validates; otherwise "" and the error |
| Common.NewYPosition | vast/common.go:140-146 | the value is kept exactly when it validates; otherwise "" and the error |
| Common.ConstructedPositionsValidate | vast/common.go:106-112 | whatever a position constructor returns validates again |
| Linear.DotDigitGroupsExactly | vast/linear.go:67 | `(\.?\d)*` matches exactly the strings of digits and dots in which every dot is followed by a digit |
| Linear.PercentPatternExactly | vast/linear.go:64-70 | `^1?\d?\d(\.?\d)*$` matches exactly the dotted decimals: digit groups joined by single dots, with no bound on the number |
| Linear.ValidateSkipOffset | vast/linear.go:58-78 | an offset is accepted exactly when it is empty, a dotted decimal followed by `%`, or a time `dd:[0-5]d:[0-5]d` with optional three-digit milliseconds |
| Linear.NewSkipOffset | vast/linear.go:49-55 | the value is kept exactly when it validates; otherwise "" and the error |
| Linear.ConstructedOffsetValidates | vast/linear.go:49-62 | whatever NewSkipOffset returns validates again |
| Linear.TimeOffsetFields | vast/linear.go:72-75 | a time offset without milliseconds is a well-shaped duration whose minutes and seconds are at most 59 |
| Linear.PercentExamples | vast/linear.go:64-70 | "25%", "100%", "12.5%" and also "1000%" are accepted |
| Linear.TimeExamples | vast/linear.go:59-75 | "", "00:00:05" and "01:30:15.250" are accepted |
| Linear.RejectedExamples | vast/linear.go:77 | "%", "12..5%", "00:60:00" and "00:00:05.25" are refused |

## Left out

- The XML decoder of `encoding/xml`: the model starts from its token stream. An empty byte slice is the empty token stream. The `errEmptyXML` check that `Validate` makes before the options is then the parser's empty-document error; the outcome is the same.
- Error texts of `Validate` and `buildNodeTree` are error constructors. Reasons recorded in buckets keep their exact text.
- The HTTP client, the timeout, the context and `http_helpers.go` (`probeMediaURL`, the HEAD-then-GET fallback and the default client) are not part of this model. The network is the `Probe` parameter, and `HTTPValidationOptions` is carried unchanged.
- The mutexes and the package-level registries: a registry is a `HookRegistry` object, and a validation reads the hooks it holds at the start. Concurrent registration during a validation is not modelled.
- Go map iteration order appears as ghost `order` outputs. Every property holds for all orders.
- `result.go` declares a single `Reason` string on attribute and analysis results, while `validator.go` writes `Reasons` lists and calls `addReason`. The sources do not agree. The model keeps a list of reasons, as `validator.go` uses them. The summaries take each non-empty reason of a failing bucket while fewer than five are held.
- `buildNodeTree` records a top-level element as the root when it opens. The model records it when it closes, and the end of input closes any element still open. The final tree is the same.
- Go strings are byte sequences and are indexed by byte. The model uses sequences of code points. Every string the `vast` validators accept is ASCII, and a non-ASCII string is refused by both, so the verdicts agree.
- `fmt` messages of the `vast` validators are error constructors, each commented with its text.
- JSON tags, `CData`, `AdParameters`, and the struct-only files of `vast/` carry no behaviour to verify and are not part of this model. `vast/version.go` is not part of this model either; versions are opaque strings.
- Hooks.WithHook: registry keys are lower-cased with `Text.ToLower`, which maps ASCII letters only, where Go's `strings.ToLower` also maps non-ASCII letters; the hook names the validator uses are the catalog's ASCII element names, and a non-ASCII name is only merged with its other capitalisations by Go.
- Hooks.HookRegistry.Register: same ASCII-only lower-casing of the key as `WithHook`.
- Hooks.HookRegistry.Get: same ASCII-only lower-casing of the name looked up as `WithHook`.
- MediaFile.Normalized: lower-cases ASCII letters only; media types are ASCII tokens, so only a non-ASCII declared or served type could compare differently than in Go.
- Buckets are values, while Go passes `*NodeAnalysisResult` pointers around. A hook that keeps or shares the bucket pointer it returns would, in Go, see the later `mergeAnalysis` and `markFailure` changes to that bucket; in the model it keeps the value it returned.
- `Common.NewDuration`: follows the code as written and so accepts out-of-range fields; see Findings. No other part of the model uses durations.
- `Results.Summarizer.Walk` and `Results.Summarizer.CountBuckets`: their contracts tie the new state to `AddTree`/`AddNode`; what the walk computes is stated in `SummariesCount`.

## Findings

| source | as written | input that shows it | evidently intended | confidence | as-written member | corrected member |
|---|---|---|---|---|---|---|
| vast/common.go:63-76 | the hour, minute and second range checks read `numericValue` while it is still 0, before the digits are accumulated, so they never fire | "99:99:99" | reject hours above 23 and minutes or seconds above 59 | high, not executed | Common.OutOfRangeAccepted | Common.IntendedDurationAccepted |
