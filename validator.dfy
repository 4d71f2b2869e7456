/**
 * Validate of validator/validator.go: configure, parse the document, check its root and
 * version, walk it, mark the root when the catalog does not list the version, and summarize.
 *
 * The document is given as the token stream its bytes decode to; an empty byte slice decodes
 * to no tokens. The hook registries are the values they hold while the document is walked.
 */
module Validator {
  import opened Wrappers
  import Str = Text
  import Catalog
  import Parser
  import Results
  import Hooks
  import Engine
  import WalkProperties

  /** The errors Validate returns instead of a result, in the order it checks for them. */
  datatype ValidateError =
    | ParseFailed(cause: Parser.ParseError)   // errEmptyXML or a buildNodeTree error
    | InvalidRoot                             // ErrInvalidRoot
    | MissingVersion                          // ErrMissingVersion
    | MissingRootSpec                         // the catalog has no "VAST" entry

  /** ValidationResult: the trimmed version, the root's result and the per-category summaries (absent when empty). */
  datatype ValidationResult = ValidationResult(
    version: Catalog.Version,
    root: Results.NodeResult,
    summaries: Option<map<string, Results.CategorySummary>>)

  /** What Validate has established before it walks the tree. */
  datatype Prepared = Prepared(root: Parser.Node, version: Catalog.Version, settings: Engine.Settings, rootSpec: Catalog.NodeSpec)

  /** The prefix of "Unsupported VAST version: <v>". */
  const UnsupportedVersion: string := "Unsupported VAST version"

  /** The root's checks: it must be a VAST element with a non-blank version attribute, which is then trimmed. */
  function RootVersion(root: Parser.Node): Result<Catalog.Version, ValidateError> {
    if root.LocalName() != "VAST" then Err(InvalidRoot)
    else
      var versionValue := Parser.AttrValue(root.attrs, "version");
      if versionValue.None? || Str.TrimSpace(versionValue.value) == "" then Err(MissingVersion)
      else Ok(Str.TrimSpace(versionValue.value))
  }

  /** The checks Validate makes before the walk, each with its error. */
  function Prepare(tokens: seq<Parser.Token>, opts: seq<Engine.ConfigOption>): Result<Prepared, ValidateError>
  {
    match Parser.Parse(tokens)
    case Err(e) => Err(ParseFailed(e))
    case Ok(root) =>
      match RootVersion(root)
      case Err(e) => Err(e)
      case Ok(version) =>
        var settings := Engine.Configure(opts);
        var rootSpec := Catalog.Node(Some(settings.catalog), "VAST");
        if rootSpec.None? then Err(MissingRootSpec) else Ok(Prepared(root, version, settings, rootSpec.value))
  }

  /** What the walk sees: the configured catalog and switches, the version, the registries and the network. */
  function WalkEnv(p: Prepared, customHooks: map<string, seq<Hooks.CustomHook>>, httpHooks: map<string, seq<Hooks.HttpHook>>, probe: Hooks.Probe): Engine.Env {
    Engine.Env(p.settings.catalog, p.version, p.settings.runCustom, p.settings.runHTTP, customHooks, httpHooks, probe)
  }

  /** The root's result with its "iab.analysis" bucket failed for a version the root spec does not list. */
  function MarkUnsupported(t: Results.NodeResult, version: Catalog.Version): Results.NodeResult {
    var (analyses, iab) := Results.AddAnalysis(t.analyses, Results.IABAnalysisCategory);
    t.(analyses := analyses[Results.IABAnalysisCategory := Results.MarkFailure(iab, [UnsupportedVersion + ": " + version])])
  }

  /** The walk of the root, the version mark and the summaries, once the checks have passed. */
  function Completed(p: Prepared, customHooks: map<string, seq<Hooks.CustomHook>>, httpHooks: map<string, seq<Hooks.HttpHook>>, probe: Hooks.Probe,
                     orders: Engine.OrderTree): ValidationResult {
    var walked := Engine.Validated(WalkEnv(p, customHooks, httpHooks, probe), p.root, Some(p.rootSpec), None, false, orders);
    var root := if p.rootSpec.Supports(p.version) then walked else MarkUnsupported(walked, p.version);
    ValidationResult(p.version, root, Results.Summaries(Some(root)))
  }

  /** Validate, given the order each node's declared attributes are visited in. */
  function Validation(tokens: seq<Parser.Token>, opts: seq<Engine.ConfigOption>,
                      customHooks: map<string, seq<Hooks.CustomHook>>, httpHooks: map<string, seq<Hooks.HttpHook>>,
                      probe: Hooks.Probe, orders: Engine.OrderTree): Result<ValidationResult, ValidateError>
  {
    match Prepare(tokens, opts)
    case Err(e) => Err(e)
    case Ok(p) => Ok(Completed(p, customHooks, httpHooks, probe, orders))
  }

  /** The orders fit the document Validate walks, if it walks one. */
  ghost predicate OrdersFitDocument(tokens: seq<Parser.Token>, opts: seq<Engine.ConfigOption>,
                                    customHooks: map<string, seq<Hooks.CustomHook>>, httpHooks: map<string, seq<Hooks.HttpHook>>,
                                    probe: Hooks.Probe, orders: Engine.OrderTree)
  {
    match Prepare(tokens, opts)
    case Err(_) => true
    case Ok(p) => Engine.OrdersFit(WalkEnv(p, customHooks, httpHooks, probe), p.root, Some(p.rootSpec), false, orders)
  }

  /** The options applied, in order, to a fresh config. */
  method Configure(opts: seq<Engine.ConfigOption>) returns (config: Engine.Config)
    ensures config.Snapshot() == Engine.Configure(opts)
  {
    config := new Engine.Config();
    ghost var defaults := config.Snapshot();
    for i := 0 to |opts|
      invariant config.Snapshot() == Engine.ApplyOptions(defaults, opts[..i])
    {
      assert opts[..i + 1][..i] == opts[..i];
      config.Apply(opts[i]);
    }
    assert opts[..|opts|] == opts;
  }

  /** The walk of the root, the version mark and the summaries. */
  method Complete(p: Prepared, customHooks: map<string, seq<Hooks.CustomHook>>, httpHooks: map<string, seq<Hooks.HttpHook>>, probe: Hooks.Probe)
    returns (r: ValidationResult, ghost orders: Engine.OrderTree)
    ensures Engine.OrdersFit(WalkEnv(p, customHooks, httpHooks, probe), p.root, Some(p.rootSpec), false, orders)
    ensures r == Completed(p, customHooks, httpHooks, probe, orders)
  {
    var rootVersionSupported := p.rootSpec.Supports(p.version);
    var env := Engine.Env(p.settings.catalog, p.version, p.settings.runCustom, p.settings.runHTTP, customHooks, httpHooks, probe);
    var root;
    root, orders := Engine.ValidateNode(env, p.root, Some(p.rootSpec), None, false);
    if !rootVersionSupported {
      var (analyses, iab) := Results.AddAnalysis(root.analyses, Results.IABAnalysisCategory);
      iab := Results.MarkFailure(iab, [UnsupportedVersion + ": " + p.version]);
      root := root.(analyses := analyses[Results.IABAnalysisCategory := iab]);
    }
    var summaries := Results.SummarizeCategories(Some(root));
    r := ValidationResult(p.version, root, summaries);
  }

  /** Validate. */
  method Validate(tokens: seq<Parser.Token>, opts: seq<Engine.ConfigOption>,
                  customRegistry: Hooks.HookRegistry<Hooks.CustomHook>, httpRegistry: Hooks.HookRegistry<Hooks.HttpHook>,
                  probe: Hooks.Probe)
    returns (r: Result<ValidationResult, ValidateError>, ghost orders: Engine.OrderTree)
    ensures OrdersFitDocument(tokens, opts, customRegistry.store, httpRegistry.store, probe, orders)
    ensures r == Validation(tokens, opts, customRegistry.store, httpRegistry.store, probe, orders)
  {
    orders := Engine.OrderTree([], []);
    var config := Configure(opts);
    var parsed := Parser.BuildNodeTree(tokens);
    if parsed.Err? {
      return Err(ParseFailed(parsed.error)), orders;
    }
    var root := parsed.value;
    if root.LocalName() != "VAST" {
      return Err(InvalidRoot), orders;
    }
    var versionValue := Parser.AttrValue(root.attrs, "version");
    if versionValue.None? || Str.TrimSpace(versionValue.value) == "" {
      return Err(MissingVersion), orders;
    }
    var version := Str.TrimSpace(versionValue.value);
    assert RootVersion(root) == Ok(version);
    var rootSpec := Catalog.Node(Some(config.catalog), "VAST");
    if rootSpec.None? {
      return Err(MissingRootSpec), orders;
    }
    var p := Prepared(root, version, config.Snapshot(), rootSpec.value);
    assert Prepare(tokens, opts) == Ok(p);
    var result;
    result, orders := Complete(p, customRegistry.store, httpRegistry.store, probe);
    r := Ok(result);
  }

  // ----- What Validate promises -----

  /**
   * The root's checks fail in the order Validate makes them, each exactly when the earlier one
   * passed and its own fails; the version that passes is the trimmed, non-empty version attribute.
   */
  lemma RootChecks(root: Parser.Node)
    ensures var r := RootVersion(root);
      var versionValue := Parser.AttrValue(root.attrs, "version");
      && (root.LocalName() != "VAST" <==> r == Err(InvalidRoot))
      && (root.LocalName() == "VAST" && (versionValue.None? || Str.Blank(versionValue.value)) <==> r == Err(MissingVersion))
      && (r.Ok? ==> versionValue.Some? && r.value == Str.TrimSpace(versionValue.value) && r.value != "" && Str.Trimmed(r.value))
  {
    var versionValue := Parser.AttrValue(root.attrs, "version");
    if versionValue.Some? {
      assert Str.TrimSpace(versionValue.value) == "" <==> Str.Blank(versionValue.value);
    }
  }

  /**
   * The checks before the walk come in order: a parse error first, then the root's checks, then a
   * catalog without a root spec; when all pass, the walk starts at the parsed root with the
   * version the root's checks found and the options applied.
   */
  lemma PrepareErrors(tokens: seq<Parser.Token>, opts: seq<Engine.ConfigOption>)
    ensures var r := Prepare(tokens, opts);
      var parsed := Parser.Parse(tokens);
      && (parsed.Err? <==> r.Err? && r.error.ParseFailed?)
      && (parsed.Err? ==> r == Err(ParseFailed(parsed.error)))
      && (parsed.Ok? && RootVersion(parsed.value).Err? ==> r == Err(RootVersion(parsed.value).error))
      && (r == Err(MissingRootSpec) <==>
            parsed.Ok? && RootVersion(parsed.value).Ok? && "VAST" !in Engine.Configure(opts).catalog.nodes)
      && (r.Ok? ==> parsed.Ok? && r.value.root == parsed.value && Ok(r.value.version) == RootVersion(parsed.value)
                    && r.value.settings == Engine.Configure(opts))
  {
  }

  /** Validate fails exactly when a check before the walk fails, with that check's error. */
  lemma ValidationFailsEarly(tokens: seq<Parser.Token>, opts: seq<Engine.ConfigOption>,
                             customHooks: map<string, seq<Hooks.CustomHook>>, httpHooks: map<string, seq<Hooks.HttpHook>>,
                             probe: Hooks.Probe, orders: Engine.OrderTree)
    ensures var p := Prepare(tokens, opts);
      var r := Validation(tokens, opts, customHooks, httpHooks, probe, orders);
      && (r.Err? <==> p.Err?)
      && (p.Err? ==> r.error == p.error)
      && (p.Ok? ==> r.value == Completed(p.value, customHooks, httpHooks, probe, orders))
  {
  }

  /** An empty document is rejected by the parser, before anything else is looked at. */
  lemma EmptyInputRejected(opts: seq<Engine.ConfigOption>)
    ensures Prepare([], opts) == Err(ParseFailed(Parser.EmptyDocument))
  {
    assert Parser.Run([]) == Ok(Parser.Builder([], None));
  }

  /**
   * With the default catalog, or with a last catalog option whose catalog describes the root, the
   * configured catalog has the root's spec, so Validate never reports MissingRootSpec.
   */
  lemma RootSpecFound(opts: seq<Engine.ConfigOption>)
    requires Engine.LastCatalog(opts).None? || "VAST" in Engine.LastCatalog(opts).value.nodes
    ensures "VAST" in Engine.Configure(opts).catalog.nodes
  {
    Engine.ConfigureCatalog(opts);
    if Engine.LastCatalog(opts).None? {
      Catalog.DefaultCatalogRoot();
    }
  }

  /**
   * A version the root's spec does not list fails the root's "iab.analysis" bucket with the
   * reason "Unsupported VAST version: <v>" after the reasons the walk gave it; a listed version
   * leaves the walked root as it is.
   */
  lemma RootVersionVerdict(p: Prepared, customHooks: map<string, seq<Hooks.CustomHook>>, httpHooks: map<string, seq<Hooks.HttpHook>>, probe: Hooks.Probe, orders: Engine.OrderTree)
    ensures var env := WalkEnv(p, customHooks, httpHooks, probe);
      var walked := Engine.Validated(env, p.root, Some(p.rootSpec), None, false, orders);
      var r := Completed(p, customHooks, httpHooks, probe, orders);
      && (p.rootSpec.Supports(p.version) ==> r.root == walked)
      && (!p.rootSpec.Supports(p.version) ==>
            && r.root.children == walked.children
            && r.root.analyses.Keys == walked.analyses.Keys
            && Results.IABAnalysisCategory in r.root.analyses
            && r.root.analyses[Results.IABAnalysisCategory].status == Results.Fail
            && r.root.analyses[Results.IABAnalysisCategory].reasons ==
                 walked.analyses[Results.IABAnalysisCategory].reasons + [UnsupportedVersion + ": " + p.version])
  {
    var walked := Engine.Validated(WalkEnv(p, customHooks, httpHooks, probe), p.root, Some(p.rootSpec), None, false, orders);
    WalkProperties.ValidatedMirrors(WalkEnv(p, customHooks, httpHooks, probe), p.root, Some(p.rootSpec), None, false, orders);
    MarkUnsupportedFails(walked, p.version);
  }

  /** The version mark fails the existing "iab.analysis" bucket with one more reason and touches nothing else. */
  lemma MarkUnsupportedFails(t: Results.NodeResult, version: Catalog.Version)
    requires Results.IABAnalysisCategory in t.analyses
    ensures var r := MarkUnsupported(t, version);
      && r.children == t.children
      && r.analyses.Keys == t.analyses.Keys
      && r.analyses[Results.IABAnalysisCategory].status == Results.Fail
      && r.analyses[Results.IABAnalysisCategory].reasons ==
           t.analyses[Results.IABAnalysisCategory].reasons + [UnsupportedVersion + ": " + version]
  {
    assert Results.NonEmpty([UnsupportedVersion + ": " + version]) == [UnsupportedVersion + ": " + version];
  }

  /**
   * A result mirrors the parsed document: one result per element, in document order, each with
   * an "iab.analysis" bucket; so the summary of that category exists and counts every element.
   */
  lemma ValidationMirrorsDocument(p: Prepared, customHooks: map<string, seq<Hooks.CustomHook>>, httpHooks: map<string, seq<Hooks.HttpHook>>, probe: Hooks.Probe, orders: Engine.OrderTree)
    ensures var r := Completed(p, customHooks, httpHooks, probe, orders);
      && WalkProperties.Mirrors(p.root, r.root)
      && r.summaries.Some?
      && Results.IABAnalysisCategory in r.summaries.value
      && r.summaries.value[Results.IABAnalysisCategory].totalNodes == WalkProperties.NodeCount(p.root)
  {
    var r := Completed(p, customHooks, httpHooks, probe, orders);
    WalkProperties.ValidatedMirrors(WalkEnv(p, customHooks, httpHooks, probe), p.root, Some(p.rootSpec), None, false, orders);
    assert WalkProperties.Mirrors(p.root, r.root);
    WalkProperties.MirrorsCount(p.root, r.root);
    Results.SummariesCount(r.root);
  }

  /**
   * DisableCustomValidators turns off both kinds of hooks and DisableHTTPValidators the HTTP
   * ones: a result then does not depend on the registries of the hooks turned off, nor on the
   * network when no HTTP hook runs.
   */
  lemma DisabledHooksIgnored(tokens: seq<Parser.Token>, opts: seq<Engine.ConfigOption>,
                             custom1: map<string, seq<Hooks.CustomHook>>, http1: map<string, seq<Hooks.HttpHook>>, probe1: Hooks.Probe,
                             custom2: map<string, seq<Hooks.CustomHook>>, http2: map<string, seq<Hooks.HttpHook>>, probe2: Hooks.Probe,
                             orders: Engine.OrderTree)
    requires custom1 == custom2 || Engine.DisableCustomValidators in opts
    requires (http1 == http2 && probe1 == probe2) || Engine.DisableCustomValidators in opts || Engine.DisableHTTPValidators in opts
    ensures Validation(tokens, opts, custom1, http1, probe1, orders) == Validation(tokens, opts, custom2, http2, probe2, orders)
  {
    ValidationFailsEarly(tokens, opts, custom1, http1, probe1, orders);
    ValidationFailsEarly(tokens, opts, custom2, http2, probe2, orders);
    var r := Prepare(tokens, opts);
    if r.Ok? {
      var p := r.value;
      PrepareErrors(tokens, opts);
      Engine.ConfigureFlags(opts);
      var e1, e2 := WalkEnv(p, custom1, http1, probe1), WalkEnv(p, custom2, http2, probe2);
      assert WalkProperties.SameChecks(e1, e2);
      WalkProperties.DisabledHooksIgnored(e1, e2, p.root, Some(p.rootSpec), None, false, orders);
    }
  }
}
