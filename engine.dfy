/**
 * The validation pass of validator/validator.go: the configuration options, the recursive walk
 * that gives every node of the parsed document a result with an "iab.analysis" bucket, the
 * structural and attribute checks against the catalog, the hooks, and Validate itself.
 */
module Engine {
  import opened Wrappers
  import Str = Text
  import Catalog
  import Parser
  import Results
  import Hooks

  // ----- Configuration -----

  /** HTTPValidationOptions: whether a client is supplied, and the timeout in nanoseconds. */
  datatype HTTPValidationOptions = HTTPValidationOptions(hasClient: bool, timeoutNanos: int)

  /** The default timeout, two seconds. */
  const DefaultHTTPTimeout: int := 2_000_000_000

  /** Option: the four ways a caller adjusts the configuration. */
  datatype ConfigOption =
    | WithCatalog(catalog: Option<Catalog.Catalog>)
    | DisableCustomValidators
    | DisableHTTPValidators
    | WithHTTPValidationOptions(options: HTTPValidationOptions)

  /** The state of a config. */
  datatype Settings = Settings(catalog: Catalog.Catalog, runCustom: bool, runHTTP: bool, httpOptions: HTTPValidationOptions)

  function DefaultSettings(): Settings {
    Settings(Catalog.DefaultCatalog, true, true, HTTPValidationOptions(false, DefaultHTTPTimeout))
  }

  /** What one option does to a config; an absent catalog is ignored. */
  function ApplyOption(s: Settings, opt: ConfigOption): Settings {
    match opt
    case WithCatalog(catalog) => if catalog.Some? then s.(catalog := catalog.value) else s
    case DisableCustomValidators => s.(runCustom := false, runHTTP := false)
    case DisableHTTPValidators => s.(runHTTP := false)
    case WithHTTPValidationOptions(options) => s.(httpOptions := options)
  }

  /** The options applied in order to a config. */
  function ApplyOptions(s: Settings, opts: seq<ConfigOption>): Settings
    decreases |opts|
  {
    if opts == [] then s else ApplyOption(ApplyOptions(s, opts[..|opts| - 1]), opts[|opts| - 1])
  }

  /** The config after the options, applied in order to the defaults. */
  function Configure(opts: seq<ConfigOption>): Settings {
    ApplyOptions(DefaultSettings(), opts)
  }

  /** The last catalog the options supply, if any. */
  function LastCatalog(opts: seq<ConfigOption>): Option<Catalog.Catalog>
    decreases |opts|
  {
    if opts == [] then None
    else
      var last := opts[|opts| - 1];
      if last.WithCatalog? && last.catalog.Some? then last.catalog else LastCatalog(opts[..|opts| - 1])
  }

  /**
   * Disabling custom validators turns off both kinds of hooks, disabling HTTP validators only
   * the HTTP ones, and no option turns them back on.
   */
  lemma {:induction false} OptionsFlags(s: Settings, opts: seq<ConfigOption>)
    ensures ApplyOptions(s, opts).runCustom <==> s.runCustom && DisableCustomValidators !in opts
    ensures ApplyOptions(s, opts).runHTTP <==> s.runHTTP && DisableCustomValidators !in opts && DisableHTTPValidators !in opts
    decreases |opts|
  {
    if opts != [] {
      var prefix := opts[..|opts| - 1];
      OptionsFlags(s, prefix);
      assert opts == prefix + [opts[|opts| - 1]];
    }
  }

  /** The catalog is the last one supplied, absent catalogs being ignored, or else the one before. */
  lemma {:induction false} OptionsCatalog(s: Settings, opts: seq<ConfigOption>)
    ensures ApplyOptions(s, opts).catalog == LastCatalog(opts).GetOr(s.catalog)
    decreases |opts|
  {
    if opts != [] {
      OptionsCatalog(s, opts[..|opts| - 1]);
    }
  }

  /** From the defaults, HTTP hooks run unless an option disables them, and never without custom hooks. */
  lemma {:induction false} ConfigureFlags(opts: seq<ConfigOption>)
    ensures Configure(opts).runCustom <==> DisableCustomValidators !in opts
    ensures Configure(opts).runHTTP <==> DisableCustomValidators !in opts && DisableHTTPValidators !in opts
    ensures Configure(opts).runHTTP ==> Configure(opts).runCustom
  {
    OptionsFlags(DefaultSettings(), opts);
  }

  /** From the defaults, the catalog is the last one supplied, or else the default catalog. */
  lemma {:induction false} ConfigureCatalog(opts: seq<ConfigOption>)
    ensures Configure(opts).catalog == LastCatalog(opts).GetOr(Catalog.DefaultCatalog)
  {
    OptionsCatalog(DefaultSettings(), opts);
  }

  /** config, updated in place by each option. */
  class Config {
    var catalog: Catalog.Catalog
    var runCustom: bool
    var runHTTP: bool
    var httpOptions: HTTPValidationOptions

    function Snapshot(): Settings
      reads this
    {
      Settings(catalog, runCustom, runHTTP, httpOptions)
    }

    /** defaultConfig. */
    constructor()
      ensures Snapshot() == DefaultSettings()
    {
      catalog := Catalog.DefaultCatalog;
      runCustom := true;
      runHTTP := true;
      httpOptions := HTTPValidationOptions(false, DefaultHTTPTimeout);
    }

    /** Calling one Option closure on the config. */
    method Apply(opt: ConfigOption)
      modifies this
      ensures Snapshot() == ApplyOption(old(Snapshot()), opt)
    {
      match opt {
        case WithCatalog(c) =>
          if c.Some? {
            catalog := c.value;
          }
        case DisableCustomValidators =>
          runCustom := false;
          runHTTP := false;
        case DisableHTTPValidators =>
          runHTTP := false;
        case WithHTTPValidationOptions(options) =>
          httpOptions := options;
      }
    }
  }

  // ----- Structural checks of one node -----

  /** The "iab.analysis" bucket after the structural checks of validateNodeRecursive. */
  function StructuralBucket(name: string, version: Catalog.Version, spec: Option<Catalog.NodeSpec>,
                            parentSpec: Option<Catalog.NodeSpec>, allowUnknown: bool): Results.Analysis
  {
    var bucket := Results.NewAnalysis(Results.IABAnalysisCategory);
    if spec.None? then
      if !allowUnknown then Results.MarkFailure(bucket, ["node " + name + " is not recognized in catalog"]) else bucket
    else
      var checked :=
        if !spec.value.Supports(version) then Results.MarkFailure(bucket, ["node " + name + " is not supported in VAST " + version])
        else bucket;
      if parentSpec.Some? && !allowUnknown then
        match Catalog.Child(parentSpec, name)
        case None => Results.MarkFailure(checked, ["node " + name + " is not a valid child of " + parentSpec.value.name])
        case Some(childSpec) =>
          if !childSpec.Supports(version) then
            Results.MarkFailure(checked, ["node " + name + " is not allowed for parent " + parentSpec.value.name + " in VAST " + version])
          else checked
      else checked
  }

  /**
   * An unknown node fails unless unknown nodes are allowed here; a known node fails for each
   * check that does not hold, independently, with one reason each: its own versions, and, when
   * a parent spec exists and unknown children are not allowed, whether the parent declares it
   * and whether that declaration covers the version. The reasons are those texts, in the
   * order the checks run. A bucket that does not fail is fresh.
   */
  lemma StructuralChecks(name: string, version: Catalog.Version, spec: Option<Catalog.NodeSpec>,
                         parentSpec: Option<Catalog.NodeSpec>, allowUnknown: bool)
    ensures var r := StructuralBucket(name, version, spec, parentSpec, allowUnknown);
      var unknown := spec.None? && !allowUnknown;
      var unsupported := spec.Some? && !spec.value.Supports(version);
      var checksChild := spec.Some? && parentSpec.Some? && !allowUnknown;
      var undeclared := checksChild && name !in parentSpec.value.children;
      var childUnsupported := checksChild && name in parentSpec.value.children && !parentSpec.value.children[name].Supports(version);
      && r.category == Results.IABAnalysisCategory && r.attributes == []
      && (r.status == Results.Fail <==> unknown || unsupported || undeclared || childUnsupported)
      && (r.status != Results.Fail ==> r == Results.NewAnalysis(Results.IABAnalysisCategory))
      && |r.reasons| == (if unknown then 1 else 0) + (if unsupported then 1 else 0) + (if undeclared || childUnsupported then 1 else 0)
      && r.reasons ==
           (if unknown then ["node " + name + " is not recognized in catalog"] else [])
           + (if unsupported then ["node " + name + " is not supported in VAST " + version] else [])
           + (if undeclared then ["node " + name + " is not a valid child of " + parentSpec.value.name]
              else if childUnsupported then
                ["node " + name + " is not allowed for parent " + parentSpec.value.name + " in VAST " + version]
              else [])
  {
  }

  // ----- Attribute checks -----

  /** The reasons one present attribute fails for; none when it passes. */
  function AttrReasons(attr: Parser.Attr, version: Catalog.Version, spec: Option<Catalog.NodeSpec>): seq<string> {
    var name := attr.name.local;
    match spec
    case None => ["node is not recognized; attribute cannot be validated"]
    case Some(s) =>
      match Catalog.Attribute(spec, name)
      case None => ["attribute " + name + " is not allowed on " + s.name]
      case Some(attrSpec) =>
        (if !attrSpec.Supports(version) then ["attribute " + name + " is not supported in VAST " + version] else [])
        + (if Str.TrimSpace(attr.value) == "" && !attrSpec.allowEmpty then ["attribute " + name + " cannot be empty"] else [])
  }

  /** The result recorded for one present attribute: failing exactly when it has reasons. */
  function AttrResult(attr: Parser.Attr, version: Catalog.Version, spec: Option<Catalog.NodeSpec>): (r: Results.AttributeResult)
    ensures r.name == attr.name.local
    ensures r.status == (if r.reasons == [] then Results.Pass else Results.Fail)
  {
    var reasons := AttrReasons(attr, version, spec);
    var versions := if spec.Some? && attr.name.local in spec.value.attributes then spec.value.attributes[attr.name.local].versions else [];
    Results.AttributeResult(attr.name.local, versions, if reasons == [] then Results.Pass else Results.Fail, reasons)
  }

  /**
   * A present attribute fails exactly when the node is unknown, the attribute is not declared,
   * the declaration does not cover the version, or the value is blank where blank values are
   * not allowed; each failing check contributes one reason, and a declared attribute's result
   * carries the declared versions.
   */
  lemma AttrResultFails(attr: Parser.Attr, version: Catalog.Version, spec: Option<Catalog.NodeSpec>)
    ensures var r := AttrResult(attr, version, spec);
      var name := attr.name.local;
      && (r.status == Results.Fail <==>
            || spec.None?
            || name !in spec.value.attributes
            || !spec.value.attributes[name].Supports(version)
            || (Str.Blank(attr.value) && !spec.value.attributes[name].allowEmpty))
      && (spec.Some? && name in spec.value.attributes ==>
            && r.versionSupport == spec.value.attributes[name].versions
            && |r.reasons| == (if spec.value.attributes[name].Supports(version) then 0 else 1)
                              + (if Str.Blank(attr.value) && !spec.value.attributes[name].allowEmpty then 1 else 0))
      && (forall i | 0 <= i < |r.reasons| :: r.reasons[i] != "")
  {
    var name := attr.name.local;
    if spec.Some? && name in spec.value.attributes {
      DeclaredAttrResult(attr, version, spec.value, spec.value.attributes[name]);
      assert Str.TrimSpace(attr.value) == "" <==> Str.Blank(attr.value);
    } else if spec.Some? {
      assert AttrReasons(attr, version, spec) == ["attribute " + name + " is not allowed on " + spec.value.name];
    } else {
      assert AttrReasons(attr, version, spec) == ["node is not recognized; attribute cannot be validated"];
    }
  }

  /** The bucket failed with the reasons given, if there are any. */
  function FailWith(a: Results.Analysis, reasons: seq<string>): Results.Analysis {
    if reasons == [] then a else Results.MarkFailure(a, reasons)
  }

  /** One result recorded: appended to the bucket, its reasons, if any, failing the bucket. */
  function RecordResult(a: Results.Analysis, result: Results.AttributeResult): Results.Analysis {
    FailWith(Results.AddAttribute(a, result), result.reasons)
  }

  /** Results recorded in order. */
  function RecordResults(a: Results.Analysis, results: seq<Results.AttributeResult>): Results.Analysis
    decreases |results|
  {
    if results == [] then a else RecordResult(RecordResults(a, results[..|results| - 1]), results[|results| - 1])
  }

  /** The results of the present attributes, in document order. */
  function AttrResults(attrs: seq<Parser.Attr>, version: Catalog.Version, spec: Option<Catalog.NodeSpec>): seq<Results.AttributeResult> {
    MapSeq(attrs, AttrCheck(version, spec))
  }

  /** The check of one present attribute, for a given version and spec. */
  function AttrCheck(version: Catalog.Version, spec: Option<Catalog.NodeSpec>): Parser.Attr -> Results.AttributeResult {
    attr => AttrResult(attr, version, spec)
  }

  /** The function applied to each element, in order. */
  function MapSeq<A, B>(xs: seq<A>, f: A -> B): seq<B> {
    seq(|xs|, i requires 0 <= i < |xs| => f(xs[i]))
  }

  lemma MapSeqSnoc<A, B>(xs: seq<A>, i: nat, f: A -> B)
    requires i < |xs|
    ensures MapSeq(xs[..i + 1], f) == MapSeq(xs[..i], f) + [f(xs[i])]
  {
    var before := MapSeq(xs[..i], f);
    var after := MapSeq(xs[..i + 1], f);
    forall j | 0 <= j < i ensures after[j] == before[j] {
      assert xs[..i + 1][j] == xs[..i][j];
    }
  }

  /** The present attributes checked in document order. */
  function CheckAttrs(a: Results.Analysis, attrs: seq<Parser.Attr>, version: Catalog.Version, spec: Option<Catalog.NodeSpec>): Results.Analysis {
    RecordResults(a, AttrResults(attrs, version, spec))
  }

  /** The local names of the attributes present. */
  function SeenNames(attrs: seq<Parser.Attr>): set<string>
    decreases |attrs|
  {
    if attrs == [] then {} else SeenNames(attrs[..|attrs| - 1]) + {attrs[|attrs| - 1].name.local}
  }

  lemma {:induction false} SeenNamesPresent(attrs: seq<Parser.Attr>)
    ensures forall n :: n in SeenNames(attrs) <==> exists i | 0 <= i < |attrs| :: attrs[i].name.local == n
    decreases |attrs|
  {
    if attrs != [] {
      var prefix := attrs[..|attrs| - 1];
      SeenNamesPresent(prefix);
      assert forall i | 0 <= i < |prefix| :: prefix[i] == attrs[i];
    }
  }

  /** A declared attribute that is required and whose name is absent from the node. */
  predicate IsMissing(spec: Catalog.NodeSpec, seen: set<string>, key: string) {
    key in spec.attributes && spec.attributes[key].required && spec.attributes[key].name !in seen
  }

  function MissingKeys(spec: Catalog.NodeSpec, seen: set<string>): set<string> {
    set k | k in spec.attributes && IsMissing(spec, seen, k)
  }

  /** The result recorded for a required attribute that is absent. */
  function MissingResult(attrSpec: Catalog.AttributeSpec): Results.AttributeResult {
    Results.AttributeResult(attrSpec.name, attrSpec.versions, Results.Fail, ["missing required attribute " + attrSpec.name])
  }

  /** One declared attribute visited: a failing result when it is required and absent. */
  function VisitDeclared(a: Results.Analysis, spec: Catalog.NodeSpec, seen: set<string>, key: string): Results.Analysis {
    if IsMissing(spec, seen, key) then
      var result := MissingResult(spec.attributes[key]);
      Results.MarkFailure(Results.AddAttribute(a, result), result.reasons)
    else a
  }

  /** The declared attributes visited in the order given (Go's map order, which is unspecified). */
  function VisitAllDeclared(a: Results.Analysis, spec: Catalog.NodeSpec, seen: set<string>, order: seq<string>): Results.Analysis
    decreases |order|
  {
    if order == [] then a else VisitDeclared(VisitAllDeclared(a, spec, seen, order[..|order| - 1]), spec, seen, order[|order| - 1])
  }

  /** A sequence that lists every key of the set once. */
  ghost predicate Enumerates(order: seq<string>, keys: set<string>) {
    (forall k :: k in order <==> k in keys) && (forall i, j | 0 <= i < j < |order| :: order[i] != order[j])
  }

  /** validateAttributes: the present attributes, then, for a known node, the missing required ones. */
  function AttributesChecked(a: Results.Analysis, node: Parser.Node, version: Catalog.Version,
                             spec: Option<Catalog.NodeSpec>, order: seq<string>): Results.Analysis {
    var present := CheckAttrs(a, node.attrs, version, spec);
    if spec.None? then present else VisitAllDeclared(present, spec.value, SeenNames(node.attrs), order)
  }

  /** A result that fails exactly when it has reasons, none of them empty. */
  predicate Coherent(result: Results.AttributeResult) {
    && result.status == (if result.reasons == [] then Results.Pass else Results.Fail)
    && forall i | 0 <= i < |result.reasons| :: result.reasons[i] != ""
  }

  /** Recording results appends them to the bucket, in order. */
  lemma {:induction false} RecordResultsAppends(a: Results.Analysis, results: seq<Results.AttributeResult>)
    ensures var r := RecordResults(a, results);
      r.category == a.category && r.attributes == a.attributes + results
    decreases |results|
  {
    if results != [] {
      var n := |results| - 1;
      var prefix := results[..n];
      RecordResultsAppends(a, prefix);
      assert results == prefix + [results[n]];
    }
  }

  /**
   * Recording coherent results fails the bucket exactly when it had failed or one of them
   * fails, with their reasons appended in order; otherwise the bucket keeps its status and reasons.
   */
  lemma {:induction false} RecordResultsStatus(a: Results.Analysis, results: seq<Results.AttributeResult>)
    requires forall i | 0 <= i < |results| :: Coherent(results[i])
    ensures var r := RecordResults(a, results);
      && (r.status == Results.Fail <==> a.status == Results.Fail || exists i | 0 <= i < |results| :: results[i].status == Results.Fail)
      && (r.status != Results.Fail ==> r.status == a.status && r.reasons == a.reasons)
    decreases |results|
  {
    if results != [] {
      var n := |results| - 1;
      var prefix := results[..n];
      assert forall i | 0 <= i < n :: prefix[i] == results[i];
      RecordResultsStatus(a, prefix);
    }
  }

  lemma AttrResultCoherent(attr: Parser.Attr, version: Catalog.Version, spec: Option<Catalog.NodeSpec>)
    ensures Coherent(AttrResult(attr, version, spec))
  {
    AttrResultFails(attr, version, spec);
  }

  /**
   * The present attributes yield one result each, in document order and duplicates included,
   * after the results already in the bucket.
   */
  lemma PresentAttributesRecorded(a: Results.Analysis, attrs: seq<Parser.Attr>, version: Catalog.Version,
                                  spec: Option<Catalog.NodeSpec>)
    ensures var r := CheckAttrs(a, attrs, version, spec);
      && r.category == a.category
      && |r.attributes| == |a.attributes| + |attrs|
      && r.attributes[..|a.attributes|] == a.attributes
      && (forall i | 0 <= i < |attrs| :: r.attributes[|a.attributes| + i] == AttrResult(attrs[i], version, spec))
  {
    RecordResultsAppends(a, AttrResults(attrs, version, spec));
  }

  /**
   * Checking the present attributes fails the bucket exactly when it had failed or the result
   * of one of them fails, and otherwise keeps its status and reasons.
   */
  lemma PresentAttributesStatus(a: Results.Analysis, attrs: seq<Parser.Attr>, version: Catalog.Version,
                                spec: Option<Catalog.NodeSpec>)
    ensures var r := CheckAttrs(a, attrs, version, spec);
      && (r.status == Results.Fail <==>
            a.status == Results.Fail || exists i | 0 <= i < |attrs| :: AttrResult(attrs[i], version, spec).status == Results.Fail)
      && (r.status != Results.Fail ==> r.status == a.status && r.reasons == a.reasons)
  {
    var results := AttrResults(attrs, version, spec);
    forall i | 0 <= i < |results|
      ensures Coherent(results[i])
    {
      AttrResultCoherent(attrs[i], version, spec);
    }
    RecordResultsStatus(a, results);
    if i :| 0 <= i < |attrs| && AttrResult(attrs[i], version, spec).status == Results.Fail {
      assert results[i].status == Results.Fail;
    }
  }

  /** The keys of the order that name missing attributes, in the same order. */
  function MissingInOrder(spec: Catalog.NodeSpec, seen: set<string>, order: seq<string>): seq<string>
    decreases |order|
  {
    if order == [] then []
    else
      var last := order[|order| - 1];
      MissingInOrder(spec, seen, order[..|order| - 1]) + (if IsMissing(spec, seen, last) then [last] else [])
  }

  /** Visiting the declared attributes appends the results for the missing ones, in the order visited. */
  lemma {:induction false} DeclaredVisitAppends(a: Results.Analysis, spec: Catalog.NodeSpec, seen: set<string>, order: seq<string>)
    ensures var r := VisitAllDeclared(a, spec, seen, order);
      var m := MissingInOrder(spec, seen, order);
      && r.category == a.category
      && |r.attributes| == |a.attributes| + |m|
      && r.attributes[..|a.attributes|] == a.attributes
      && (forall i | 0 <= i < |m| :: m[i] in spec.attributes && r.attributes[|a.attributes| + i] == MissingResult(spec.attributes[m[i]]))
      && (r.status == Results.Fail <==> a.status == Results.Fail || m != [])
      && (m == [] ==> r == a)
    decreases |order|
  {
    if order != [] {
      var prefix := order[..|order| - 1];
      DeclaredVisitAppends(a, spec, seen, prefix);
    }
  }

  /** Filtering a sequence that lists keys once lists the missing keys once. */
  lemma {:induction false} MissingInOrderDistinct(spec: Catalog.NodeSpec, seen: set<string>, order: seq<string>)
    requires forall i, j | 0 <= i < j < |order| :: order[i] != order[j]
    ensures var m := MissingInOrder(spec, seen, order);
      && (forall k :: k in m <==> k in order && IsMissing(spec, seen, k))
      && (forall i, j | 0 <= i < j < |m| :: m[i] != m[j])
    decreases |order|
  {
    if order != [] {
      var prefix := order[..|order| - 1];
      assert forall i | 0 <= i < |prefix| :: prefix[i] == order[i];
      MissingInOrderDistinct(spec, seen, prefix);
      assert order == prefix + [order[|order| - 1]];
    }
  }

  /** A sequence listing every key of a set once is as long as the set is large. */
  lemma {:induction false} EnumerationLength(order: seq<string>, keys: set<string>)
    requires Enumerates(order, keys)
    ensures |order| == |keys|
    decreases |order|
  {
    if order != [] {
      var last := order[|order| - 1];
      var prefix := order[..|order| - 1];
      assert order == prefix + [last];
      assert Enumerates(prefix, keys - {last});
      EnumerationLength(prefix, keys - {last});
    }
  }

  /**
   * For a known node, whatever order the declared attributes are visited in, one result is
   * appended for each declared attribute that is required and whose name is absent; the bucket
   * fails if any is missing, and is left as it was if none is.
   */
  lemma MissingRequiredCounted(a: Results.Analysis, spec: Catalog.NodeSpec, seen: set<string>, order: seq<string>)
    requires Enumerates(order, spec.attributes.Keys)
    ensures var r := VisitAllDeclared(a, spec, seen, order);
      var missing := MissingKeys(spec, seen);
      && |r.attributes| == |a.attributes| + |missing|
      && r.attributes[..|a.attributes|] == a.attributes
      && (r.status == Results.Fail <==> a.status == Results.Fail || missing != {})
      && (missing == {} ==> r == a)
  {
    var m := MissingInOrder(spec, seen, order);
    var missing := MissingKeys(spec, seen);
    DeclaredVisitAppends(a, spec, seen, order);
    MissingInOrderDistinct(spec, seen, order);
    assert Enumerates(m, missing);
    EnumerationLength(m, missing);
  }

  /**
   * The appended results are exactly the failing "missing required attribute" results of the
   * missing declared attributes: each missing one has its result, and each result is one of them.
   */
  lemma MissingRequiredReported(a: Results.Analysis, spec: Catalog.NodeSpec, seen: set<string>, order: seq<string>)
    requires Enumerates(order, spec.attributes.Keys)
    ensures var r := VisitAllDeclared(a, spec, seen, order);
      var missing := MissingKeys(spec, seen);
      && |a.attributes| <= |r.attributes|
      && (forall k | k in missing :: MissingResult(spec.attributes[k]) in r.attributes[|a.attributes|..])
      && (forall i | |a.attributes| <= i < |r.attributes| ::
            exists k | k in missing :: r.attributes[i] == MissingResult(spec.attributes[k]))
  {
    var r := VisitAllDeclared(a, spec, seen, order);
    var m := MissingInOrder(spec, seen, order);
    var missing := MissingKeys(spec, seen);
    DeclaredVisitAppends(a, spec, seen, order);
    MissingInOrderDistinct(spec, seen, order);
    var n := |a.attributes|;
    forall k | k in missing
      ensures MissingResult(spec.attributes[k]) in r.attributes[n..]
    {
      var i :| 0 <= i < |m| && m[i] == k;
      assert r.attributes[n..][i] == r.attributes[n + i];
    }
    forall i | n <= i < |r.attributes|
      ensures exists k | k in missing :: r.attributes[i] == MissingResult(spec.attributes[k])
    {
      assert m[i - n] in missing;
    }
  }

  lemma PresentPrefixStep(a: Results.Analysis, attrs: seq<Parser.Attr>, i: nat, version: Catalog.Version, spec: Option<Catalog.NodeSpec>)
    requires i < |attrs|
    ensures SeenNames(attrs[..i + 1]) == SeenNames(attrs[..i]) + {attrs[i].name.local}
    ensures CheckAttrs(a, attrs[..i + 1], version, spec) == RecordResult(CheckAttrs(a, attrs[..i], version, spec), AttrResult(attrs[i], version, spec))
  {
    assert attrs[..i + 1][..i] == attrs[..i];
    MapSeqSnoc(attrs, i, AttrCheck(version, spec));
    RecordResultsSnoc(a, AttrResults(attrs[..i], version, spec), AttrResult(attrs[i], version, spec));
  }

  lemma RecordResultsSnoc(a: Results.Analysis, results: seq<Results.AttributeResult>, result: Results.AttributeResult)
    ensures RecordResults(a, results + [result]) == RecordResult(RecordResults(a, results), result)
  {
    assert (results + [result])[..|results|] == results;
  }

  /** On an unknown node every present attribute fails with one reason. */
  lemma UnknownNodeAttribute(before: Results.Analysis, attr: Parser.Attr, version: Catalog.Version)
    ensures var msg := "node is not recognized; attribute cannot be validated";
      Results.MarkFailure(Results.AddAttribute(before, Results.AttributeResult(attr.name.local, [], Results.Fail, [msg])), [msg])
        == RecordResult(before, AttrResult(attr, version, None))
  {
  }

  /** An attribute the node's spec does not declare fails with one reason. */
  lemma UndeclaredAttribute(before: Results.Analysis, attr: Parser.Attr, version: Catalog.Version, spec: Catalog.NodeSpec)
    requires Catalog.Attribute(Some(spec), attr.name.local).None?
    ensures var msg := "attribute " + attr.name.local + " is not allowed on " + spec.name;
      Results.MarkFailure(Results.AddAttribute(before, Results.AttributeResult(attr.name.local, [], Results.Fail, [msg])), [msg])
        == RecordResult(before, AttrResult(attr, version, Some(spec)))
  {
  }

  /** Failing a bucket with one more reason is failing it with the longer list. */
  lemma FailWithMore(a: Results.Analysis, reasons: seq<string>, msg: string)
    requires msg != ""
    ensures Results.MarkFailure(FailWith(a, reasons), [msg]) == FailWith(a, reasons + [msg])
  {
    if reasons == [] {
      assert reasons + [msg] == [msg];
    } else {
      Results.MarkFailureTwice(a, reasons, [msg]);
    }
  }

  /** Appending a result and failing the bucket do not interfere. */
  lemma FailWithAdd(a: Results.Analysis, reasons: seq<string>, result: Results.AttributeResult)
    ensures Results.AddAttribute(FailWith(a, reasons), result) == FailWith(Results.AddAttribute(a, result), reasons)
  {
  }

  /**
   * The result of a declared attribute: its versions, and one reason for each failed check, in
   * the order the checks are made.
   */
  lemma DeclaredAttrResult(attr: Parser.Attr, version: Catalog.Version, spec: Catalog.NodeSpec, attrSpec: Catalog.AttributeSpec)
    requires Catalog.Attribute(Some(spec), attr.name.local) == Some(attrSpec)
    ensures var name := attr.name.local;
      var afterVersion: seq<string> := if !attrSpec.Supports(version) then [] + ["attribute " + name + " is not supported in VAST " + version] else [];
      var reasons := if Str.TrimSpace(attr.value) == "" && !attrSpec.allowEmpty then afterVersion + ["attribute " + name + " cannot be empty"] else afterVersion;
      && AttrResult(attr, version, Some(spec)).reasons == reasons
      && AttrResult(attr, version, Some(spec)) ==
           Results.AttributeResult(name, attrSpec.versions, if reasons == [] then Results.Pass else Results.Fail, reasons)
  {
    var name := attr.name.local;
    var m1 := "attribute " + name + " is not supported in VAST " + version;
    assert [] + [m1] == [m1];
  }

  /** The body of validateAttributes' loop over the present attributes, for one attribute. */
  method CheckPresentAttribute(r0: Results.Analysis, attr: Parser.Attr, version: Catalog.Version, spec: Option<Catalog.NodeSpec>)
    returns (r: Results.Analysis)
    ensures r == RecordResult(r0, AttrResult(attr, version, spec))
  {
    r := r0;
    var attrName := attr.name.local;
    var attributeResult := Results.AttributeResult(attrName, [], Results.Pass, []);
    if spec.None? {
      var msg := "node is not recognized; attribute cannot be validated";
      attributeResult := attributeResult.(status := Results.Fail, reasons := attributeResult.reasons + [msg]);
      assert attributeResult == Results.AttributeResult(attrName, [], Results.Fail, [msg]);
      r := Results.AddAttribute(r, attributeResult);
      r := Results.MarkFailure(r, [msg]);
      UnknownNodeAttribute(r0, attr, version);
      return;
    }
    var found := Catalog.Attribute(spec, attrName);
    if found.None? {
      var msg := "attribute " + attrName + " is not allowed on " + spec.value.name;
      attributeResult := attributeResult.(status := Results.Fail, reasons := attributeResult.reasons + [msg]);
      assert attributeResult == Results.AttributeResult(attrName, [], Results.Fail, [msg]);
      r := Results.AddAttribute(r, attributeResult);
      r := Results.MarkFailure(r, [msg]);
      UndeclaredAttribute(r0, attr, version, spec.value);
      return;
    }
    var attrSpec := found.value;
    attributeResult := attributeResult.(versionSupport := attrSpec.versions);
    if !attrSpec.Supports(version) {
      var msg := "attribute " + attrName + " is not supported in VAST " + version;
      FailWithMore(r0, attributeResult.reasons, msg);
      attributeResult := attributeResult.(status := Results.Fail, reasons := attributeResult.reasons + [msg]);
      r := Results.MarkFailure(r, [msg]);
    }
    assert r == FailWith(r0, attributeResult.reasons);
    var value := Str.TrimSpace(attr.value);
    if value == "" && !attrSpec.allowEmpty {
      var msg := "attribute " + attrName + " cannot be empty";
      FailWithMore(r0, attributeResult.reasons, msg);
      attributeResult := attributeResult.(status := Results.Fail, reasons := attributeResult.reasons + [msg]);
      r := Results.MarkFailure(r, [msg]);
    }
    FailWithAdd(r0, attributeResult.reasons, attributeResult);
    r := Results.AddAttribute(r, attributeResult);
    DeclaredAttrResult(attr, version, spec.value, attrSpec);
    assert attributeResult == AttrResult(attr, version, spec);
  }

  /** The loop of validateAttributes over the declared attributes, in an order it picks. */
  method ReportMissingRequired(present: Results.Analysis, spec: Catalog.NodeSpec, seen: set<string>)
    returns (r: Results.Analysis, ghost order: seq<string>)
    ensures Enumerates(order, spec.attributes.Keys)
    ensures r == VisitAllDeclared(present, spec, seen, order)
  {
    r := present;
    order := [];
    var declared := spec.attributes;
    var pending := declared.Keys;
    while pending != {}
      invariant pending <= declared.Keys
      invariant forall k :: k in order <==> k in declared && k !in pending
      invariant forall a, b | 0 <= a < b < |order| :: order[a] != order[b]
      invariant r == VisitAllDeclared(present, spec, seen, order)
      decreases pending
    {
      var key :| key in pending;
      var attrSpec := declared[key];
      assert key !in order;
      ghost var visited := order;
      order := order + [key];
      pending := pending - {key};
      if attrSpec.required && attrSpec.name !in seen {
        var msg := "missing required attribute " + attrSpec.name;
        r := Results.AddAttribute(r, Results.AttributeResult(attrSpec.name, attrSpec.versions, Results.Fail, [msg]));
        r := Results.MarkFailure(r, [msg]);
      }
      assert order[..|order| - 1] == visited;
    }
  }

  /**
   * validateAttributes: each present attribute gets a result and fails the bucket with its
   * reasons; for a known node each declared attribute is then visited in an order the method
   * picks (Go's map iteration order), recorded in `order`.
   */
  method ValidateAttributes(node: Parser.Node, version: Catalog.Version, spec: Option<Catalog.NodeSpec>, analysis: Results.Analysis)
    returns (r: Results.Analysis, ghost order: seq<string>)
    ensures spec.Some? ==> Enumerates(order, spec.value.attributes.Keys)
    ensures r == AttributesChecked(analysis, node, version, spec, order)
  {
    var seen;
    r, seen := CheckPresentAttributes(node.attrs, version, spec, analysis);
    order := [];
    if spec.None? {
      return;
    }
    r, order := ReportMissingRequired(r, spec.value, seen);
  }

  /** The first loop of validateAttributes: each present attribute in document order, collecting the names seen. */
  method CheckPresentAttributes(attrs: seq<Parser.Attr>, version: Catalog.Version, spec: Option<Catalog.NodeSpec>,
                                analysis: Results.Analysis)
    returns (r: Results.Analysis, seen: set<string>)
    ensures r == CheckAttrs(analysis, attrs, version, spec)
    ensures seen == SeenNames(attrs)
  {
    seen := {};
    r := analysis;
    var i := 0;
    while i < |attrs|
      invariant 0 <= i <= |attrs|
      invariant seen == SeenNames(attrs[..i])
      invariant r == CheckAttrs(analysis, attrs[..i], version, spec)
    {
      var attr := attrs[i];
      seen := seen + {attr.name.local};
      r := CheckPresentAttribute(r, attr, version, spec);
      PresentPrefixStep(analysis, attrs, i, version, spec);
      i := i + 1;
    }
    assert attrs[..i] == attrs;
  }

  // ----- Hooks -----

  /** A bucket a hook returns without a category is filed under "custom.analysis"; nothing else changes. */
  function Categorized(a: Results.Analysis): (r: Results.Analysis)
    ensures r.category != "" && r.(category := a.category) == a
    ensures a.category != "" ==> r == a
  {
    if a.category == "" then a.(category := Results.CustomAnalysisCategory) else a
  }

  /** applyCustomValidators: each hook's bucket, if it returns one, merged in registration order. */
  function ApplyCustom(analyses: map<string, Results.Analysis>, ctx: Hooks.NodeContext, hooks: seq<Hooks.CustomHook>): map<string, Results.Analysis>
    decreases |hooks|
  {
    if hooks == [] then analyses
    else
      var before := ApplyCustom(analyses, ctx, hooks[..|hooks| - 1]);
      var out := hooks[|hooks| - 1](ctx);
      if out.None? then before else Results.Merge(before, Categorized(out.value))
  }

  /**
   * What one HTTP hook contributes: its bucket, or, when it reports an error, a failing
   * "custom.analysis" bucket carrying the error text in place of whatever bucket it returned.
   */
  function HttpBucket(out: Hooks.HttpOutcome): (r: Option<Results.Analysis>)
    ensures out.err.Some? ==> r == Some(Results.Analysis(Results.CustomAnalysisCategory, Results.Fail, Results.NonEmpty([out.err.value]), []))
    ensures out.err.None? ==> (r.Some? <==> out.analysis.Some?)
    ensures out.err.None? && out.analysis.Some? ==> r.value.(category := out.analysis.value.category) == out.analysis.value
  {
    var analysis :=
      if out.err.Some? then Some(Results.MarkFailure(Results.Analysis(Results.CustomAnalysisCategory, Results.Unset, [], []), [out.err.value]))
      else out.analysis;
    if analysis.None? then None else Some(Categorized(analysis.value))
  }

  /** applyHTTPValidators: each hook's contribution, if any, merged in registration order. */
  function ApplyHttp(analyses: map<string, Results.Analysis>, ctx: Hooks.NodeContext, hooks: seq<Hooks.HttpHook>,
                     probe: Hooks.Probe): map<string, Results.Analysis>
    decreases |hooks|
  {
    if hooks == [] then analyses
    else
      var before := ApplyHttp(analyses, ctx, hooks[..|hooks| - 1], probe);
      var out := HttpBucket(hooks[|hooks| - 1](ctx, probe));
      if out.None? then before else Results.Merge(before, out.value)
  }

  /**
   * A later state of a bucket: same category; a failing bucket still fails; reasons and
   * attribute results only grow at the end.
   */
  predicate Keeps(before: Results.Analysis, after: Results.Analysis) {
    && after.category == before.category
    && (before.status == Results.Fail ==> after.status == Results.Fail)
    && |before.reasons| <= |after.reasons| && after.reasons[..|before.reasons|] == before.reasons
    && |before.attributes| <= |after.attributes| && after.attributes[..|before.attributes|] == before.attributes
  }

  /** Every bucket of the first map is still in the second, in a later state. */
  ghost predicate Extends(before: map<string, Results.Analysis>, after: map<string, Results.Analysis>) {
    forall c | c in before :: c in after && Keeps(before[c], after[c])
  }

  lemma MergeExtends(analyses: map<string, Results.Analysis>, incoming: Results.Analysis)
    requires forall c | c in analyses :: analyses[c].category == c
    ensures Extends(analyses, Results.Merge(analyses, incoming))
    ensures forall c | c in Results.Merge(analyses, incoming) :: Results.Merge(analyses, incoming)[c].category == c
  {
    Results.MergeMonotone(analyses, incoming);
    var c := incoming.category;
    if c in analyses {
      var before := analyses[c];
      var after := Results.Merge(analyses, incoming)[c];
      assert after.attributes[..|before.attributes|] == before.attributes;
      if incoming.status == Results.Fail {
        assert after.reasons[..|before.reasons|] == before.reasons;
      }
    }
  }

  lemma ExtendsTransitive(a: map<string, Results.Analysis>, b: map<string, Results.Analysis>, c: map<string, Results.Analysis>)
    requires Extends(a, b) && Extends(b, c)
    ensures Extends(a, c)
  {
    forall k | k in a
      ensures k in c && Keeps(a[k], c[k])
    {
      var x, y, z := a[k], b[k], c[k];
      assert z.reasons[..|x.reasons|] == z.reasons[..|y.reasons|][..|x.reasons|];
      assert z.attributes[..|x.attributes|] == z.attributes[..|y.attributes|][..|x.attributes|];
    }
  }

  lemma ExtendsReflexive(a: map<string, Results.Analysis>)
    ensures Extends(a, a)
  {
    forall k | k in a
      ensures Keeps(a[k], a[k])
    {
      assert a[k].reasons[..|a[k].reasons|] == a[k].reasons;
      assert a[k].attributes[..|a[k].attributes|] == a[k].attributes;
    }
  }

  /**
   * Custom hooks never remove a bucket, never clear a failure, and never drop reasons or
   * attribute results already recorded; every bucket stays filed under its own category.
   */
  lemma {:induction false} CustomHooksExtend(analyses: map<string, Results.Analysis>, ctx: Hooks.NodeContext, hooks: seq<Hooks.CustomHook>)
    requires forall c | c in analyses :: analyses[c].category == c
    ensures Extends(analyses, ApplyCustom(analyses, ctx, hooks))
    ensures forall c | c in ApplyCustom(analyses, ctx, hooks) :: ApplyCustom(analyses, ctx, hooks)[c].category == c
    decreases |hooks|
  {
    if hooks == [] {
      ExtendsReflexive(analyses);
    } else {
      var before := ApplyCustom(analyses, ctx, hooks[..|hooks| - 1]);
      CustomHooksExtend(analyses, ctx, hooks[..|hooks| - 1]);
      var out := hooks[|hooks| - 1](ctx);
      if out.Some? {
        MergeExtends(before, Categorized(out.value));
        ExtendsTransitive(analyses, before, ApplyCustom(analyses, ctx, hooks));
      }
    }
  }

  /** The same for HTTP hooks, whose errors only ever add failures. */
  lemma {:induction false} HttpHooksExtend(analyses: map<string, Results.Analysis>, ctx: Hooks.NodeContext, hooks: seq<Hooks.HttpHook>,
                                           probe: Hooks.Probe)
    requires forall c | c in analyses :: analyses[c].category == c
    ensures Extends(analyses, ApplyHttp(analyses, ctx, hooks, probe))
    ensures forall c | c in ApplyHttp(analyses, ctx, hooks, probe) :: ApplyHttp(analyses, ctx, hooks, probe)[c].category == c
    decreases |hooks|
  {
    if hooks == [] {
      ExtendsReflexive(analyses);
    } else {
      var before := ApplyHttp(analyses, ctx, hooks[..|hooks| - 1], probe);
      HttpHooksExtend(analyses, ctx, hooks[..|hooks| - 1], probe);
      var out := HttpBucket(hooks[|hooks| - 1](ctx, probe));
      if out.Some? {
        MergeExtends(before, out.value);
        ExtendsTransitive(analyses, before, ApplyHttp(analyses, ctx, hooks, probe));
      }
    }
  }

  /** An HTTP hook that reports an error leaves "custom.analysis" failing, with the error text among its reasons. */
  lemma HttpErrorFails(analyses: map<string, Results.Analysis>, ctx: Hooks.NodeContext, hooks: seq<Hooks.HttpHook>, probe: Hooks.Probe)
    requires hooks != [] && hooks[|hooks| - 1](ctx, probe).err.Some?
    ensures var r := ApplyHttp(analyses, ctx, hooks, probe);
      var err := hooks[|hooks| - 1](ctx, probe).err.value;
      && Results.CustomAnalysisCategory in r
      && r[Results.CustomAnalysisCategory].status == Results.Fail
      && (err != "" ==> err in r[Results.CustomAnalysisCategory].reasons)
  {
    var before := ApplyHttp(analyses, ctx, hooks[..|hooks| - 1], probe);
    var err := hooks[|hooks| - 1](ctx, probe).err.value;
    var incoming := HttpBucket(hooks[|hooks| - 1](ctx, probe)).value;
    Results.MergeMonotone(before, incoming);
    if err != "" {
      assert err in Results.NonEmpty([err]);
    }
  }

  /** The loop of applyCustomValidators. */
  method ApplyCustomValidators(analyses: map<string, Results.Analysis>, ctx: Hooks.NodeContext, hooks: seq<Hooks.CustomHook>)
    returns (r: map<string, Results.Analysis>)
    ensures r == ApplyCustom(analyses, ctx, hooks)
  {
    r := analyses;
    var i := 0;
    while i < |hooks|
      invariant 0 <= i <= |hooks|
      invariant r == ApplyCustom(analyses, ctx, hooks[..i])
    {
      assert hooks[..i + 1][..i] == hooks[..i];
      var analysis := hooks[i](ctx);
      if analysis.Some? {
        var incoming := analysis.value;
        if incoming.category == "" {
          incoming := incoming.(category := Results.CustomAnalysisCategory);
        }
        r := Results.Merge(r, incoming);
      }
      i := i + 1;
    }
    assert hooks[..i] == hooks;
  }

  /** The loop of applyHTTPValidators, which returns at once when no hook is registered. */
  method ApplyHTTPValidators(analyses: map<string, Results.Analysis>, ctx: Hooks.NodeContext, hooks: seq<Hooks.HttpHook>,
                             probe: Hooks.Probe)
    returns (r: map<string, Results.Analysis>)
    ensures r == ApplyHttp(analyses, ctx, hooks, probe)
  {
    r := analyses;
    if |hooks| == 0 {
      return;
    }
    var i := 0;
    while i < |hooks|
      invariant 0 <= i <= |hooks|
      invariant r == ApplyHttp(analyses, ctx, hooks[..i], probe)
    {
      assert hooks[..i + 1][..i] == hooks[..i];
      var out := hooks[i](ctx, probe);
      var analysis := out.analysis;
      if out.err.Some? {
        analysis := Some(Results.MarkFailure(Results.Analysis(Results.CustomAnalysisCategory, Results.Unset, [], []), [out.err.value]));
      }
      if analysis.Some? {
        var incoming := analysis.value;
        if incoming.category == "" {
          incoming := incoming.(category := Results.CustomAnalysisCategory);
        }
        r := Results.Merge(r, incoming);
      }
      i := i + 1;
    }
    assert hooks[..i] == hooks;
  }

  // ----- The recursive walk -----

  /**
   * What the walk is given besides the node: the catalog, the document's version, which hooks
   * run, the two registries as they stand, and the network the HTTP hooks see.
   */
  datatype Env = Env(catalog: Catalog.Catalog, version: Catalog.Version, runCustom: bool, runHTTP: bool,
                     customHooks: map<string, seq<Hooks.CustomHook>>, httpHooks: map<string, seq<Hooks.HttpHook>>,
                     probe: Hooks.Probe)

  /** The orders the walk visits declared attributes in, one per node, shaped like the document. */
  datatype OrderTree = OrderTree(order: seq<string>, children: seq<OrderTree>)

  /** The order tree of the i-th child, if the list has one. */
  function OrderAt(orders: seq<OrderTree>, i: nat): OrderTree {
    if i < |orders| then orders[i] else OrderTree([], [])
  }

  /** A child's spec is looked up in the catalog by its local name, wherever it sits. */
  function ChildSpec(env: Env, child: Parser.Node): Option<Catalog.NodeSpec> {
    Catalog.Node(Some(env.catalog), child.LocalName())
  }

  /** Unknown children are allowed below a node that allows them, or whose spec allows them. */
  function ChildAllows(spec: Option<Catalog.NodeSpec>, allowUnknown: bool): bool {
    allowUnknown || (spec.Some? && spec.value.allowUnknownChildren)
  }

  /** The "iab.analysis" bucket: the structural checks, then the attribute checks unless unknown nodes are allowed here. */
  function NodeBucket(env: Env, node: Parser.Node, spec: Option<Catalog.NodeSpec>, parentSpec: Option<Catalog.NodeSpec>,
                      allowUnknown: bool, order: seq<string>): Results.Analysis {
    var structural := StructuralBucket(node.LocalName(), env.version, spec, parentSpec, allowUnknown);
    if allowUnknown then structural else AttributesChecked(structural, node, env.version, spec, order)
  }

  /** A node's buckets: its "iab.analysis" bucket, then what the enabled hooks registered for its name add. */
  function NodeAnalyses(env: Env, node: Parser.Node, spec: Option<Catalog.NodeSpec>, parentSpec: Option<Catalog.NodeSpec>,
                        allowUnknown: bool, order: seq<string>): map<string, Results.Analysis> {
    var ctx := Hooks.NodeContext(Some(node), env.version);
    var own := map[Results.IABAnalysisCategory := NodeBucket(env, node, spec, parentSpec, allowUnknown, order)];
    var afterCustom := if env.runCustom then ApplyCustom(own, ctx, Hooks.Lookup(env.customHooks, node.LocalName())) else own;
    if env.runHTTP then ApplyHttp(afterCustom, ctx, Hooks.Lookup(env.httpHooks, node.LocalName()), env.probe) else afterCustom
  }

  /** validateNodeRecursive: the result of a node and, in document order, of its children. */
  function Validated(env: Env, node: Parser.Node, spec: Option<Catalog.NodeSpec>, parentSpec: Option<Catalog.NodeSpec>,
                     allowUnknown: bool, orders: OrderTree): Results.NodeResult
    decreases node, 1
  {
    Results.NodeResult(
      node.LocalName(),
      if spec.Some? then spec.value.versions else [],
      NodeAnalyses(env, node, spec, parentSpec, allowUnknown, orders.order),
      ValidatedChildren(env, node, spec, ChildAllows(spec, allowUnknown), orders.children, |node.children|))
  }

  /** The results of the first n children of a node, each under the node's spec. */
  function ValidatedChildren(env: Env, node: Parser.Node, spec: Option<Catalog.NodeSpec>, childAllows: bool,
                             orders: seq<OrderTree>, n: nat): (r: seq<Results.NodeResult>)
    requires n <= |node.children|
    ensures |r| == n
    decreases node, 0, n
  {
    if n == 0 then []
    else ValidatedChildren(env, node, spec, childAllows, orders, n - 1) + [ChildResult(env, node, spec, childAllows, orders, n - 1)]
  }

  /** The result of the i-th child, under the node's spec and with the i-th order. */
  function ChildResult(env: Env, node: Parser.Node, spec: Option<Catalog.NodeSpec>, childAllows: bool,
                       orders: seq<OrderTree>, i: nat): Results.NodeResult
    requires i < |node.children|
    decreases node, 0, i
  {
    var child := node.children[i];
    Validated(env, child, ChildSpec(env, child), spec, childAllows, OrderAt(orders, i))
  }

  /** The orders fit the document: each known node that checks attributes has an order listing its declared attributes once. */
  ghost predicate OrdersFit(env: Env, node: Parser.Node, spec: Option<Catalog.NodeSpec>, allowUnknown: bool, orders: OrderTree)
    decreases node, 1
  {
    && (!allowUnknown && spec.Some? ==> Enumerates(orders.order, spec.value.attributes.Keys))
    && |orders.children| == |node.children|
    && ChildOrdersFit(env, node, ChildAllows(spec, allowUnknown), orders.children, |node.children|)
  }

  /** The orders of the first n children fit them. */
  ghost predicate ChildOrdersFit(env: Env, node: Parser.Node, childAllows: bool, orders: seq<OrderTree>, n: nat)
    requires n <= |node.children|
    decreases node, 0, n
  {
    n == 0 ||
      (var child := node.children[n - 1];
       ChildOrdersFit(env, node, childAllows, orders, n - 1) && OrdersFit(env, child, ChildSpec(env, child), childAllows, OrderAt(orders, n - 1)))
  }

  /** The structural checks of validateNodeRecursive, on the fresh "iab.analysis" bucket. */
  method CheckStructure(name: string, version: Catalog.Version, spec: Option<Catalog.NodeSpec>, parentSpec: Option<Catalog.NodeSpec>,
                        allowUnknown: bool)
    returns (iab: Results.Analysis)
    ensures iab == StructuralBucket(name, version, spec, parentSpec, allowUnknown)
  {
    var added := Results.AddAnalysis(map[], Results.IABAnalysisCategory);
    iab := added.1;
    if spec.None? {
      if !allowUnknown {
        iab := Results.MarkFailure(iab, ["node " + name + " is not recognized in catalog"]);
      }
    } else {
      if !spec.value.Supports(version) {
        iab := Results.MarkFailure(iab, ["node " + name + " is not supported in VAST " + version]);
      }
      if parentSpec.Some? && !allowUnknown {
        var childSpec := Catalog.Child(parentSpec, name);
        if childSpec.None? {
          iab := Results.MarkFailure(iab, ["node " + name + " is not a valid child of " + parentSpec.value.name]);
        } else if !childSpec.value.Supports(version) {
          iab := Results.MarkFailure(iab, ["node " + name + " is not allowed for parent " + parentSpec.value.name + " in VAST " + version]);
        }
      }
    }
  }

  /** The buckets of one node, as validateNodeRecursive builds them before it visits the children. */
  method ValidateOwnBuckets(env: Env, node: Parser.Node, spec: Option<Catalog.NodeSpec>, parentSpec: Option<Catalog.NodeSpec>,
                            allowUnknown: bool)
    returns (analyses: map<string, Results.Analysis>, ghost order: seq<string>)
    ensures !allowUnknown && spec.Some? ==> Enumerates(order, spec.value.attributes.Keys)
    ensures analyses == NodeAnalyses(env, node, spec, parentSpec, allowUnknown, order)
  {
    var name := node.LocalName();
    var iab := CheckStructure(name, env.version, spec, parentSpec, allowUnknown);
    order := [];
    if !allowUnknown {
      iab, order := ValidateAttributes(node, env.version, spec, iab);
    }
    analyses := map[Results.IABAnalysisCategory := iab];
    var ctx := Hooks.NodeContext(Some(node), env.version);
    if env.runCustom {
      analyses := ApplyCustomValidators(analyses, ctx, Hooks.Lookup(env.customHooks, name));
    }
    if env.runHTTP {
      analyses := ApplyHTTPValidators(analyses, ctx, Hooks.Lookup(env.httpHooks, name), env.probe);
    }
  }

  /** Only the first n orders matter for the first n children's results. */
  lemma {:induction false} ChildrenIgnoreLaterOrders(env: Env, node: Parser.Node, spec: Option<Catalog.NodeSpec>, childAllows: bool,
                                                     orders: seq<OrderTree>, more: seq<OrderTree>, n: nat)
    requires n <= |node.children| && n <= |orders|
    ensures ValidatedChildren(env, node, spec, childAllows, orders + more, n) == ValidatedChildren(env, node, spec, childAllows, orders, n)
    decreases n
  {
    if n > 0 {
      ChildrenIgnoreLaterOrders(env, node, spec, childAllows, orders, more, n - 1);
      assert OrderAt(orders + more, n - 1) == OrderAt(orders, n - 1);
    }
  }

  /** Only the first n orders matter for whether they fit the first n children. */
  lemma {:induction false} FitIgnoresLaterOrders(env: Env, node: Parser.Node, childAllows: bool,
                                                 orders: seq<OrderTree>, more: seq<OrderTree>, n: nat)
    requires n <= |node.children| && n <= |orders|
    ensures ChildOrdersFit(env, node, childAllows, orders + more, n) == ChildOrdersFit(env, node, childAllows, orders, n)
    decreases n
  {
    if n > 0 {
      FitIgnoresLaterOrders(env, node, childAllows, orders, more, n - 1);
      assert OrderAt(orders + more, n - 1) == OrderAt(orders, n - 1);
    }
  }

  /** Appending the next child's result and order extends the children's results and fitting orders by one. */
  lemma ChildStep(env: Env, node: Parser.Node, spec: Option<Catalog.NodeSpec>, childAllows: bool,
                  children: seq<Results.NodeResult>, childOrders: seq<OrderTree>, childResult: Results.NodeResult, childOrder: OrderTree)
    requires |childOrders| < |node.children|
    requires ChildOrdersFit(env, node, childAllows, childOrders, |childOrders|)
    requires children == ValidatedChildren(env, node, spec, childAllows, childOrders, |childOrders|)
    requires var child := node.children[|childOrders|];
      OrdersFit(env, child, ChildSpec(env, child), childAllows, childOrder)
      && childResult == Validated(env, child, ChildSpec(env, child), spec, childAllows, childOrder)
    ensures ChildOrdersFit(env, node, childAllows, childOrders + [childOrder], |childOrders| + 1)
    ensures children + [childResult] == ValidatedChildren(env, node, spec, childAllows, childOrders + [childOrder], |childOrders| + 1)
  {
    var i := |childOrders|;
    ChildrenIgnoreLaterOrders(env, node, spec, childAllows, childOrders, [childOrder], i);
    FitIgnoresLaterOrders(env, node, childAllows, childOrders, [childOrder], i);
    assert OrderAt(childOrders + [childOrder], i) == childOrder;
  }

  /** The loop of validateNodeRecursive over the children, in document order. */
  method ValidateChildren(env: Env, node: Parser.Node, spec: Option<Catalog.NodeSpec>, childAllows: bool)
    returns (children: seq<Results.NodeResult>, ghost childOrders: seq<OrderTree>)
    ensures |childOrders| == |node.children|
    ensures ChildOrdersFit(env, node, childAllows, childOrders, |node.children|)
    ensures children == ValidatedChildren(env, node, spec, childAllows, childOrders, |node.children|)
    decreases node, 0
  {
    children := [];
    childOrders := [];
    var i := 0;
    while i < |node.children|
      invariant 0 <= i <= |node.children| && |childOrders| == i
      invariant ChildOrdersFit(env, node, childAllows, childOrders, i)
      invariant children == ValidatedChildren(env, node, spec, childAllows, childOrders, i)
    {
      var child := node.children[i];
      var childSpec := ChildSpec(env, child);
      var childResult;
      ghost var childOrder;
      childResult, childOrder := ValidateNode(env, child, childSpec, spec, childAllows);
      ChildStep(env, node, spec, childAllows, children, childOrders, childResult, childOrder);
      children := children + [childResult];
      childOrders := childOrders + [childOrder];
      i := i + 1;
    }
  }

  /** validateNodeRecursive, recording the order in which each node's declared attributes were visited. */
  method ValidateNode(env: Env, node: Parser.Node, spec: Option<Catalog.NodeSpec>, parentSpec: Option<Catalog.NodeSpec>,
                      allowUnknown: bool)
    returns (r: Results.NodeResult, ghost orders: OrderTree)
    ensures OrdersFit(env, node, spec, allowUnknown, orders)
    ensures r == Validated(env, node, spec, parentSpec, allowUnknown, orders)
    decreases node, 1
  {
    var name := node.LocalName();
    var versionSupport := if spec.Some? then spec.value.versions else [];
    var analyses;
    ghost var order;
    analyses, order := ValidateOwnBuckets(env, node, spec, parentSpec, allowUnknown);
    var childAllows := allowUnknown;
    if spec.Some? && spec.value.allowUnknownChildren {
      childAllows := true;
    }
    assert childAllows == ChildAllows(spec, allowUnknown);
    var children;
    ghost var childOrders;
    children, childOrders := ValidateChildren(env, node, spec, childAllows);
    r := Results.NodeResult(name, versionSupport, analyses, children);
    orders := OrderTree(order, childOrders);
  }
}
