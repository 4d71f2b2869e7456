/**
 * What the recursive walk of validator/validator.go guarantees about a whole result tree: it has
 * the document's shape with an "iab.analysis" bucket on every node, a catalog verdict is never
 * weakened by the attribute checks or by the hooks that run after it, and below a permissive
 * parent only the version checks remain.
 */
module WalkProperties {
  import opened Wrappers
  import Catalog
  import Parser
  import Results
  import Hooks
  import opened Engine

  // ----- A bucket only ever grows -----

  lemma KeepsReflexive(a: Results.Analysis)
    ensures Keeps(a, a)
  {
    assert a.reasons[..|a.reasons|] == a.reasons;
    assert a.attributes[..|a.attributes|] == a.attributes;
  }

  lemma KeepsTransitive(a: Results.Analysis, b: Results.Analysis, c: Results.Analysis)
    requires Keeps(a, b) && Keeps(b, c)
    ensures Keeps(a, c)
  {
    assert c.reasons[..|a.reasons|] == c.reasons[..|b.reasons|][..|a.reasons|];
    assert c.attributes[..|a.attributes|] == c.attributes[..|b.attributes|][..|a.attributes|];
  }

  lemma RecordResultKeeps(a: Results.Analysis, result: Results.AttributeResult)
    ensures Keeps(a, RecordResult(a, result))
  {
    var added := Results.AddAttribute(a, result);
    assert Keeps(a, added);
    if result.reasons != [] {
      KeepsTransitive(a, added, Results.MarkFailure(added, result.reasons));
    }
  }

  lemma {:induction false} RecordResultsKeep(a: Results.Analysis, results: seq<Results.AttributeResult>)
    ensures Keeps(a, RecordResults(a, results))
    decreases |results|
  {
    if results == [] {
      KeepsReflexive(a);
    } else {
      var before := RecordResults(a, results[..|results| - 1]);
      RecordResultsKeep(a, results[..|results| - 1]);
      RecordResultKeeps(before, results[|results| - 1]);
      KeepsTransitive(a, before, RecordResults(a, results));
    }
  }

  lemma {:induction false} VisitAllDeclaredKeeps(a: Results.Analysis, spec: Catalog.NodeSpec, seen: set<string>, order: seq<string>)
    ensures Keeps(a, VisitAllDeclared(a, spec, seen, order))
    decreases |order|
  {
    if order == [] {
      KeepsReflexive(a);
    } else {
      var before := VisitAllDeclared(a, spec, seen, order[..|order| - 1]);
      var key := order[|order| - 1];
      VisitAllDeclaredKeeps(a, spec, seen, order[..|order| - 1]);
      if IsMissing(spec, seen, key) {
        var result := MissingResult(spec.attributes[key]);
        var added := Results.AddAttribute(before, result);
        assert Keeps(before, added);
        KeepsTransitive(before, added, Results.MarkFailure(added, result.reasons));
        KeepsTransitive(a, before, VisitAllDeclared(a, spec, seen, order));
      }
    }
  }

  /**
   * validateAttributes only adds to the bucket it is given: a structural failure, its reasons and
   * its category all survive it.
   */
  lemma AttributesKeep(a: Results.Analysis, node: Parser.Node, version: Catalog.Version,
                       spec: Option<Catalog.NodeSpec>, order: seq<string>)
    ensures Keeps(a, AttributesChecked(a, node, version, spec, order))
  {
    var present := CheckAttrs(a, node.attrs, version, spec);
    RecordResultsKeep(a, AttrResults(node.attrs, version, spec));
    if spec.Some? {
      VisitAllDeclaredKeeps(present, spec.value, SeenNames(node.attrs), order);
      KeepsTransitive(a, present, AttributesChecked(a, node, version, spec, order));
    }
  }

  // ----- One node -----

  /**
   * The "iab.analysis" bucket the hooks leave behind is a later state of the one the catalog
   * checks produced: same category, a failure still a failure, reasons and attribute results
   * only appended. Every bucket of the node is filed under its own category.
   */
  lemma OwnBucketKept(env: Env, node: Parser.Node, spec: Option<Catalog.NodeSpec>, parentSpec: Option<Catalog.NodeSpec>,
                      allowUnknown: bool, order: seq<string>)
    ensures var all := NodeAnalyses(env, node, spec, parentSpec, allowUnknown, order);
      && Results.IABAnalysisCategory in all
      && Keeps(StructuralBucket(node.LocalName(), env.version, spec, parentSpec, allowUnknown), all[Results.IABAnalysisCategory])
      && Keeps(NodeBucket(env, node, spec, parentSpec, allowUnknown, order), all[Results.IABAnalysisCategory])
      && forall c | c in all :: all[c].category == c
  {
    var structural := StructuralBucket(node.LocalName(), env.version, spec, parentSpec, allowUnknown);
    var bucket := NodeBucket(env, node, spec, parentSpec, allowUnknown, order);
    StructuralChecks(node.LocalName(), env.version, spec, parentSpec, allowUnknown);
    if allowUnknown {
      KeepsReflexive(structural);
    } else {
      AttributesKeep(structural, node, env.version, spec, order);
    }
    var ctx := Hooks.NodeContext(Some(node), env.version);
    var own := map[Results.IABAnalysisCategory := bucket];
    var afterCustom := if env.runCustom then ApplyCustom(own, ctx, Hooks.Lookup(env.customHooks, node.LocalName())) else own;
    var all := NodeAnalyses(env, node, spec, parentSpec, allowUnknown, order);
    if env.runCustom {
      CustomHooksExtend(own, ctx, Hooks.Lookup(env.customHooks, node.LocalName()));
    } else {
      ExtendsReflexive(own);
    }
    if env.runHTTP {
      HttpHooksExtend(afterCustom, ctx, Hooks.Lookup(env.httpHooks, node.LocalName()), env.probe);
    } else {
      ExtendsReflexive(afterCustom);
    }
    ExtendsTransitive(own, afterCustom, all);
    assert Results.IABAnalysisCategory in own;
    KeepsTransitive(structural, bucket, all[Results.IABAnalysisCategory]);
  }

  /** A node the catalog does not know fails where unknown nodes are not allowed, whatever the hooks do. */
  lemma UnknownNodeFails(env: Env, node: Parser.Node, parentSpec: Option<Catalog.NodeSpec>, orders: OrderTree)
    ensures var t := Validated(env, node, None, parentSpec, false, orders);
      && Results.IABAnalysisCategory in t.analyses
      && t.analyses[Results.IABAnalysisCategory].status == Results.Fail
      && |t.analyses[Results.IABAnalysisCategory].reasons| > 0
      && t.analyses[Results.IABAnalysisCategory].reasons[0] == "node " + node.LocalName() + " is not recognized in catalog"
  {
    OwnBucketKept(env, node, None, parentSpec, false, orders.order);
    StructuralChecks(node.LocalName(), env.version, None, parentSpec, false);
  }

  // ----- The whole tree -----

  /** The i-th child result is the walk of the i-th child. */
  lemma {:induction false} ChildAt(env: Env, node: Parser.Node, spec: Option<Catalog.NodeSpec>, childAllows: bool,
                                   orders: seq<OrderTree>, n: nat, i: nat)
    requires i < n <= |node.children|
    ensures ValidatedChildren(env, node, spec, childAllows, orders, n)[i] == ChildResult(env, node, spec, childAllows, orders, i)
    decreases n
  {
    if i < n - 1 {
      ChildAt(env, node, spec, childAllows, orders, n - 1, i);
    }
  }

  /** A result tree with the document's shape: each node's name, the same children in order, and an "iab.analysis" bucket everywhere. */
  ghost predicate Mirrors(node: Parser.Node, t: Results.NodeResult)
    decreases node
  {
    && t.node == node.LocalName()
    && Results.IABAnalysisCategory in t.analyses
    && |t.children| == |node.children|
    && forall i | 0 <= i < |node.children| :: Mirrors(node.children[i], t.children[i])
  }

  /** The walk visits every element of the document once, in document order, and gives each an "iab.analysis" bucket. */
  lemma {:induction false} ValidatedMirrors(env: Env, node: Parser.Node, spec: Option<Catalog.NodeSpec>,
                                            parentSpec: Option<Catalog.NodeSpec>, allowUnknown: bool, orders: OrderTree)
    ensures Mirrors(node, Validated(env, node, spec, parentSpec, allowUnknown, orders))
    decreases node
  {
    OwnBucketKept(env, node, spec, parentSpec, allowUnknown, orders.order);
    var childAllows := ChildAllows(spec, allowUnknown);
    var t := Validated(env, node, spec, parentSpec, allowUnknown, orders);
    forall i | 0 <= i < |node.children|
      ensures Mirrors(node.children[i], t.children[i])
    {
      var child := node.children[i];
      ChildAt(env, node, spec, childAllows, orders.children, |node.children|, i);
      ValidatedMirrors(env, child, ChildSpec(env, child), spec, childAllows, OrderAt(orders.children, i));
    }
  }

  /** The number of elements of a document tree. */
  function NodeCount(node: Parser.Node): nat
    decreases node, 1
  {
    1 + NodeCountFrom(node, 0)
  }

  function NodeCountFrom(node: Parser.Node, i: nat): nat
    requires i <= |node.children|
    decreases node, 0, |node.children| - i
  {
    if i == |node.children| then 0 else NodeCount(node.children[i]) + NodeCountFrom(node, i + 1)
  }

  /** In a mirroring result tree, "iab.analysis" is carried by as many nodes as the document has elements. */
  lemma {:induction false} MirrorsCount(node: Parser.Node, t: Results.NodeResult)
    requires Mirrors(node, t)
    ensures Results.Count(t, Results.IABAnalysisCategory) == NodeCount(node)
    decreases node, 1
  {
    MirrorsCountFrom(node, t, 0);
  }

  lemma {:induction false} MirrorsCountFrom(node: Parser.Node, t: Results.NodeResult, i: nat)
    requires Mirrors(node, t) && i <= |node.children|
    ensures Results.CountFrom(t, Results.IABAnalysisCategory, i) == NodeCountFrom(node, i)
    decreases node, 0, |node.children| - i
  {
    if i < |node.children| {
      MirrorsCount(node.children[i], t.children[i]);
      MirrorsCountFrom(node, t, i + 1);
    }
  }

  // ----- Below a permissive parent -----

  /**
   * The result of a subtree walked with unknown nodes allowed and the hooks off: every node
   * has the "iab.analysis" bucket alone, without attribute results, and it fails exactly when
   * the catalog knows the node and the document's version is not among its versions.
   */
  ghost predicate Quiet(env: Env, node: Parser.Node, spec: Option<Catalog.NodeSpec>, t: Results.NodeResult)
    decreases node
  {
    && t.analyses.Keys == {Results.IABAnalysisCategory}
    && t.analyses[Results.IABAnalysisCategory].attributes == []
    && (t.analyses[Results.IABAnalysisCategory].status == Results.Fail <==> spec.Some? && !spec.value.Supports(env.version))
    && |t.children| == |node.children|
    && forall i | 0 <= i < |node.children| :: Quiet(env, node.children[i], ChildSpec(env, node.children[i]), t.children[i])
  }

  /**
   * Below an Extension or CreativeExtension no name is rejected and no attribute is checked;
   * only a known node outside its versions fails.
   */
  lemma {:induction false} PermissiveSubtreeQuiet(env: Env, node: Parser.Node, spec: Option<Catalog.NodeSpec>,
                                                  parentSpec: Option<Catalog.NodeSpec>, orders: OrderTree)
    requires !env.runCustom && !env.runHTTP
    ensures Quiet(env, node, spec, Validated(env, node, spec, parentSpec, true, orders))
    decreases node
  {
    var t := Validated(env, node, spec, parentSpec, true, orders);
    StructuralChecks(node.LocalName(), env.version, spec, parentSpec, true);
    assert t.analyses == map[Results.IABAnalysisCategory := StructuralBucket(node.LocalName(), env.version, spec, parentSpec, true)];
    forall i | 0 <= i < |node.children|
      ensures Quiet(env, node.children[i], ChildSpec(env, node.children[i]), t.children[i])
    {
      var child := node.children[i];
      ChildAt(env, node, spec, true, orders.children, |node.children|, i);
      PermissiveSubtreeQuiet(env, child, ChildSpec(env, child), spec, OrderAt(orders.children, i));
    }
  }

  // ----- Hooks that do not run -----

  /** Two walk settings that differ only in hooks that do not run and in a network no hook that runs sees. */
  ghost predicate SameChecks(e1: Env, e2: Env) {
    && e1.catalog == e2.catalog && e1.version == e2.version
    && e1.runCustom == e2.runCustom && e1.runHTTP == e2.runHTTP
    && (e1.runCustom ==> e1.customHooks == e2.customHooks)
    && (e1.runHTTP ==> e1.httpHooks == e2.httpHooks && e1.probe == e2.probe)
  }

  /** Under the same checks a node gets the same buckets. */
  lemma SameChecksAnalyses(e1: Env, e2: Env, node: Parser.Node, spec: Option<Catalog.NodeSpec>,
                           parentSpec: Option<Catalog.NodeSpec>, allowUnknown: bool, order: seq<string>)
    requires SameChecks(e1, e2)
    ensures NodeAnalyses(e1, node, spec, parentSpec, allowUnknown, order) == NodeAnalyses(e2, node, spec, parentSpec, allowUnknown, order)
  {
    assert NodeBucket(e1, node, spec, parentSpec, allowUnknown, order) == NodeBucket(e2, node, spec, parentSpec, allowUnknown, order);
  }

  /** Disabled hooks have no effect anywhere in the tree: neither their registries nor the network matter. */
  lemma {:induction false} DisabledHooksIgnored(e1: Env, e2: Env, node: Parser.Node, spec: Option<Catalog.NodeSpec>,
                                                parentSpec: Option<Catalog.NodeSpec>, allowUnknown: bool, orders: OrderTree)
    requires SameChecks(e1, e2)
    ensures Validated(e1, node, spec, parentSpec, allowUnknown, orders) == Validated(e2, node, spec, parentSpec, allowUnknown, orders)
    decreases node
  {
    var childAllows := ChildAllows(spec, allowUnknown);
    var n := |node.children|;
    var c1 := ValidatedChildren(e1, node, spec, childAllows, orders.children, n);
    var c2 := ValidatedChildren(e2, node, spec, childAllows, orders.children, n);
    forall i | 0 <= i < n
      ensures c1[i] == c2[i]
    {
      var child := node.children[i];
      ChildAt(e1, node, spec, childAllows, orders.children, n, i);
      ChildAt(e2, node, spec, childAllows, orders.children, n, i);
      assert ChildSpec(e1, child) == ChildSpec(e2, child);
      DisabledHooksIgnored(e1, e2, child, ChildSpec(e1, child), spec, childAllows, OrderAt(orders.children, i));
    }
    assert c1 == c2;
    SameChecksAnalyses(e1, e2, node, spec, parentSpec, allowUnknown, orders.order);
  }
}
