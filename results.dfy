/**
 * The result tree of validator/result.go: per-node analysis buckets keyed by category, the
 * operations that fill them, and the per-category roll-up over a whole result tree.
 *
 * Buckets are values. The Go code hands out pointers to buckets and mutates them in place;
 * here every such mutation returns the new bucket, which the caller stores back.
 */
module Results {
  import opened Wrappers
  import Catalog

  /** ResultStatus; Unset is the zero value a hook may leave in a bucket it returns. */
  datatype Status = Pass | Fail | Info | Unset

  datatype AttributeResult = AttributeResult(
    name: string,
    versionSupport: seq<Catalog.Version>,
    status: Status,
    reasons: seq<string>)

  /** NodeAnalysisResult: one category's verdict on one node. */
  datatype Analysis = Analysis(
    category: string,
    status: Status,
    reasons: seq<string>,
    attributes: seq<AttributeResult>)

  /** NodeResult: the node's local name, its spec's versions, its buckets and its children's results. */
  datatype NodeResult = NodeResult(
    node: string,
    versionSupport: seq<Catalog.Version>,
    analyses: map<string, Analysis>,
    children: seq<NodeResult>)

  /** The two built-in categories (validator/custom.go:15-18). */
  const IABAnalysisCategory: string := "iab.analysis"
  const CustomAnalysisCategory: string := "custom.analysis"

  /** The non-empty reasons, in order. */
  function NonEmpty(reasons: seq<string>): (r: seq<string>)
    ensures |r| <= |reasons|
    ensures forall i | 0 <= i < |r| :: r[i] != ""
    ensures forall s | s in reasons && s != "" :: s in r
    ensures forall s | s in r :: s in reasons
  {
    if reasons == [] then []
    else if reasons[0] == "" then NonEmpty(reasons[1..])
    else [reasons[0]] + NonEmpty(reasons[1..])
  }

  lemma {:induction false} NonEmptyConcat(a: seq<string>, b: seq<string>)
    ensures NonEmpty(a + b) == NonEmpty(a) + NonEmpty(b)
  {
    if a != [] {
      assert (a + b)[0] == a[0];
      assert (a + b)[1..] == a[1..] + b;
      NonEmptyConcat(a[1..], b);
    } else {
      assert a + b == b;
    }
  }

  /** A single reason is kept exactly when it is not empty; with NonEmptyConcat this fixes NonEmpty as the order-keeping filter. */
  lemma NonEmptySingle(reason: string)
    ensures NonEmpty([reason]) == if reason == "" then [] else [reason]
  {
  }

  /** Reasons that are all non-empty are kept as they are. */
  lemma {:induction false} NonEmptyKeepsAll(reasons: seq<string>)
    requires forall i | 0 <= i < |reasons| :: reasons[i] != ""
    ensures NonEmpty(reasons) == reasons
  {
    if reasons != [] {
      NonEmptyKeepsAll(reasons[1..]);
    }
  }

  /** NodeAnalysisResult.addAttribute: one more attribute result at the end, nothing else changed. */
  function AddAttribute(a: Analysis, result: AttributeResult): (r: Analysis)
    ensures |r.attributes| == |a.attributes| + 1 && r.attributes[|a.attributes|] == result
    ensures r.attributes[..|a.attributes|] == a.attributes
    ensures r.category == a.category && r.status == a.status && r.reasons == a.reasons
  {
    a.(attributes := a.attributes + [result])
  }

  /** markFailure: the bucket fails and keeps its old reasons followed by the new non-empty ones. */
  function MarkFailure(a: Analysis, reasons: seq<string>): (r: Analysis)
    ensures r.status == Fail
    ensures r.category == a.category && r.attributes == a.attributes
    ensures |a.reasons| <= |r.reasons| && r.reasons[..|a.reasons|] == a.reasons
    ensures forall i | |a.reasons| <= i < |r.reasons| :: r.reasons[i] != ""
    ensures forall s | s in reasons && s != "" :: s in r.reasons
    ensures r.reasons == a.reasons + NonEmpty(reasons)
  {
    a.(status := Fail, reasons := a.reasons + NonEmpty(reasons))
  }

  /** Two markings in a row are one marking with both reason lists. */
  lemma MarkFailureTwice(a: Analysis, first: seq<string>, second: seq<string>)
    ensures MarkFailure(MarkFailure(a, first), second) == MarkFailure(a, first + second)
  {
    NonEmptyConcat(first, second);
  }

  /** A fresh bucket: the category given, status pass, nothing recorded. */
  function NewAnalysis(category: string): Analysis {
    Analysis(category, Pass, [], [])
  }

  /**
   * NodeResult.addAnalysis: the bucket of that category, created passing and empty when it is
   * absent; the map it leaves behind.
   */
  function AddAnalysis(analyses: map<string, Analysis>, category: string): (r: (map<string, Analysis>, Analysis))
    ensures category in analyses ==> r.0 == analyses && r.1 == analyses[category]
    ensures category !in analyses ==> r.1 == Analysis(category, Pass, [], []) && r.0 == analyses[category := r.1]
    ensures category in r.0 && r.0[category] == r.1
  {
    if category in analyses then (analyses, analyses[category])
    else
      var bucket := NewAnalysis(category);
      (analyses[category := bucket], bucket)
  }

  /** mergeAnalysis into an existing bucket: attributes appended, failure and its reasons carried over. */
  function MergeInto(existing: Analysis, incoming: Analysis): Analysis {
    var combined := existing.(attributes := existing.attributes + incoming.attributes);
    if incoming.status == Fail then MarkFailure(combined, incoming.reasons) else combined
  }

  /** mergeAnalysis: a new category is stored as given; an existing one absorbs the incoming bucket. */
  function Merge(analyses: map<string, Analysis>, incoming: Analysis): (r: map<string, Analysis>)
    ensures r.Keys == analyses.Keys + {incoming.category}
    ensures incoming.category !in analyses ==> r[incoming.category] == incoming
    ensures forall c | c in analyses && c != incoming.category :: r[c] == analyses[c]
  {
    var c := incoming.category;
    if c !in analyses then analyses[c := incoming]
    else analyses[c := MergeInto(analyses[c], incoming)]
  }

  /**
   * Merging never turns a failing bucket back to pass; merging a bucket that does not fail
   * leaves the status and reasons of an existing bucket as they were and only appends its
   * attribute results; a failing one fails the existing bucket.
   */
  lemma MergeMonotone(analyses: map<string, Analysis>, incoming: Analysis)
    ensures forall c | c in analyses && analyses[c].status == Fail :: Merge(analyses, incoming)[c].status == Fail
    ensures incoming.category in analyses && incoming.status != Fail ==>
      var before := analyses[incoming.category];
      var after := Merge(analyses, incoming)[incoming.category];
      after.status == before.status && after.reasons == before.reasons &&
      after.attributes == before.attributes + incoming.attributes
    ensures incoming.category in analyses && incoming.status == Fail ==>
      var before := analyses[incoming.category];
      var after := Merge(analyses, incoming)[incoming.category];
      after.status == Fail && after.reasons == before.reasons + NonEmpty(incoming.reasons) &&
      after.attributes == before.attributes + incoming.attributes
  {
  }

  // ----- Category summaries -----

  /** The number of reasons a summary keeps. */
  const MaxSummaryReasons: nat := 5

  datatype CategorySummary = CategorySummary(
    category: string,
    totalNodes: nat,
    failingNodes: nat,
    status: Status,
    reasons: seq<string>)

  function EmptySummary(category: string): CategorySummary {
    CategorySummary(category, 0, 0, Pass, [])
  }

  /** The first reasons, up to the cap. */
  function Cap(reasons: seq<string>): (r: seq<string>)
    ensures |r| <= MaxSummaryReasons && |r| <= |reasons|
    ensures r == reasons[..|r|]
    ensures |reasons| <= MaxSummaryReasons ==> r == reasons
  {
    if |reasons| <= MaxSummaryReasons then reasons else reasons[..MaxSummaryReasons]
  }

  /** Capping a prefix first changes nothing. */
  lemma CapAbsorbs(a: seq<string>, b: seq<string>)
    ensures Cap(Cap(a) + b) == Cap(a + b)
  {
    if |a| > MaxSummaryReasons {
      assert (Cap(a) + b)[..MaxSummaryReasons] == (a + b)[..MaxSummaryReasons];
    } else {
      assert Cap(a) == a;
    }
  }

  /** A failing bucket's reasons, appended one at a time while the summary has room. */
  function Sample(kept: seq<string>, reasons: seq<string>): seq<string>
    decreases |reasons|
  {
    if reasons == [] then kept
    else if reasons[0] != "" && |kept| < MaxSummaryReasons then Sample(kept + [reasons[0]], reasons[1..])
    else Sample(kept, reasons[1..])
  }

  /** Sampling keeps the first non-empty reasons, up to the cap. */
  lemma {:induction false} SampleIsCap(kept: seq<string>, reasons: seq<string>)
    requires |kept| <= MaxSummaryReasons
    ensures Sample(kept, reasons) == Cap(kept + NonEmpty(reasons))
    decreases |reasons|
  {
    if reasons != [] {
      var rest := reasons[1..];
      assert NonEmpty(reasons) == (if reasons[0] != "" then [reasons[0]] else []) + NonEmpty(rest);
      if reasons[0] != "" && |kept| < MaxSummaryReasons {
        SampleIsCap(kept + [reasons[0]], rest);
        assert kept + NonEmpty(reasons) == (kept + [reasons[0]]) + NonEmpty(rest);
      } else {
        SampleIsCap(kept, rest);
        if reasons[0] != "" {
          assert |kept| == MaxSummaryReasons;
          assert (kept + NonEmpty(reasons))[..MaxSummaryReasons] == kept;
          assert (kept + NonEmpty(rest))[..MaxSummaryReasons] == kept;
        }
      }
    }
  }

  /** One node's bucket of this category counted into the category's summary. */
  function Bump(summary: CategorySummary, a: Analysis): CategorySummary {
    var counted := summary.(totalNodes := summary.totalNodes + 1);
    if a.status == Fail then
      counted.(failingNodes := counted.failingNodes + 1, status := Fail, reasons := Sample(counted.reasons, a.reasons))
    else counted
  }

  function Get(summaries: map<string, CategorySummary>, category: string): CategorySummary {
    if category in summaries then summaries[category] else EmptySummary(category)
  }

  /** The summaries after counting the buckets of the categories in done. */
  function AddCategories(summaries: map<string, CategorySummary>, analyses: map<string, Analysis>, done: set<string>): map<string, CategorySummary>
    requires done <= analyses.Keys
  {
    map c | c in summaries.Keys + done :: if c in done then Bump(Get(summaries, c), analyses[c]) else summaries[c]
  }

  lemma AddCategoriesStep(summaries: map<string, CategorySummary>, analyses: map<string, Analysis>, done: set<string>, c: string)
    requires done <= analyses.Keys && c in analyses && c !in done
    ensures var before := AddCategories(summaries, analyses, done);
      before[c := Bump(Get(before, c), analyses[c])] == AddCategories(summaries, analyses, done + {c})
  {
    var before := AddCategories(summaries, analyses, done);
    assert Get(before, c) == Get(summaries, c);
  }

  /** One iteration of the walk's loop over a node's buckets. */
  lemma CountStep(start: map<string, CategorySummary>, analyses: map<string, Analysis>, pending: set<string>, c: string,
                  summaries: map<string, CategorySummary>, summary: CategorySummary)
    requires pending <= analyses.Keys && c in pending
    requires summaries == AddCategories(start, analyses, analyses.Keys - pending)
    requires var base := if c in summaries then summaries[c] else CategorySummary(c, 0, 0, Pass, []);
      var counted := base.(totalNodes := base.totalNodes + 1);
      summary == if analyses[c].status == Fail
        then counted.(failingNodes := counted.failingNodes + 1, status := Fail).(reasons := Sample(counted.reasons, analyses[c].reasons))
        else counted
    ensures summaries[c := summary] == AddCategories(start, analyses, analyses.Keys - (pending - {c}))
  {
    assert summary == Bump(Get(summaries, c), analyses[c]);
    AddCategoriesStep(start, analyses, analyses.Keys - pending, c);
    assert analyses.Keys - (pending - {c}) == (analyses.Keys - pending) + {c};
  }

  /** One node counted: each of its buckets updates its own category, so the order does not matter. */
  function AddNode(summaries: map<string, CategorySummary>, analyses: map<string, Analysis>): map<string, CategorySummary> {
    AddCategories(summaries, analyses, analyses.Keys)
  }

  /** The walk: a node, then its children in order, each with its whole subtree. */
  function AddTree(summaries: map<string, CategorySummary>, t: NodeResult): map<string, CategorySummary>
    decreases t, 1
  {
    AddChildrenFrom(AddNode(summaries, t.analyses), t, 0)
  }

  function AddChildrenFrom(summaries: map<string, CategorySummary>, t: NodeResult, i: nat): map<string, CategorySummary>
    requires i <= |t.children|
    decreases t, 0, |t.children| - i
  {
    if i == |t.children| then summaries
    else AddChildrenFrom(AddTree(summaries, t.children[i]), t, i + 1)
  }

  /** summarizeCategories: no summaries for an absent root or for a tree without buckets. */
  function Summaries(root: Option<NodeResult>): Option<map<string, CategorySummary>> {
    match root
    case None => None
    case Some(t) =>
      var s := AddTree(map[], t);
      if |s| == 0 then None else Some(s)
  }

  /** The summarising walk, with the shared map of summaries as its state. */
  class Summarizer {
    var summaries: map<string, CategorySummary>

    constructor()
      ensures summaries == map[]
    {
      summaries := map[];
    }

    /** The walk's visit of one node: every bucket counted into its category's summary, in any order. */
    method CountBuckets(analyses: map<string, Analysis>)
      modifies this
      ensures summaries == AddNode(old(summaries), analyses)
    {
      ghost var start := summaries;
      var pending := analyses.Keys;
      while pending != {}
        invariant pending <= analyses.Keys
        invariant summaries == AddCategories(start, analyses, analyses.Keys - pending)
        decreases |pending|
      {
        var category :| category in pending;
        var analysis := analyses[category];
        var summary := if category in summaries then summaries[category] else CategorySummary(category, 0, 0, Pass, []);
        summary := summary.(totalNodes := summary.totalNodes + 1);
        if analysis.status == Fail {
          summary := summary.(failingNodes := summary.failingNodes + 1, status := Fail);
          summary := summary.(reasons := Sample(summary.reasons, analysis.reasons));
        }
        CountStep(start, analyses, pending, category, summaries, summary);
        summaries := summaries[category := summary];
        pending := pending - {category};
      }
      assert analyses.Keys - pending == analyses.Keys;
    }

    /** The recursive walk: a node's buckets, then each child's subtree in document order. */
    method Walk(node: NodeResult)
      modifies this
      ensures summaries == AddTree(old(summaries), node)
      decreases node
    {
      ghost var start := summaries;
      CountBuckets(node.analyses);
      var i := 0;
      while i < |node.children|
        invariant i <= |node.children|
        invariant AddChildrenFrom(summaries, node, i) == AddTree(start, node)
      {
        Walk(node.children[i]);
        i := i + 1;
      }
    }
  }

  /** summarizeCategories, by a walk over the tree. */
  method SummarizeCategories(root: Option<NodeResult>) returns (r: Option<map<string, CategorySummary>>)
    ensures r == Summaries(root)
  {
    if root.None? {
      return None;
    }
    var walker := new Summarizer();
    walker.Walk(root.value);
    if |walker.summaries| == 0 {
      return None;
    }
    return Some(walker.summaries);
  }

  // ----- What the summaries count -----

  /** The number of nodes of the tree that carry a bucket of the category. */
  function Count(t: NodeResult, c: string): nat
    decreases t, 1
  {
    (if c in t.analyses then 1 else 0) + CountFrom(t, c, 0)
  }

  function CountFrom(t: NodeResult, c: string, i: nat): nat
    requires i <= |t.children|
    decreases t, 0, |t.children| - i
  {
    if i == |t.children| then 0 else Count(t.children[i], c) + CountFrom(t, c, i + 1)
  }

  predicate Failing(t: NodeResult, c: string) {
    c in t.analyses && t.analyses[c].status == Fail
  }

  /** The number of nodes of the tree whose bucket of the category fails. */
  function FailCount(t: NodeResult, c: string): nat
    decreases t, 1
  {
    (if Failing(t, c) then 1 else 0) + FailCountFrom(t, c, 0)
  }

  function FailCountFrom(t: NodeResult, c: string, i: nat): nat
    requires i <= |t.children|
    decreases t, 0, |t.children| - i
  {
    if i == |t.children| then 0 else FailCount(t.children[i], c) + FailCountFrom(t, c, i + 1)
  }

  /** The non-empty reasons of the failing buckets of the category, in pre-order. */
  function FailureReasons(t: NodeResult, c: string): seq<string>
    decreases t, 1
  {
    (if Failing(t, c) then NonEmpty(t.analyses[c].reasons) else []) + FailureReasonsFrom(t, c, 0)
  }

  function FailureReasonsFrom(t: NodeResult, c: string, i: nat): seq<string>
    requires i <= |t.children|
    decreases t, 0, |t.children| - i
  {
    if i == |t.children| then [] else FailureReasons(t.children[i], c) + FailureReasonsFrom(t, c, i + 1)
  }

  /** The summary a category has after more nodes were counted into it. */
  function Accumulate(s: CategorySummary, nodes: nat, failing: nat, reasons: seq<string>): CategorySummary {
    var f := s.failingNodes + failing;
    CategorySummary(s.category, s.totalNodes + nodes, f, if f > 0 then Fail else Pass, Cap(s.reasons + reasons))
  }

  /** The shape every summary keeps: its key, a status that says whether any node failed, at most five reasons. */
  predicate Consistent(c: string, s: CategorySummary) {
    s.category == c && s.status == (if s.failingNodes > 0 then Fail else Pass) && |s.reasons| <= MaxSummaryReasons
  }

  lemma AccumulateTwice(s: CategorySummary, n1: nat, f1: nat, r1: seq<string>, n2: nat, f2: nat, r2: seq<string>)
    ensures Accumulate(Accumulate(s, n1, f1, r1), n2, f2, r2) == Accumulate(s, n1 + n2, f1 + f2, r1 + r2)
  {
    CapAbsorbs(s.reasons + r1, r2);
    assert s.reasons + r1 + r2 == s.reasons + (r1 + r2);
  }

  lemma AccumulateNothing(s: CategorySummary, c: string)
    requires Consistent(c, s)
    ensures Accumulate(s, 0, 0, []) == s
  {
    assert s.reasons + [] == s.reasons;
  }

  /** Counting one bucket is accumulating one node. */
  lemma BumpIsAccumulate(c: string, s: CategorySummary, a: Analysis)
    requires Consistent(c, s)
    ensures Bump(s, a) == Accumulate(s, 1, if a.status == Fail then 1 else 0, if a.status == Fail then NonEmpty(a.reasons) else [])
  {
    if a.status == Fail {
      SampleIsCap(s.reasons, a.reasons);
    } else {
      assert s.reasons + [] == s.reasons;
    }
  }

  lemma AddNodeSummary(summaries: map<string, CategorySummary>, analyses: map<string, Analysis>, c: string)
    requires Consistent(c, Get(summaries, c))
    ensures Get(AddNode(summaries, analyses), c) == Accumulate(Get(summaries, c),
           if c in analyses then 1 else 0,
           if c in analyses && analyses[c].status == Fail then 1 else 0,
           if c in analyses && analyses[c].status == Fail then NonEmpty(analyses[c].reasons) else [])
  {
    if c in analyses {
      BumpIsAccumulate(c, Get(summaries, c), analyses[c]);
    } else {
      AccumulateNothing(Get(summaries, c), c);
    }
  }

  /**
   * What the walk adds to a category's summary: one node per bucket of the category, one
   * failing node per failing bucket, and the failure reasons in pre-order up to the cap.
   */
  lemma {:induction false} AddTreeSummary(summaries: map<string, CategorySummary>, t: NodeResult, c: string)
    requires Consistent(c, Get(summaries, c))
    ensures Get(AddTree(summaries, t), c) == Accumulate(Get(summaries, c), Count(t, c), FailCount(t, c), FailureReasons(t, c))
    decreases t, 1
  {
    var s1 := AddNode(summaries, t.analyses);
    AddNodeSummary(summaries, t.analyses, c);
    AddChildrenSummary(s1, t, 0, c);
    var n: nat := if c in t.analyses then 1 else 0;
    var f: nat := if Failing(t, c) then 1 else 0;
    var rs := if Failing(t, c) then NonEmpty(t.analyses[c].reasons) else [];
    AccumulateTwice(Get(summaries, c), n, f, rs, CountFrom(t, c, 0), FailCountFrom(t, c, 0), FailureReasonsFrom(t, c, 0));
  }

  lemma {:induction false} AddChildrenSummary(summaries: map<string, CategorySummary>, t: NodeResult, i: nat, c: string)
    requires i <= |t.children| && Consistent(c, Get(summaries, c))
    ensures Get(AddChildrenFrom(summaries, t, i), c) ==
      Accumulate(Get(summaries, c), CountFrom(t, c, i), FailCountFrom(t, c, i), FailureReasonsFrom(t, c, i))
    decreases t, 0, |t.children| - i
  {
    if i == |t.children| {
      AccumulateNothing(Get(summaries, c), c);
    } else {
      var s1 := AddTree(summaries, t.children[i]);
      AddTreeSummary(summaries, t.children[i], c);
      AddChildrenSummary(s1, t, i + 1, c);
      AccumulateTwice(Get(summaries, c),
        Count(t.children[i], c), FailCount(t.children[i], c), FailureReasons(t.children[i], c),
        CountFrom(t, c, i + 1), FailCountFrom(t, c, i + 1), FailureReasonsFrom(t, c, i + 1));
    }
  }

  /** A category has a summary after the walk exactly when it had one before or some node carries its bucket. */
  lemma {:induction false} AddTreeKeys(summaries: map<string, CategorySummary>, t: NodeResult, c: string)
    ensures c in AddTree(summaries, t) <==> c in summaries || Count(t, c) > 0
    decreases t, 1
  {
    AddChildrenKeys(AddNode(summaries, t.analyses), t, 0, c);
  }

  lemma {:induction false} AddChildrenKeys(summaries: map<string, CategorySummary>, t: NodeResult, i: nat, c: string)
    requires i <= |t.children|
    ensures c in AddChildrenFrom(summaries, t, i) <==> c in summaries || CountFrom(t, c, i) > 0
    decreases t, 0, |t.children| - i
  {
    if i < |t.children| {
      AddTreeKeys(summaries, t.children[i], c);
      AddChildrenKeys(AddTree(summaries, t.children[i]), t, i + 1, c);
    }
  }

  lemma {:induction false} FailCountBounded(t: NodeResult, c: string)
    ensures FailCount(t, c) <= Count(t, c)
    decreases t, 1
  {
    FailCountFromBounded(t, c, 0);
  }

  lemma {:induction false} FailCountFromBounded(t: NodeResult, c: string, i: nat)
    requires i <= |t.children|
    ensures FailCountFrom(t, c, i) <= CountFrom(t, c, i)
    decreases t, 0, |t.children| - i
  {
    if i < |t.children| {
      FailCountBounded(t.children[i], c);
      FailCountFromBounded(t, c, i + 1);
    }
  }

  /**
   * The summary of a category counts the nodes carrying its bucket and those whose bucket fails,
   * fails exactly when one of them fails, and keeps the first five failure reasons in pre-order;
   * categories that no node carries have no summary, and a tree without buckets has none at all.
   */
  lemma SummariesCount(t: NodeResult)
    ensures Summaries(Some(t)).None? <==> forall c :: Count(t, c) == 0
    ensures Summaries(Some(t)).Some? ==> forall c :: (c in Summaries(Some(t)).value <==> Count(t, c) > 0)
    ensures Summaries(Some(t)).Some? ==> forall c | c in Summaries(Some(t)).value ::
      var s := Summaries(Some(t)).value[c];
      && s.category == c
      && s.totalNodes == Count(t, c)
      && s.failingNodes == FailCount(t, c)
      && s.failingNodes <= s.totalNodes
      && (s.status == Fail <==> s.failingNodes > 0)
      && (s.status == Pass <==> s.failingNodes == 0)
      && s.reasons == Cap(FailureReasons(t, c))
  {
    var s := AddTree(map[], t);
    forall c ensures (c in s <==> Count(t, c) > 0) && Get(s, c) == Accumulate(EmptySummary(c), Count(t, c), FailCount(t, c), FailureReasons(t, c)) {
      AddTreeSummary(map[], t, c);
      AddTreeKeys(map[], t, c);
    }
    forall c ensures FailCount(t, c) <= Count(t, c) {
      FailCountBounded(t, c);
    }
    if |s| == 0 {
      forall c ensures Count(t, c) == 0 {
        assert c !in s;
      }
    } else {
      var k :| k in s;
      assert Count(t, k) > 0;
    }
  }
}
