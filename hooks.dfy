/**
 * The extension points of validator/custom.go: what a hook sees of a node, the two kinds of
 * hooks, and the name-keyed registries they are kept in. Registry keys are lower-cased both
 * when a hook is registered and when hooks are looked up, so hook lookup ignores case, unlike
 * catalog lookup.
 */
module Hooks {
  import opened Wrappers
  import Str = Text
  import Parser
  import Results

  /** NodeContext: the node under validation (absent for Go's nil) and the document's version. */
  datatype NodeContext = NodeContext(node: Option<Parser.Node>, version: string)
  {
    /** NodeContext.Text: the node's character data, trimmed; nothing for an absent node. */
    function Text(): (r: string)
      ensures Str.Trimmed(r) && (node.Some? ==> |r| <= |node.value.content|)
      ensures node.None? ==> r == ""
      ensures node.Some? ==> (r == "" <==> Str.Blank(node.value.content))
      ensures node.Some? ==> r == Str.TrimSpace(node.value.content)
    {
      if node.None? then "" else Str.TrimSpace(node.value.content)
    }

    /** NodeContext.Attribute: attrValue on the node; nothing for an absent node. */
    function Attribute(name: string): (r: Option<string>)
      ensures node.None? ==> r.None?
      ensures node.Some? ==> (r.Some? <==> exists i | 0 <= i < |node.value.attrs| :: node.value.attrs[i].name.local == name)
      ensures r.Some? ==> exists i | 0 <= i < |node.value.attrs| ::
        && node.value.attrs[i].name.local == name && node.value.attrs[i].value == r.value
        && forall j | 0 <= j < i :: node.value.attrs[j].name.local != name
    {
      if node.None? then None else Parser.AttrValue(node.value.attrs, name)
    }
  }

  /** The text of a parsed node is already trimmed, so a hook sees it unchanged. */
  lemma TextOfParsedNode(n: Parser.Node, version: string)
    requires Parser.AllTrimmed(n)
    ensures NodeContext(Some(n), version).Text() == n.content
  {
    Str.TrimmedIsFixpoint(n.content);
  }

  /** NodeValidatorFunc: a hook that may return a bucket, or nothing (Go's nil). */
  type CustomHook = NodeContext -> Option<Results.Analysis>

  /** What probing a URL yields: a transport error, or a response's status code and Content-Type header. */
  datatype ProbeOutcome = ProbeError(message: string) | Response(statusCode: int, contentType: string)

  /** The network as the HTTP hooks see it, through the configured client and timeout. */
  type Probe = string -> ProbeOutcome

  /** An HTTP hook's two results: a bucket or nothing, and an error or nothing. */
  datatype HttpOutcome = HttpOutcome(analysis: Option<Results.Analysis>, err: Option<string>)

  /** HTTPValidatorFunc. */
  type HttpHook = (NodeContext, Probe) -> HttpOutcome

  /** getCustomValidators / getHTTPValidators: the hooks registered under the lower-cased name, oldest first. */
  function Lookup<H>(store: map<string, seq<H>>, name: string): seq<H> {
    var key := Str.ToLower(name);
    if key in store then store[key] else []
  }

  /**
   * The registry after RegisterCustomValidator / RegisterHTTPValidator: nothing changes for an
   * absent hook; otherwise the hook is appended to the list of every name that lower-cases to
   * the same key, and every other name's list stays as it was.
   */
  function WithHook<H>(store: map<string, seq<H>>, name: string, hook: Option<H>): (r: map<string, seq<H>>)
    ensures hook.None? ==> r == store
    ensures forall n ::
      Lookup(r, n) == (if hook.Some? && Str.ToLower(n) == Str.ToLower(name) then Lookup(store, n) + [hook.value] else Lookup(store, n))
  {
    if hook.None? then store
    else store[Str.ToLower(name) := Lookup(store, name) + [hook.value]]
  }

  /** Every key of a registry is lower-case. */
  predicate LowerKeys<H>(store: map<string, seq<H>>) {
    forall k | k in store :: Str.ToLower(k) == k
  }

  /** With lower-case keys, every stored list is what a lookup of its key returns. */
  lemma LookupFindsEveryList<H>(store: map<string, seq<H>>)
    requires LowerKeys(store)
    ensures forall k | k in store :: Lookup(store, k) == store[k]
  {
  }

  lemma WithHookKeepsLowerKeys<H>(store: map<string, seq<H>>, name: string, hook: Option<H>)
    requires LowerKeys(store)
    ensures LowerKeys(WithHook(store, name, hook))
  {
    Str.ToLowerIdempotent(name);
  }

  /**
   * The hook registry: a map from lower-cased node name to hooks in registration order. Lookups
   * return the list as a value, so registrations after a lookup do not change what it returned.
   */
  class HookRegistry<H> {
    var store: map<string, seq<H>>

    predicate Valid()
      reads this
    {
      LowerKeys(store)
    }

    constructor()
      ensures Valid() && store == map[]
    {
      store := map[];
    }

    /** Register: an absent hook is ignored; otherwise it is appended under the lower-cased name. */
    method Register(nodeName: string, hook: Option<H>)
      requires Valid()
      modifies this
      ensures Valid()
      ensures store == WithHook(old(store), nodeName, hook)
    {
      if hook.None? {
        return;
      }
      var key := Str.ToLower(nodeName);
      var existing := if key in store then store[key] else [];
      store := store[key := existing + [hook.value]];
      WithHookKeepsLowerKeys(old(store), nodeName, hook);
    }

    /** Get: a copy of the hooks registered under the lower-cased name. */
    method Get(nodeName: string) returns (hooks: seq<H>)
      ensures hooks == Lookup(store, nodeName)
    {
      var key := Str.ToLower(nodeName);
      hooks := if key in store then store[key] else [];
    }
  }
}
