/**
 * The tree builder of validator/parser.go: a stack machine that folds the token stream of
 * an XML document into a generic tree of element nodes. The tokenizer itself is not part of
 * this model; its output is the sequence of tokens below, and a tokenizer failure is the
 * SyntaxError token at the position where the tokenizer would have reported it.
 */
module Parser {
  import opened Wrappers
  import Text

  /** A qualified XML name; validation looks only at the local part. */
  datatype Name = Name(space: string, local: string)

  datatype Attr = Attr(name: Name, value: string)

  /** genericNode: the element name, its attributes in document order, its child elements in document order and its text. */
  datatype Node = Node(name: Name, attrs: seq<Attr>, children: seq<Node>, content: string)
  {
    /** genericNode.localName. */
    function LocalName(): string { name.local }
  }

  datatype Token =
    | StartElement(name: Name, attrs: seq<Attr>)
    | EndElement(name: Name)
    | CharData(text: string)
    | OtherToken          // comments, processing instructions, directives
    | SyntaxError(message: string)

  datatype ParseError =
    | EmptyDocument                    // errEmptyXML
    | Malformed(message: string)       // a tokenizer error, wrapped
    | UnexpectedClosingTag(local: string)

  /** genericNode.attrValue: the value of the first attribute with that local name. */
  function AttrValue(attrs: seq<Attr>, local: string): (r: Option<string>)
    ensures r.Some? <==> exists i | 0 <= i < |attrs| :: attrs[i].name.local == local
    ensures r.Some? ==> exists i | 0 <= i < |attrs| ::
      attrs[i].name.local == local && attrs[i].value == r.value &&
      forall j | 0 <= j < i :: attrs[j].name.local != local
  {
    if attrs == [] then None
    else if attrs[0].name.local == local then
      Some(attrs[0].value)
    else
      var r := AttrValue(attrs[1..], local);
      assert forall i | 0 <= i < |attrs[1..]| :: attrs[1..][i] == attrs[i + 1];
      if r.Some? then
        var i :| 0 <= i < |attrs[1..]| && attrs[1..][i].name.local == local && attrs[1..][i].value == r.value &&
          forall j | 0 <= j < i :: attrs[1..][j].name.local != local;
        assert forall j | 0 <= j < i + 1 :: attrs[j].name.local != local by {
          forall j | 0 <= j < i + 1 ensures attrs[j].name.local != local {
            if j > 0 { assert attrs[j] == attrs[1..][j - 1]; }
          }
        }
        r
      else
        r
  }

  /** The builder's state: the open elements, innermost last, and the last top-level element. */
  datatype Builder = Builder(stack: seq<Node>, root: Option<Node>)

  /** Text runs are joined by single spaces. */
  function AppendText(content: string, run: string): string {
    if content != "" then content + " " + run else run
  }

  /**
   * Closing the innermost open element: it becomes the last child of the element around it,
   * or, at top level, the document root, replacing any earlier top-level element.
   */
  function Close(b: Builder): (r: Builder)
    requires |b.stack| > 0
    ensures |r.stack| == |b.stack| - 1
    ensures |b.stack| == 1 ==> r.root == Some(b.stack[0])
    ensures |b.stack| > 1 ==> r.root == b.root && r.stack[..|r.stack| - 1] == b.stack[..|b.stack| - 2]
    ensures |b.stack| > 1 ==> var parent := b.stack[|b.stack| - 2];
      r.stack[|r.stack| - 1] == parent.(children := parent.children + [b.stack[|b.stack| - 1]])
  {
    var top := b.stack[|b.stack| - 1];
    var rest := b.stack[..|b.stack| - 1];
    if rest == [] then Builder([], Some(top))
    else
      var parent := rest[|rest| - 1];
      Builder(rest[..|rest| - 1] + [parent.(children := parent.children + [top])], b.root)
  }

  /** One iteration of the token loop of buildNodeTree. */
  function Step(b: Builder, token: Token): Result<Builder, ParseError> {
    match token
    case StartElement(name, attrs) => Ok(b.(stack := b.stack + [Node(name, attrs, [], "")]))
    case EndElement(name) =>
      if b.stack == [] then Err(UnexpectedClosingTag(name.local)) else Ok(Close(b))
    case CharData(text) =>
      var run := Text.TrimSpace(text);
      if b.stack == [] || run == "" then Ok(b)
      else
        var top := b.stack[|b.stack| - 1];
        Ok(b.(stack := b.stack[..|b.stack| - 1] + [top.(content := AppendText(top.content, run))]))
    case OtherToken => Ok(b)
    case SyntaxError(message) => Err(Malformed(message))
  }

  /** The token loop: the state after a prefix of the stream, or the error that stopped it. */
  function Run(tokens: seq<Token>): Result<Builder, ParseError>
    decreases |tokens|
  {
    if tokens == [] then Ok(Builder([], None))
    else
      match Run(tokens[..|tokens| - 1])
      case Err(e) => Err(e)
      case Ok(b) => Step(b, tokens[|tokens| - 1])
  }

  /**
   * The root at the end of the stream. The Go builder links every node into its parent when it
   * is opened, so elements still open at the end of the stream are part of the tree; closing
   * them here yields that same tree.
   */
  function Finish(b: Builder): Option<Node>
    decreases |b.stack|
  {
    if b.stack == [] then b.root else Finish(Close(b))
  }

  /** buildNodeTree on a token stream. */
  function Parse(tokens: seq<Token>): Result<Node, ParseError> {
    match Run(tokens)
    case Err(e) => Err(e)
    case Ok(b) =>
      match Finish(b)
      case None => Err(EmptyDocument)
      case Some(root) => Ok(root)
  }

  /** buildNodeTree: the token loop, pushing and popping open elements. */
  method BuildNodeTree(tokens: seq<Token>) returns (r: Result<Node, ParseError>)
    ensures r == Parse(tokens)
  {
    var stack: seq<Node> := [];
    var root: Option<Node> := None;
    var i := 0;
    while i < |tokens|
      invariant 0 <= i <= |tokens|
      invariant Run(tokens[..i]) == Ok(Builder(stack, root))
    {
      RunStep(tokens, i);
      var next := Advance(stack, root, tokens[i]);
      if next.Err? {
        r := Err(next.error);
        ErrorPersists(tokens, i + 1);
        assert tokens[..|tokens|] == tokens;
        return;
      }
      stack, root := next.value.stack, next.value.root;
      i := i + 1;
    }
    assert tokens[..i] == tokens;
    var tree := Finish(Builder(stack, root));
    if tree.None? {
      return Err(EmptyDocument);
    }
    return Ok(tree.value);
  }

  /** One pass of the body of the token loop, on the open elements and the root so far. */
  method Advance(stack: seq<Node>, root: Option<Node>, token: Token) returns (next: Result<Builder, ParseError>)
    ensures next == Step(Builder(stack, root), token)
  {
    ghost var before := Builder(stack, root);
    var open := stack;
    var top_level := root;
    match token {
      case StartElement(name, attrs) =>
        open := open + [Node(name, attrs, [], "")];
      case EndElement(name) =>
        if |open| == 0 {
          return Err(UnexpectedClosingTag(name.local));
        }
        var top := open[|open| - 1];
        open := open[..|open| - 1];
        if |open| == 0 {
          top_level := Some(top);
        } else {
          var parent := open[|open| - 1];
          open := open[..|open| - 1] + [parent.(children := parent.children + [top])];
        }
        assert Close(before) == Builder(open, top_level);
      case CharData(text) =>
        var trimmed := Text.TrimSpace(text);
        if |open| > 0 && trimmed != "" {
          var current := open[|open| - 1];
          var content := if current.content != "" then current.content + " " + trimmed else trimmed;
          assert content == AppendText(current.content, trimmed);
          open := open[..|open| - 1] + [current.(content := content)];
        }
      case OtherToken =>
      case SyntaxError(message) =>
        return Err(Malformed(message));
    }
    next := Ok(Builder(open, top_level));
  }

  /** The loop over one more token: the previous state, stepped by that token. */
  lemma RunStep(tokens: seq<Token>, i: nat)
    requires i < |tokens|
    ensures Run(tokens[..i + 1]) ==
      match Run(tokens[..i])
      case Err(e) => Err(e)
      case Ok(b) => Step(b, tokens[i])
  {
    assert tokens[..i + 1][..i] == tokens[..i];
  }

  /** Once the loop has returned an error, later tokens are never read. */
  lemma {:induction false} ErrorPersists(tokens: seq<Token>, n: nat)
    requires n <= |tokens| && Run(tokens[..n]).Err?
    ensures Run(tokens) == Run(tokens[..n])
    decreases |tokens| - n
  {
    if n < |tokens| {
      assert tokens[..n + 1][..n] == tokens[..n];
      ErrorPersists(tokens, n + 1);
    } else {
      assert tokens[..n] == tokens;
    }
  }

  /** The nesting depth after a prefix: start tags open, end tags close. */
  function Depth(tokens: seq<Token>): int
    decreases |tokens|
  {
    if tokens == [] then 0
    else
      var last := tokens[|tokens| - 1];
      Depth(tokens[..|tokens| - 1]) + (if last.StartElement? then 1 else if last.EndElement? then -1 else 0)
  }

  /** No tokenizer error, and no end tag arrives while nothing is open. */
  predicate WellNested(tokens: seq<Token>) {
    forall i | 0 <= i < |tokens| ::
      !tokens[i].SyntaxError? && (tokens[i].EndElement? ==> Depth(tokens[..i]) > 0)
  }

  predicate HasStart(tokens: seq<Token>) {
    exists i | 0 <= i < |tokens| :: tokens[i].StartElement?
  }

  /** Well-nestedness of a stream is that of its prefix plus the condition on the last token. */
  lemma WellNestedSnoc(tokens: seq<Token>)
    requires tokens != []
    ensures var n := |tokens| - 1;
      WellNested(tokens) <==>
        (WellNested(tokens[..n]) && !tokens[n].SyntaxError? && (tokens[n].EndElement? ==> Depth(tokens[..n]) > 0))
  {
    var n := |tokens| - 1;
    assert forall i | 0 <= i < n :: tokens[..n][..i] == tokens[..i];
  }

  lemma HasStartSnoc(tokens: seq<Token>)
    requires tokens != []
    ensures HasStart(tokens) <==> HasStart(tokens[..|tokens| - 1]) || tokens[|tokens| - 1].StartElement?
  {
    var prefix := tokens[..|tokens| - 1];
    if HasStart(tokens) && !tokens[|tokens| - 1].StartElement? {
      var i :| 0 <= i < |tokens| && tokens[i].StartElement?;
      assert prefix[i] == tokens[i];
    }
    if HasStart(prefix) {
      var i :| 0 <= i < |prefix| && prefix[i].StartElement?;
      assert tokens[i] == prefix[i];
    }
  }

  /** The token loop succeeds exactly on well-nested streams, with as many open elements as the depth. */
  lemma {:induction false} RunSucceedsIffWellNested(tokens: seq<Token>)
    ensures Run(tokens).Ok? <==> WellNested(tokens)
    ensures Run(tokens).Ok? ==> |Run(tokens).value.stack| == Depth(tokens)
    ensures Run(tokens).Err? ==> !Run(tokens).error.EmptyDocument?
    decreases |tokens|
  {
    if tokens != [] {
      RunSucceedsIffWellNested(tokens[..|tokens| - 1]);
      WellNestedSnoc(tokens);
    }
  }

  /** After a successful prefix, something has been opened, still open or as the root, exactly when a start tag was read. */
  lemma {:induction false} RunOpenedIffStart(tokens: seq<Token>)
    requires Run(tokens).Ok?
    ensures Run(tokens).value.root.Some? || |Run(tokens).value.stack| > 0 <==> HasStart(tokens)
    decreases |tokens|
  {
    if tokens != [] {
      RunOpenedIffStart(tokens[..|tokens| - 1]);
      HasStartSnoc(tokens);
    }
  }

  /** Closing the open elements leaves a root exactly when there was one or something was open. */
  lemma {:induction false} FinishFindsRoot(b: Builder)
    ensures Finish(b).Some? <==> b.root.Some? || |b.stack| > 0
    decreases |b.stack|
  {
    if |b.stack| > 0 {
      FinishFindsRoot(Close(b));
    }
  }

  /** errEmptyXML is the answer exactly for the well-nested streams without a start tag. */
  lemma EmptyDocumentIffNoStart(tokens: seq<Token>)
    ensures Parse(tokens) == Err(EmptyDocument) <==> WellNested(tokens) && !HasStart(tokens)
  {
    RunSucceedsIffWellNested(tokens);
    if Run(tokens).Ok? {
      RunOpenedIffStart(tokens);
      FinishFindsRoot(Run(tokens).value);
    }
  }

  /** An end tag while nothing is open stops the builder with that tag's name. */
  lemma UnexpectedClosingTagReported(tokens: seq<Token>, name: Name)
    requires Run(tokens).Ok? && |Run(tokens).value.stack| == 0
    ensures Parse(tokens + [EndElement(name)]) == Err(UnexpectedClosingTag(name.local))
  {
    assert (tokens + [EndElement(name)])[..|tokens|] == tokens;
  }

  /**
   * A start tag followed by its end tag adds a node with exactly the given attributes and no
   * children or text: as the last child of the innermost open element, or, at top level, as the
   * new root, replacing an earlier top-level element.
   */
  lemma EmptyElementAppended(tokens: seq<Token>, name: Name, attrs: seq<Attr>)
    requires Run(tokens).Ok?
    ensures var b := Run(tokens).value;
      var after := Run(tokens + [StartElement(name, attrs), EndElement(name)]);
      var node := Node(name, attrs, [], "");
      && after.Ok?
      && |after.value.stack| == |b.stack|
      && (|b.stack| == 0 ==> after.value.root == Some(node))
      && (|b.stack| > 0 ==>
            after.value.root == b.root
            && after.value.stack[..|b.stack| - 1] == b.stack[..|b.stack| - 1]
            && after.value.stack[|b.stack| - 1].children == b.stack[|b.stack| - 1].children + [node]
            && after.value.stack[|b.stack| - 1].attrs == b.stack[|b.stack| - 1].attrs)
  {
    var t1 := tokens + [StartElement(name, attrs)];
    var t2 := t1 + [EndElement(name)];
    assert t1[..|tokens|] == tokens;
    assert t2[..|t1|] == t1;
    assert tokens + [StartElement(name, attrs), EndElement(name)] == t2;
  }

  /** Text is trimmed at every node of a tree. */
  predicate AllTrimmed(n: Node)
    decreases n
  {
    Text.Trimmed(n.content) && forall i | 0 <= i < |n.children| :: AllTrimmed(n.children[i])
  }

  predicate BuilderTrimmed(b: Builder) {
    (forall i | 0 <= i < |b.stack| :: AllTrimmed(b.stack[i])) && (b.root.Some? ==> AllTrimmed(b.root.value))
  }

  lemma AppendTextTrimmed(content: string, run: string)
    requires Text.Trimmed(content) && Text.Trimmed(run) && run != ""
    ensures Text.Trimmed(AppendText(content, run))
  {
  }

  lemma CloseKeepsTrimmed(b: Builder)
    requires |b.stack| > 0 && BuilderTrimmed(b)
    ensures BuilderTrimmed(Close(b))
  {
    var r := Close(b);
    if |b.stack| > 1 {
      var parent := b.stack[|b.stack| - 2];
      var p2 := parent.(children := parent.children + [b.stack[|b.stack| - 1]]);
      assert AllTrimmed(p2) by {
        assert forall i | 0 <= i < |p2.children| :: AllTrimmed(p2.children[i]) by {
          forall i | 0 <= i < |p2.children| ensures AllTrimmed(p2.children[i]) {
            if i < |parent.children| { assert p2.children[i] == parent.children[i]; }
          }
        }
      }
      assert forall i | 0 <= i < |r.stack| - 1 :: r.stack[i] == b.stack[i];
    }
  }

  lemma AddTextKeepsTrimmed(b: Builder, run: string)
    requires BuilderTrimmed(b) && b.stack != [] && Text.Trimmed(run) && run != ""
    ensures var top := b.stack[|b.stack| - 1];
      BuilderTrimmed(b.(stack := b.stack[..|b.stack| - 1] + [top.(content := AppendText(top.content, run))]))
  {
    var top := b.stack[|b.stack| - 1];
    AppendTextTrimmed(top.content, run);
    var top2 := top.(content := AppendText(top.content, run));
    assert AllTrimmed(top2) by {
      assert AllTrimmed(top);
      assert top2.children == top.children;
    }
    var stack := b.stack[..|b.stack| - 1] + [top2];
    forall i | 0 <= i < |stack| ensures AllTrimmed(stack[i]) {
      if i < |b.stack| - 1 { assert stack[i] == b.stack[i]; }
    }
  }

  lemma StepKeepsTrimmed(b: Builder, token: Token)
    requires BuilderTrimmed(b) && Step(b, token).Ok?
    ensures BuilderTrimmed(Step(b, token).value)
  {
    match token
    case EndElement(_) => CloseKeepsTrimmed(b);
    case CharData(text) =>
      var run := Text.TrimSpace(text);
      if b.stack != [] && run != "" {
        AddTextKeepsTrimmed(b, run);
      }
    case _ =>
  }

  lemma {:induction false} RunKeepsTrimmed(tokens: seq<Token>)
    requires Run(tokens).Ok?
    ensures BuilderTrimmed(Run(tokens).value)
    decreases |tokens|
  {
    if tokens != [] {
      var prefix := tokens[..|tokens| - 1];
      RunKeepsTrimmed(prefix);
      StepKeepsTrimmed(Run(prefix).value, tokens[|tokens| - 1]);
    }
  }

  lemma {:induction false} FinishKeepsTrimmed(b: Builder)
    requires BuilderTrimmed(b)
    ensures Finish(b).Some? ==> AllTrimmed(Finish(b).value)
    decreases |b.stack|
  {
    if |b.stack| > 0 {
      CloseKeepsTrimmed(b);
      FinishKeepsTrimmed(Close(b));
    }
  }

  /** The text of every parsed node has no leading or trailing white space. */
  lemma ParsedContentTrimmed(tokens: seq<Token>)
    requires Parse(tokens).Ok?
    ensures AllTrimmed(Parse(tokens).value)
  {
    RunKeepsTrimmed(tokens);
    FinishKeepsTrimmed(Run(tokens).value);
  }

  /** The stream without comments, processing instructions and directives. */
  function Significant(tokens: seq<Token>): seq<Token>
    decreases |tokens|
  {
    if tokens == [] then []
    else
      var rest := Significant(tokens[..|tokens| - 1]);
      if tokens[|tokens| - 1].OtherToken? then rest else rest + [tokens[|tokens| - 1]]
  }

  /** Tokens other than elements, text and errors are skipped: dropping them changes nothing. */
  lemma {:induction false} OtherTokensIgnored(tokens: seq<Token>)
    ensures Run(Significant(tokens)) == Run(tokens)
    ensures Parse(Significant(tokens)) == Parse(tokens)
    decreases |tokens|
  {
    if tokens != [] {
      var prefix := tokens[..|tokens| - 1];
      OtherTokensIgnored(prefix);
      var rest := Significant(prefix);
      if !tokens[|tokens| - 1].OtherToken? {
        assert (rest + [tokens[|tokens| - 1]])[..|rest|] == rest;
      }
    }
  }
}
