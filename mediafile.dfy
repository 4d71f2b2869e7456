/**
 * The built-in HTTP hook of validator/mediafile_http_validator.go: a MediaFile element's text
 * is the URL of the media asset; the asset must answer, without an error status, and with the
 * media type the element's `type` attribute declares, when both sides name one. The request
 * itself is the probe, an input of this model.
 */
module MediaFile {
  import opened Wrappers
  import Str = Text
  import Results
  import Hooks

  lemma ToLowerKeepsSpaces(s: string)
    ensures forall i | 0 <= i < |s| :: Str.IsSpace(Str.ToLower(s)[i]) <==> Str.IsSpace(s[i])
  {
  }

  /** Lower-casing a trimmed string leaves it trimmed. */
  lemma ToLowerKeepsTrimmed(s: string)
    requires Str.Trimmed(s)
    ensures Str.Trimmed(Str.ToLower(s))
  {
    ToLowerKeepsSpaces(s);
  }

  /** A declared or served media type as the comparison sees it: trimmed and lower-cased. */
  function Normalized(s: string): (r: string)
    ensures Str.Trimmed(r)
    ensures r == "" <==> Str.Blank(s)
    ensures r == Str.ToLower(Str.TrimSpace(s))
  {
    ToLowerKeepsTrimmed(Str.TrimSpace(s));
    Str.ToLower(Str.TrimSpace(s))
  }

  /** The media type of a Content-Type header: normalized, with any parameters after ';' cut off. */
  function MediaType(header: string): (r: string)
    ensures Str.Trimmed(r) && ';' !in r
    ensures ';' !in Normalized(header) ==> r == Normalized(header)
    ensures ';' in Normalized(header) ==>
      r == Str.TrimSpace(Normalized(header)[..Str.IndexOf(Normalized(header), ';')])
  {
    var actual := Normalized(header);
    var idx := Str.IndexOf(actual, ';');
    if idx >= 0 then
      TrimSpaceKeepsOut(actual[..idx], ';');
      Str.TrimSpace(actual[..idx])
    else actual
  }

  /** Trimming only removes characters, so a character absent before is absent after. */
  lemma {:induction false} TrimSpaceKeepsOut(s: string, c: char)
    requires c !in s
    ensures c !in Str.TrimSpace(s)
  {
    var right := Str.TrimRight(s);
    assert c !in right by {
      assert forall i | 0 <= i < |right| :: right[i] == s[i];
    }
    var left := Str.TrimLeft(right);
    assert forall i | 0 <= i < |left| :: left[i] == right[|right| - |left| + i];
  }

  /**
   * The mismatch the hook reports: the element declares a non-blank type, the response names a
   * media type, and the two differ.
   */
  predicate ContentTypeMismatch(ctx: Hooks.NodeContext, contentType: string) {
    var declared := ctx.Attribute("type");
    && declared.Some?
    && Normalized(declared.value) != ""
    && MediaType(contentType) != ""
    && MediaType(contentType) != Normalized(declared.value)
  }

  function Failure(reason: string): Results.Analysis {
    Results.Analysis(Results.CustomAnalysisCategory, Results.Fail, [reason], [])
  }

  /** mediaFileHTTPValidator: checks in order URL, transport, status code, content type. */
  function MediaFileHTTPValidator(ctx: Hooks.NodeContext, probe: Hooks.Probe): (r: Hooks.HttpOutcome)
    ensures r.err.None? && r.analysis.Some?
    ensures r.analysis.value.category == Results.CustomAnalysisCategory && r.analysis.value.attributes == []
    ensures r.analysis.value.status == Results.Fail || r.analysis.value.status == Results.Pass
    ensures r.analysis.value.status == Results.Fail <==>
      var url := ctx.Text();
      var outcome := probe(url);
      url == "" || outcome.ProbeError? || outcome.statusCode >= 400 || ContentTypeMismatch(ctx, outcome.contentType)
    ensures r.analysis.value.status == Results.Fail ==> |r.analysis.value.reasons| == 1
    ensures r.analysis.value.status == Results.Pass ==> r.analysis.value.reasons == []
    ensures ctx.Text() == "" ==> r.analysis.value.reasons == ["media file URL is empty"]
  {
    var url := ctx.Text();
    if url == "" then
      Hooks.HttpOutcome(Some(Failure("media file URL is empty")), None)
    else
      match probe(url)
      case ProbeError(message) =>
        Hooks.HttpOutcome(Some(Failure("media file request failed: " + message)), None)
      case Response(statusCode, contentType) =>
        if statusCode >= 400 then
          Hooks.HttpOutcome(Some(Failure("media file responded with HTTP " + Str.IntToString(statusCode))), None)
        else if ContentTypeMismatch(ctx, contentType) then
          var expected := Normalized(ctx.Attribute("type").value);
          var actual := MediaType(contentType);
          Hooks.HttpOutcome(Some(Failure("content type mismatch: expected " + expected + ", got " + actual)), None)
        else
          Hooks.HttpOutcome(Some(Results.Analysis(Results.CustomAnalysisCategory, Results.Pass, [], [])), None)
  }

  /** An empty URL is reported without any request: the probe's answers do not matter. */
  lemma EmptyURLIsNotProbed(ctx: Hooks.NodeContext, p1: Hooks.Probe, p2: Hooks.Probe)
    requires ctx.Text() == ""
    ensures MediaFileHTTPValidator(ctx, p1) == MediaFileHTTPValidator(ctx, p2)
  {
  }

  /** Transport errors and error statuses are reported with the error text and the status code. */
  lemma FailureReasons(ctx: Hooks.NodeContext, probe: Hooks.Probe)
    requires ctx.Text() != ""
    ensures probe(ctx.Text()).ProbeError? ==>
      MediaFileHTTPValidator(ctx, probe).analysis.value.reasons == ["media file request failed: " + probe(ctx.Text()).message]
    ensures probe(ctx.Text()).Response? && probe(ctx.Text()).statusCode >= 400 ==>
      MediaFileHTTPValidator(ctx, probe).analysis.value.reasons ==
        ["media file responded with HTTP " + Str.IntToString(probe(ctx.Text()).statusCode)]
    ensures (probe(ctx.Text()).Response? && probe(ctx.Text()).statusCode < 400
             && ContentTypeMismatch(ctx, probe(ctx.Text()).contentType)) ==>
      MediaFileHTTPValidator(ctx, probe).analysis.value.reasons ==
        ["content type mismatch: expected " + Normalized(ctx.Attribute("type").value)
           + ", got " + MediaType(probe(ctx.Text()).contentType)]
  {
  }

  /**
   * A reachable asset with a status below 400 passes whenever either side names no media type:
   * the element has no non-blank `type`, or the response has an empty Content-Type.
   */
  lemma MissingTypeNeverFails(ctx: Hooks.NodeContext, probe: Hooks.Probe)
    requires ctx.Text() != "" && probe(ctx.Text()).Response? && probe(ctx.Text()).statusCode < 400
    requires ctx.Attribute("type").None? || Str.Blank(ctx.Attribute("type").value) || Str.Blank(probe(ctx.Text()).contentType)
    ensures MediaFileHTTPValidator(ctx, probe).analysis.value.status == Results.Pass
  {
    var contentType := probe(ctx.Text()).contentType;
    if Str.Blank(contentType) {
      assert Normalized(contentType) == "";
      assert Str.IndexOf(Normalized(contentType), ';') == -1;
    }
  }

  /** registerBuiltInHTTPValidators: the hook is registered under "MediaFile". */
  method RegisterBuiltInHTTPValidators(registry: Hooks.HookRegistry<Hooks.HttpHook>)
    requires registry.Valid()
    modifies registry
    ensures registry.Valid()
    ensures registry.store == Hooks.WithHook(old(registry.store), "MediaFile", Some(MediaFileHTTPValidator))
  {
    registry.Register("MediaFile", Some(MediaFileHTTPValidator));
  }
}
