/** The Content Security Policy middleware of the lit.dev server.

    Three policies are fixed when the middleware is created: one for HTML
    pages, one for the playground's TypeScript worker script and a strict
    fallback for everything else. After the downstream handlers have produced
    the response, the middleware picks one of them and sets it as the
    `Content-Security-Policy-Report-Only` header. */
module ContentSecurityPolicy {
  import opened Wrappers
  import opened PolicyText
  import opened CspSources
  import opened CspDirectives

  /** The middleware's options. An absent `devMode` or `reportViolations`
      reads as false. */
  datatype Options = Options(
    devMode: bool,
    reportViolations: bool,
    inlineScriptHashes: Option<seq<string>>,
    playgroundPreviewOrigin: string)

  const ReportOnlyHeader := "Content-Security-Policy-Report-Only"
  const WorkerPathSuffix := "/playground-typescript-worker.js"
  const HtmlType := "text/html"

  // ---------------------------------------------------------------------
  // makePolicy and the three policies

  /** The directives `makePolicy` emits for the given ones: those first, then
      the three restrictions, then the report address when violations are
      reported. */
  function PolicyDirectives(reportViolations: bool, ds: seq<Directive>): (r: seq<Directive>)
    ensures |r| == |ds| + 3 + (if reportViolations then 1 else 0)
    ensures r[..|ds|] == ds
    ensures r[|ds|..|ds| + 3] == [BaseUriNone, FormActionNone, FrameAncestorsNone]
    ensures reportViolations ==> r[|r| - 1] == ReportDirective
  {
    ds + [BaseUriNone, FormActionNone, FrameAncestorsNone]
    + (if reportViolations then [ReportDirective] else [])
  }

  function MakePolicy(reportViolations: bool, ds: seq<Directive>): (policy: string) {
    Join(Texts(PolicyDirectives(reportViolations, ds)), "; ")
  }

  /** Each hash in single quotes. The ensures spell out the body pointwise,
      for the lemmas about `ScriptSources` to use. */
  function Quoted(hashes: seq<string>): (r: seq<string>)
    ensures |r| == |hashes|
    ensures forall i :: 0 <= i < |hashes| ==> r[i] == "'" + hashes[i] + "'"
  {
    seq(|hashes|, i requires 0 <= i < |hashes| => "'" + hashes[i] + "'")
  }

  /** The sources of the HTML policy's script-src, in order: the four fixed
      ones, each configured hash in quotes, and data: in dev mode. */
  function ScriptSources(opts: Options): (r: seq<string>)
    ensures |r| >= 4 && r[..4] == ["'self'", "'unsafe-eval'", TagManagerScript, GoogleAnalyticsInlineScriptHash]
    ensures var hashes := opts.inlineScriptHashes.GetOr([]);
      && |r| == 4 + |hashes| + (if opts.devMode then 1 else 0)
      && (forall i :: 0 <= i < |hashes| ==> r[4 + i] == "'" + hashes[i] + "'")
      && (opts.devMode ==> r[|r| - 1] == "data:")
  {
    ["'self'", "'unsafe-eval'", TagManagerScript, GoogleAnalyticsInlineScriptHash]
    + Quoted(opts.inlineScriptHashes.GetOr([]))
    + (if opts.devMode then ["data:"] else [])
  }

  function ConnectSources(opts: Options): (r: seq<string>) {
    ["'self'", "https://unpkg.com/"] + (if opts.devMode then ["ws:"] else [])
  }

  function FrameSrc(opts: Options): (d: Directive) {
    Directive("frame-src", [opts.playgroundPreviewOrigin, YouTubeNoCookie])
  }

  function HtmlDirectives(opts: Options): (ds: seq<Directive>) {
    [ Directive("script-src", ScriptSources(opts)),
      Directive("connect-src", ConnectSources(opts)),
      FrameSrc(opts),
      StyleSrc, FontSrc, ImgSrc, ObjectSrcNone, DefaultSrcSelf ]
  }

  function HtmlCsp(opts: Options): (policy: string) {
    MakePolicy(opts.reportViolations, HtmlDirectives(opts))
  }

  function PlaygroundWorkerCsp(opts: Options): (policy: string) {
    MakePolicy(opts.reportViolations, WorkerDirectives)
  }

  function StrictFallbackCsp(opts: Options): (policy: string) {
    MakePolicy(opts.reportViolations, StrictDirectives)
  }

  predicate EndsWith(s: string, suffix: string) {
    |suffix| <= |s| && s[|s| - |suffix|..] == suffix
  }

  /** The directives of the policy chosen for a response: HTML by content
      type first, then the worker script by path, then the fallback. The
      ensures spell out the choice, for `SelectPolicy` and the lemmas after it. */
  function SelectedDirectives(opts: Options, responseType: string, path: string): (ds: seq<Directive>)
    ensures responseType == HtmlType ==> ds == HtmlDirectives(opts)
    ensures responseType != HtmlType && EndsWith(path, WorkerPathSuffix) ==> ds == WorkerDirectives
    ensures responseType != HtmlType && !EndsWith(path, WorkerPathSuffix) ==> ds == StrictDirectives
  {
    if responseType == HtmlType then HtmlDirectives(opts)
    else if EndsWith(path, WorkerPathSuffix) then WorkerDirectives
    else StrictDirectives
  }

  function SelectPolicy(opts: Options, responseType: string, path: string): (policy: string)
    ensures responseType == HtmlType ==> policy == HtmlCsp(opts)
    ensures responseType != HtmlType && EndsWith(path, WorkerPathSuffix) ==> policy == PlaygroundWorkerCsp(opts)
    ensures responseType != HtmlType && !EndsWith(path, WorkerPathSuffix) ==> policy == StrictFallbackCsp(opts)
  {
    MakePolicy(opts.reportViolations, SelectedDirectives(opts, responseType, path))
  }

  // ---------------------------------------------------------------------
  // The chosen policy, read back

  /** What the options must avoid for the policies to read back as written:
      a ';' in the preview origin or in a script hash would end the directive
      early, a ',' would end the policy, and a character outside ASCII would
      make the browser skip the directive. */
  predicate SafeOptions(opts: Options) {
    && SafeWord(opts.playgroundPreviewOrigin)
    && (opts.inlineScriptHashes.Some? ==>
          forall i :: 0 <= i < |opts.inlineScriptHashes.value| ==> SafeWord(opts.inlineScriptHashes.value[i]))
  }

  /** A policy built from clean directives is a single policy of the header,
      and reading it back gives the texts of the directives `makePolicy`
      emits, in order. */
  lemma ParseMakePolicy(reportViolations: bool, ds: seq<Directive>)
    requires forall i :: 0 <= i < |ds| ==> Clean(Text(ds[i]))
    ensures ParsePolicy(MakePolicy(reportViolations, ds)) == Texts(PolicyDirectives(reportViolations, ds))
    ensures ParseHeader(MakePolicy(reportViolations, ds)) == [Texts(PolicyDirectives(reportViolations, ds))]
  {
    var all := PolicyDirectives(reportViolations, ds);
    RestrictionsClean();
    ReportDirectiveClean();
    forall i | 0 <= i < |all|
      ensures Clean(Text(all[i]))
    {
      if i < |ds| {
        assert all[i] == ds[i];
      } else if i < |ds| + 3 {
        assert all[i] in [BaseUriNone, FormActionNone, FrameAncestorsNone];
      } else {
        assert all[i] == ReportDirective;
      }
    }
    ParseJoinedTexts(all);
    HeaderOfJoinedTexts(all);
  }

  lemma ScriptSourcesSafe(opts: Options)
    requires SafeOptions(opts)
    ensures forall i :: 0 <= i < |ScriptSources(opts)| ==> SafeWord(ScriptSources(opts)[i])
  {
    var r := ScriptSources(opts);
    var hashes := opts.inlineScriptHashes.GetOr([]);
    ShortWordsClean();
    ScriptUrlsClean();
    AnalyticsHashClean();
    forall i | 0 <= i < |r|
      ensures SafeWord(r[i])
    {
      if 4 <= i < 4 + |hashes| {
        assert r[i] == "'" + hashes[i - 4] + "'";
        QuotedSafe(hashes[i - 4]);
      } else if i < 4 {
        assert r[i] == r[..4][i];
      }
    }
  }

  lemma QuotedSafe(h: string)
    requires SafeWord(h)
    ensures SafeWord("'" + h + "'")
  {
  }

  lemma QuotedEndClean(h: string)
    ensures EndsClean("'" + h + "'")
  {
    var q := "'" + h + "'";
    assert q[|q| - 1] == '\'';
  }

  lemma ScriptSourcesEndClean(opts: Options)
    ensures EndsClean(ScriptSources(opts)[|ScriptSources(opts)| - 1])
  {
    var r := ScriptSources(opts);
    var hashes := opts.inlineScriptHashes.GetOr([]);
    var last := r[|r| - 1];
    if opts.devMode {
      assert last == "data:";
      assert last[|last| - 1] == ':';
    } else if hashes != [] {
      assert last == "'" + hashes[|hashes| - 1] + "'";
      QuotedEndClean(hashes[|hashes| - 1]);
    } else {
      assert |r| == 4;
      assert last == r[..4][3] == GoogleAnalyticsInlineScriptHash;
      AnalyticsHashClean();
    }
  }

  lemma ScriptSrcClean(opts: Options)
    requires SafeOptions(opts)
    ensures Clean(Text(Directive("script-src", ScriptSources(opts))))
  {
    FetchNamesClean();
    ScriptSourcesSafe(opts);
    ScriptSourcesEndClean(opts);
    TextClean(Directive("script-src", ScriptSources(opts)));
  }

  lemma ConnectSrcClean(opts: Options)
    ensures Clean(Text(Directive("connect-src", ConnectSources(opts))))
  {
    FetchNamesClean();
    ShortWordsClean();
    TextClean(Directive("connect-src", ConnectSources(opts)));
  }

  lemma FrameSrcClean(opts: Options)
    requires SafeOptions(opts)
    ensures Clean(Text(FrameSrc(opts)))
  {
    FetchNamesClean();
    OtherUrlsClean();
    assert YouTubeNoCookie[|YouTubeNoCookie| - 1] == '/';
    TextClean(FrameSrc(opts));
  }

  /** The `connect-src` text is the template literal of the source:
      `'self'` and unpkg.com, then ` ws:` in dev mode. */
  lemma ConnectSrcText(opts: Options)
    ensures Text(Directive("connect-src", ConnectSources(opts)))
         == "connect-src" + " " + "'self'" + " " + "https://unpkg.com/" + (if opts.devMode then " " + "ws:" else "")
  {
    var tail := if opts.devMode then ["ws:"] else [];
    if opts.devMode {
      JoinCons("https://unpkg.com/", tail, " ");
    }
    JoinCons("'self'", ["https://unpkg.com/"] + tail, " ");
    JoinCons("connect-src", ["'self'", "https://unpkg.com/"] + tail, " ");
    assert ["connect-src"] + ConnectSources(opts) == ["connect-src"] + (["'self'", "https://unpkg.com/"] + tail);
  }

  /** The `frame-src` text is the template literal of the source: the
      preview origin as given, then the privacy-enhanced YouTube origin. */
  lemma FrameSrcText(opts: Options)
    ensures Text(FrameSrc(opts)) == "frame-src " + opts.playgroundPreviewOrigin + " " + YouTubeNoCookie
  {
    JoinCons(opts.playgroundPreviewOrigin, [YouTubeNoCookie], " ");
    JoinCons("frame-src", [opts.playgroundPreviewOrigin, YouTubeNoCookie], " ");
  }

  /** A preview origin with a character outside ASCII, which Node lets
      through into a header value, makes the browser skip the whole
      `frame-src` directive, wherever it stands in the policy. */
  lemma NonAsciiOriginSkipsFrameSrc(opts: Options, rest: seq<string>)
    requires !IsAscii(opts.playgroundPreviewOrigin)
    ensures Tokens([Text(FrameSrc(opts))] + rest) == Tokens(rest)
  {
    var origin := opts.playgroundPreviewOrigin;
    var t := Text(FrameSrc(opts));
    FrameSrcText(opts);
    var k :| 0 <= k < |origin| && !(origin[k] <= '\U{007F}');
    assert t[10 + k] == origin[k];
    assert TrimStart(t) == t by { assert t[0] == 'f'; }
    assert TrimEnd(t) == t by { assert t[|t| - 1] == YouTubeNoCookie[|YouTubeNoCookie| - 1] == '/'; }
    NonAsciiTokenSkipped(t, rest);
  }

  /** A ',' in the preview origin splits the HTML pages' header into several
      policies, the first ending inside `frame-src`. */
  lemma CommaOriginSplitsHtmlCsp(opts: Options)
    requires ',' in opts.playgroundPreviewOrigin
    ensures |ParseHeader(HtmlCsp(opts))| >= 2
  {
    var origin := opts.playgroundPreviewOrigin;
    var t := Text(FrameSrc(opts));
    FrameSrcText(opts);
    var k :| 0 <= k < |origin| && origin[k] == ',';
    assert t[10 + k] == ',';
    var texts := Texts(PolicyDirectives(opts.reportViolations, HtmlDirectives(opts)));
    assert texts[2] == t;
    JoinContains(texts, "; ", 2, ',');
    CommaMakesSeveralPolicies(HtmlCsp(opts));
  }

  lemma SelectedDirectivesClean(opts: Options, responseType: string, path: string)
    requires SafeOptions(opts)
    ensures var ds := SelectedDirectives(opts, responseType, path);
      forall i :: 0 <= i < |ds| ==> Clean(Text(ds[i]))
  {
    WorkerAndStrictClean();
    ScriptSrcClean(opts);
    ConnectSrcClean(opts);
    FrameSrcClean(opts);
    StyleAndFontClean();
    ImgObjectDefaultClean();
  }

  /** The header value the middleware sets reads back as the chosen
      directives followed by the three restrictions and, when violations
      are reported, the report address. */
  lemma SelectedPolicyParses(opts: Options, responseType: string, path: string)
    requires SafeOptions(opts)
    ensures ParsePolicy(SelectPolicy(opts, responseType, path))
         == Texts(PolicyDirectives(opts.reportViolations, SelectedDirectives(opts, responseType, path)))
    ensures ParseHeader(SelectPolicy(opts, responseType, path))
         == [Texts(PolicyDirectives(opts.reportViolations, SelectedDirectives(opts, responseType, path)))]
  {
    SelectedDirectivesClean(opts, responseType, path);
    ParseMakePolicy(opts.reportViolations, SelectedDirectives(opts, responseType, path));
  }

  /** The fallback policy is `default-src 'none'` and the three
      restrictions, then the report address when violations are reported. */
  lemma StrictFallbackReadsBack(opts: Options)
    ensures ParsePolicy(StrictFallbackCsp(opts))
         == [Text(DefaultSrcNone), Text(BaseUriNone), Text(FormActionNone), Text(FrameAncestorsNone)]
            + (if opts.reportViolations then [Text(ReportDirective)] else [])
  {
    WorkerAndStrictClean();
    ParseMakePolicy(opts.reportViolations, StrictDirectives);
  }

  /** The HTML pages' policy, with safe options, is one policy of the
      header: its eight directives in the source's order, then the
      restrictions and the report address when violations are reported. */
  lemma HtmlCspReadsBack(opts: Options)
    requires SafeOptions(opts)
    ensures ParseHeader(HtmlCsp(opts)) == [ParsePolicy(HtmlCsp(opts))]
    ensures ParsePolicy(HtmlCsp(opts))
         == [Text(Directive("script-src", ScriptSources(opts))), Text(Directive("connect-src", ConnectSources(opts))),
             Text(FrameSrc(opts)), Text(StyleSrc), Text(FontSrc), Text(ImgSrc), Text(ObjectSrcNone), Text(DefaultSrcSelf)]
            + RestrictionTexts(opts.reportViolations)
  {
    SelectedDirectivesClean(opts, HtmlType, "");
    assert SelectedDirectives(opts, HtmlType, "") == HtmlDirectives(opts);
    ParseMakePolicy(opts.reportViolations, HtmlDirectives(opts));
    TrailingTexts(opts.reportViolations, HtmlDirectives(opts));
    HtmlTexts(opts);
  }

  lemma HtmlTexts(opts: Options)
    ensures Texts(HtmlDirectives(opts))
         == [Text(Directive("script-src", ScriptSources(opts))), Text(Directive("connect-src", ConnectSources(opts))),
             Text(FrameSrc(opts)), Text(StyleSrc), Text(FontSrc), Text(ImgSrc), Text(ObjectSrcNone), Text(DefaultSrcSelf)]
  {
  }

  /** The texts `makePolicy` puts after the given directives. */
  function RestrictionTexts(reportViolations: bool): (ts: seq<string>) {
    [Text(BaseUriNone), Text(FormActionNone), Text(FrameAncestorsNone)]
    + (if reportViolations then [Text(ReportDirective)] else [])
  }

  lemma TrailingTexts(reportViolations: bool, ds: seq<Directive>)
    ensures Texts(PolicyDirectives(reportViolations, ds)) == Texts(ds) + RestrictionTexts(reportViolations)
  {
    var rest := [BaseUriNone, FormActionNone, FrameAncestorsNone] + (if reportViolations then [ReportDirective] else []);
    assert PolicyDirectives(reportViolations, ds) == ds + rest;
    TextsAppend(ds, rest);
  }

  /** The worker script's policy allows `eval` and fetching modules from
      unpkg.com, denies everything else, then carries the same restrictions. */
  lemma PlaygroundWorkerReadsBack(opts: Options)
    ensures ParsePolicy(PlaygroundWorkerCsp(opts))
         == [Text(WorkerScriptSrc), Text(WorkerConnectSrc), Text(DefaultSrcNone),
             Text(BaseUriNone), Text(FormActionNone), Text(FrameAncestorsNone)]
            + (if opts.reportViolations then [Text(ReportDirective)] else [])
  {
    WorkerAndStrictClean();
    ParseMakePolicy(opts.reportViolations, WorkerDirectives);
    var all := PolicyDirectives(opts.reportViolations, WorkerDirectives);
    assert all == [WorkerScriptSrc, WorkerConnectSrc, DefaultSrcNone, BaseUriNone, FormActionNone, FrameAncestorsNone]
                  + (if opts.reportViolations then [ReportDirective] else []);
  }

  /** Whatever the response, its policy forbids <base> rewriting, form
      submission and framing by other sites. */
  lemma EveryPolicyKeepsRestrictions(opts: Options, responseType: string, path: string)
    requires SafeOptions(opts)
    ensures var directives := ParsePolicy(SelectPolicy(opts, responseType, path));
      && Text(BaseUriNone) in directives
      && Text(FormActionNone) in directives
      && Text(FrameAncestorsNone) in directives
  {
    SelectedPolicyParses(opts, responseType, path);
    var ds := SelectedDirectives(opts, responseType, path);
    var all := PolicyDirectives(opts.reportViolations, ds);
    assert all[|ds|] == BaseUriNone && all[|ds| + 1] == FormActionNone && all[|ds| + 2] == FrameAncestorsNone;
    assert Texts(all)[|ds|] == Text(BaseUriNone);
    assert Texts(all)[|ds| + 1] == Text(FormActionNone);
    assert Texts(all)[|ds| + 2] == Text(FrameAncestorsNone);
  }

  /** A directive whose name does not start with 'r', as the name of the
      report directive does. */
  predicate NotReportLike(d: Directive) {
    d.name != [] && d.name[0] != 'r'
  }

  lemma {:induction false} ReportOnlyWhenAsked(reportViolations: bool, ds: seq<Directive>)
    requires forall i :: 0 <= i < |ds| ==> NotReportLike(ds[i])
    ensures Text(ReportDirective) in Texts(PolicyDirectives(reportViolations, ds)) <==> reportViolations
  {
    var all := PolicyDirectives(reportViolations, ds);
    var ts := Texts(all);
    TextStart(ReportDirective);
    if reportViolations {
      assert ts[|ts| - 1] == Text(ReportDirective);
    } else {
      forall i | 0 <= i < |ts|
        ensures ts[i] != Text(ReportDirective)
      {
        assert all[i] in ds || all[i] in [BaseUriNone, FormActionNone, FrameAncestorsNone];
        TextStart(all[i]);
      }
    }
  }

  lemma SelectedNotReportLike(opts: Options, responseType: string, path: string)
    ensures var ds := SelectedDirectives(opts, responseType, path);
      forall i :: 0 <= i < |ds| ==> NotReportLike(ds[i])
  {
  }

  /** The report address is part of the chosen policy exactly when
      violations are reported. */
  lemma EveryPolicyReportsIffEnabled(opts: Options, responseType: string, path: string)
    requires SafeOptions(opts)
    ensures Text(ReportDirective) in ParsePolicy(SelectPolicy(opts, responseType, path)) <==> opts.reportViolations
  {
    SelectedPolicyParses(opts, responseType, path);
    SelectedNotReportLike(opts, responseType, path);
    ReportOnlyWhenAsked(opts.reportViolations, SelectedDirectives(opts, responseType, path));
  }

  /** Only dev mode lets the HTML pages run data: scripts and open ws:
      connections. */
  lemma DevModeSources(opts: Options)
    ensures "data:" in ScriptSources(opts) <==> opts.devMode
    ensures "ws:" in ConnectSources(opts) <==> opts.devMode
  {
    var r := ScriptSources(opts);
    var hashes := opts.inlineScriptHashes.GetOr([]);
    if !opts.devMode {
      AnalyticsHashClean();
      forall i | 0 <= i < |r|
        ensures r[i] != "data:"
      {
        if i >= 4 {
          assert r[i] == "'" + hashes[i - 4] + "'";
          assert r[i][0] == '\'';
        } else if i == 3 {
          assert r[i] == GoogleAnalyticsInlineScriptHash;
          assert |r[i]| != |"data:"|;
        } else {
          assert r[i] == r[..4][i];
        }
      }
    }
  }

  // ---------------------------------------------------------------------
  // The middleware

  /** A header name as Node's `setHeader` files it: ASCII letters in lower
      case, so that names differing only in case are the same header. */
  function LowerChar(c: char): (l: char) {
    if 'A' <= c <= 'Z' then (c as int + 32) as char else c
  }

  /** The name in ASCII lower case. The ensures spell out the body pointwise,
      for the lemmas about `SetHeader` to use. */
  function Lower(name: string): (r: string)
    ensures |r| == |name|
    ensures forall i :: 0 <= i < |name| ==> r[i] == LowerChar(name[i])
  {
    seq(|name|, i requires 0 <= i < |name| => LowerChar(name[i]))
  }

  lemma LowerIdempotent(name: string)
    ensures Lower(Lower(name)) == Lower(name)
  {
  }

  /** A header store: every name is kept in its lower-case form. */
  predicate HeaderStore(headers: map<string, string>) {
    forall k :: k in headers ==> Lower(k) == k
  }

  /** `ctx.set(name, value)`: the header of that name, in any case, now holds
      the value, no other header of that name remains, and every other header
      is kept. */
  function SetHeader(headers: map<string, string>, name: string, value: string): (r: map<string, string>)
    ensures Lower(name) in r && r[Lower(name)] == value
    ensures forall k :: k in headers && k != Lower(name) ==> k in r && r[k] == headers[k]
    ensures forall k :: k in r ==> k in headers || k == Lower(name)
    ensures HeaderStore(headers) ==> HeaderStore(r)
    ensures HeaderStore(headers) ==> forall k :: k in r && Lower(k) == Lower(name) ==> k == Lower(name)
  {
    LowerIdempotent(name);
    headers[Lower(name) := value]
  }

  /** The response as the downstream handlers leave it: its content type as
      Koa reports it (without parameters) and its header store. */
  datatype Response = Response(contentType: string, headers: map<string, string>)

  /** The part of a Koa context the middleware reads and writes. */
  class Context {
    const path: string
    var responseType: string
    var headers: map<string, string>

    constructor (path: string)
      ensures this.path == path && responseType == "" && headers == map[]
    {
      this.path := path;
      responseType := "";
      headers := map[];
    }
  }

  /** The middleware: the three policies are computed once, from the
      options it was created with. */
  class Middleware {
    const opts: Options
    const htmlCsp: string
    const playgroundWorkerCsp: string
    const strictFallbackCsp: string

    predicate Valid() {
      && htmlCsp == HtmlCsp(opts)
      && playgroundWorkerCsp == PlaygroundWorkerCsp(opts)
      && strictFallbackCsp == StrictFallbackCsp(opts)
    }

    constructor (opts: Options)
      ensures this.opts == opts && Valid()
    {
      this.opts := opts;
      htmlCsp := HtmlCsp(opts);
      playgroundWorkerCsp := PlaygroundWorkerCsp(opts);
      strictFallbackCsp := StrictFallbackCsp(opts);
    }

    /** Handling one request: let the downstream handlers run; when they
        finish, set the report-only header to the policy the response calls
        for, replacing any header of that name. When they reject, the
        rejection passes through and no header is set. */
    method Handle(ctx: Context, downstream: Result<Response, string>) returns (rejected: Option<string>)
      requires Valid()
      modifies ctx
      ensures downstream.Err? ==>
        && rejected == Some(downstream.error)
        && ctx.responseType == old(ctx.responseType) && ctx.headers == old(ctx.headers)
      ensures downstream.Ok? ==>
        && rejected == None
        && ctx.responseType == downstream.value.contentType
        && ctx.headers == SetHeader(downstream.value.headers, ReportOnlyHeader,
                                    SelectPolicy(opts, downstream.value.contentType, ctx.path))
    {
      if downstream.Err? {
        return Some(downstream.error);
      }
      ctx.responseType := downstream.value.contentType;
      ctx.headers := downstream.value.headers;
      var policy;
      if ctx.responseType == HtmlType {
        policy := htmlCsp;
      } else if EndsWith(ctx.path, WorkerPathSuffix) {
        policy := playgroundWorkerCsp;
      } else {
        policy := strictFallbackCsp;
      }
      ctx.headers := SetHeader(ctx.headers, ReportOnlyHeader, policy);
      rejected := None;
    }
  }
}
