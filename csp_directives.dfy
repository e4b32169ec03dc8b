/** The directives of the lit.dev policies that do not depend on the
    middleware's options. Each is shown well formed here, so that a policy
    made of them reads back as written. */
module CspDirectives {
  import opened PolicyText
  import opened CspSources

  /** What every policy ends with: no <base> rewriting, no form submission,
      no framing by other sites. */
  const BaseUriNone := Directive("base-uri", ["'none'"])
  const FormActionNone := Directive("form-action", ["'none'"])
  const FrameAncestorsNone := Directive("frame-ancestors", ["'none'"])
  const ReportDirective := Directive("report-uri", [ReportUri])

  /** The directives of the HTML policy that are the same in every mode. */
  const StyleSrc := Directive("style-src", ["'self'", "'unsafe-inline'"])
  const FontSrc := Directive("font-src", ["'self'", GoogleFonts])
  const ImgSrc := Directive("img-src", ["'self'", "data:", "https://i.ytimg.com/"])
  const ObjectSrcNone := Directive("object-src", ["'none'"])
  const DefaultSrcSelf := Directive("default-src", ["'self'"])

  /** The playground worker's policy and the fallback policy. */
  const WorkerScriptSrc := Directive("script-src", ["'unsafe-eval'"])
  const WorkerConnectSrc := Directive("connect-src", ["https://unpkg.com/"])
  const DefaultSrcNone := Directive("default-src", ["'none'"])
  const WorkerDirectives := [WorkerScriptSrc, WorkerConnectSrc, DefaultSrcNone]
  const StrictDirectives := [DefaultSrcNone]

  lemma RestrictionsClean()
    ensures Clean(Text(BaseUriNone)) && Clean(Text(FormActionNone))
    ensures Clean(Text(FrameAncestorsNone))
  {
    FetchNamesClean();
    OtherNamesClean();
    ShortWordsClean();
    TextClean(BaseUriNone);
    TextClean(FormActionNone);
    TextClean(FrameAncestorsNone);
  }

  lemma ReportDirectiveClean()
    ensures Clean(Text(ReportDirective))
  {
    FetchNamesClean();
    OtherNamesClean();
    ScriptUrlsClean();
    assert ReportUri[|ReportUri| - 1] == 'v';
    TextClean(ReportDirective);
  }

  lemma StyleAndFontClean()
    ensures Clean(Text(StyleSrc)) && Clean(Text(FontSrc))
  {
    FetchNamesClean();
    OtherNamesClean();
    ShortWordsClean();
    OtherUrlsClean();
    assert GoogleFonts[|GoogleFonts| - 1] == '/';
    TextClean(StyleSrc);
    TextClean(FontSrc);
  }

  lemma ImgObjectDefaultClean()
    ensures Clean(Text(ImgSrc)) && Clean(Text(ObjectSrcNone)) && Clean(Text(DefaultSrcSelf))
  {
    FetchNamesClean();
    OtherNamesClean();
    ShortWordsClean();
    TextClean(ImgSrc);
    TextClean(ObjectSrcNone);
    TextClean(DefaultSrcSelf);
  }

  lemma WorkerAndStrictClean()
    ensures forall i :: 0 <= i < |WorkerDirectives| ==> Clean(Text(WorkerDirectives[i]))
    ensures forall i :: 0 <= i < |StrictDirectives| ==> Clean(Text(StrictDirectives[i]))
  {
    FetchNamesClean();
    OtherNamesClean();
    ShortWordsClean();
    TextClean(WorkerScriptSrc);
    TextClean(WorkerConnectSrc);
    TextClean(DefaultSrcNone);
  }
}
