/** The long literals the lit.dev policies are written with, and the fact
    that every word they use is safe in a policy: ASCII, with no ';' and no
    ','. Each long literal is written as a concatenation of short pieces, so
    that the solver can check its characters a piece at a time; the value is
    the same string. */
module CspSources {
  import opened PolicyText

  /** The Google service that collects violation reports. */
  const ReportUri := "https://csp.with" + "google.com/csp/" + "lit-dev"
  /** The hash of the inline Google Analytics snippet, quoted as a source. */
  const GoogleAnalyticsInlineScriptHash :=
    "'sha256-bG+QS/Ob" + "2lFyxJ7r7PCtj/a8" + "YofLHFx4t55RzjR1" + "znI='"
  const TagManagerScript := "https://www.goog" + "letagmanager.com" + "/gtag/js"
  const YouTubeNoCookie := "https://www.yout" + "ube-nocookie.com/"
  const GoogleFonts := "https://fonts.gs" + "tatic.com/"

  lemma ShortWordsClean()
    ensures SafeWord("'self'") && SafeWord("'none'") && SafeWord("data:") && SafeWord("ws:")
    ensures SafeWord("'unsafe-eval'") && SafeWord("'unsafe-inline'")
    ensures SafeWord("https://unpkg.com/") && SafeWord("https://i.ytimg.com/")
  {
    KeywordsSafe();
    ShortUrlsSafe();
  }

  lemma KeywordsSafe()
    ensures SafeWord("'self'") && SafeWord("'none'") && SafeWord("data:") && SafeWord("ws:")
    ensures SafeWord("'unsafe-eval'") && SafeWord("'unsafe-inline'")
  {
  }

  lemma ShortUrlsSafe()
    ensures SafeWord("https://unpkg.com/") && SafeWord("https://i.ytimg.com/")
  {
  }

  lemma FetchNamesClean()
    ensures SafeWord("script-src") && SafeWord("connect-src") && SafeWord("frame-src")
    ensures SafeWord("style-src") && SafeWord("font-src") && SafeWord("img-src")
  {
  }

  lemma OtherNamesClean()
    ensures SafeWord("object-src") && SafeWord("default-src") && SafeWord("base-uri")
    ensures SafeWord("form-action") && SafeWord("frame-ancestors") && SafeWord("report-uri")
  {
  }

  lemma ScriptUrlsClean()
    ensures SafeWord(ReportUri) && SafeWord(TagManagerScript)
  {
  }

  lemma OtherUrlsClean()
    ensures SafeWord(YouTubeNoCookie) && SafeWord(GoogleFonts)
  {
  }

  lemma AnalyticsHashClean()
    ensures SafeWord(GoogleAnalyticsInlineScriptHash)
    ensures GoogleAnalyticsInlineScriptHash != []
    ensures GoogleAnalyticsInlineScriptHash[|GoogleAnalyticsInlineScriptHash| - 1] == '\''
  {
  }
}
