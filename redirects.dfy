/** Redirect tables of the lit.dev server.

    The page redirect table is written as (path, target) pairs; each path is
    canonicalised by appending '/' when it matches the pattern `/[^/.]+$`
    (a '/' followed by a final segment that is non-empty and has neither '/'
    nor '.'). The two tables for the legacy lit-html and LitElement sites are
    used as written. */
module Redirects {

  type Table = seq<(string, string)>

  // ---------------------------------------------------------------------------
  // The pattern /\/[^\/\.]+$/ and key canonicalisation

  /** No character of `seg` is '/' or '.', and `seg` is not empty. */
  predicate IsPlainSegment(seg: string) {
    seg != [] && '/' !in seg && '.' !in seg
  }

  /** The pattern `/[^/.]+$`: some '/' is followed, up to the end of the
      path, by a plain segment. */
  predicate MatchesPlainSegment(p: string) {
    exists k | 0 <= k < |p| - 1 :: p[k] == '/' && IsPlainSegment(p[k + 1..])
  }

  /** The key canonicalisation of the page redirect table. */
  function NormalizeKey(path: string): (r: string)
    ensures r == path || r == path + "/"
  {
    if MatchesPlainSegment(path) then path + "/" else path
  }

  /** A '/' is appended exactly when the path matches the pattern. */
  lemma NormalizeKeyAppendsIffMatch(path: string)
    ensures NormalizeKey(path) == path + "/" <==> MatchesPlainSegment(path)
    ensures NormalizeKey(path) == path <==> !MatchesPlainSegment(path)
  {
    assert path + "/" != path by { assert |path + "/"| != |path|; }
  }

  /** A canonical key no longer matches the pattern: it ends with '/', or
      its final segment holds a '.', or it holds no '/' at all. */
  lemma NormalizedKeyIsStable(path: string)
    ensures !MatchesPlainSegment(NormalizeKey(path))
  {
    var r := NormalizeKey(path);
    if r == path + "/" {
      assert r[|r| - 1] == '/';
    }
  }

  /** Canonicalising twice is canonicalising once. */
  lemma NormalizeKeyIdempotent(path: string)
    ensures NormalizeKey(NormalizeKey(path)) == NormalizeKey(path)
  {
    NormalizedKeyIsStable(path);
    NormalizeKeyAppendsIffMatch(NormalizeKey(path));
  }

  /** Canonicalisation only ever appends, and at most one character. */
  lemma NormalizeKeyExtends(path: string)
    ensures var r := NormalizeKey(path);
      |path| <= |r| <= |path| + 1 && r[..|path|] == path
  {
  }

  /** A path whose final segment holds a '.' is left as it is. This is why
      release-note paths such as `1.3.0` need their own entries. */
  lemma DottedLastSegmentUnchanged(prefix: string, rest: string)
    requires '/' !in rest
    ensures NormalizeKey(prefix + "." + rest) == prefix + "." + rest
  {
    var p := prefix + "." + rest;
    NormalizeKeyAppendsIffMatch(p);
    forall k | |prefix| <= k < |p|
      ensures p[k] != '/'
    {
      if k > |prefix| {
        assert p[k] == rest[k - |prefix| - 1];
      }
    }
    forall k | 0 <= k < |prefix|
      ensures p[k] == '/' ==> !IsPlainSegment(p[k + 1..])
    {
      assert p[k + 1..][|prefix| - k - 1] == '.';
    }
  }

  /** A '/' followed by a plain segment is canonicalised by appending '/'. */
  lemma PlainLastSegmentGetsSlash(prefix: string, seg: string)
    requires prefix != [] && prefix[|prefix| - 1] == '/'
    requires IsPlainSegment(seg)
    ensures NormalizeKey(prefix + seg) == prefix + seg + "/"
  {
    var p := prefix + seg;
    NormalizeKeyAppendsIffMatch(p);
    assert p[|prefix| - 1] == '/' && p[|prefix|..] == seg;
  }

  // ---------------------------------------------------------------------------
  // Building a table: the entries in order, a later duplicate key overriding
  // an earlier one, as a JavaScript Map built from pairs does.

  function ToMap(entries: Table): (m: map<string, string>)
    ensures m.Keys == set i | 0 <= i < |entries| :: entries[i].0
  {
    if entries == [] then map[]
    else
      var init := ToMap(entries[..|entries| - 1]);
      var last := entries[|entries| - 1];
      assert forall i :: 0 <= i < |entries| - 1 ==> entries[..|entries| - 1][i] == entries[i];
      init[last.0 := last.1]
  }

  /** The keys of a table, in order. The ensures spell out the body pointwise,
      for `Distinct` and the lookup lemmas to use. */
  function Keys(entries: Table): (ks: seq<string>)
    ensures |ks| == |entries|
    ensures forall i :: 0 <= i < |entries| ==> ks[i] == entries[i].0
  {
    seq(|entries|, i requires 0 <= i < |entries| => entries[i].0)
  }

  predicate Distinct(ks: seq<string>) {
    forall i, j :: 0 <= i < j < |ks| ==> ks[i] != ks[j]
  }

  /** With pairwise distinct keys every entry of the table can be looked up. */
  lemma {:induction false} ToMapFindsEveryEntry(entries: Table, i: nat)
    requires Distinct(Keys(entries))
    requires i < |entries|
    ensures entries[i].0 in ToMap(entries) && ToMap(entries)[entries[i].0] == entries[i].1
    decreases |entries|
  {
    var init := entries[..|entries| - 1];
    if i < |entries| - 1 {
      assert Keys(init) == Keys(entries)[..|entries| - 1];
      ToMapFindsEveryEntry(init, i);
      assert entries[i] == init[i];
      assert Keys(entries)[i] != Keys(entries)[|entries| - 1];
    }
  }

  /** The table with every key canonicalised and every target kept. The
      ensures spell out the body pointwise, for the lemmas about
      `PageRedirects` to use. */
  function NormalizeTable(entries: Table): (r: Table)
    ensures |r| == |entries|
    ensures forall i :: 0 <= i < |entries| ==>
      r[i].0 == NormalizeKey(entries[i].0) && r[i].1 == entries[i].1
  {
    seq(|entries|, i requires 0 <= i < |entries| => (NormalizeKey(entries[i].0), entries[i].1))
  }

  // ---------------------------------------------------------------------------
  // The tables

  const PageRedirectEntries: Table := [
    ("/slack-invite", "https://join.slack.com/t/lit-and-friends/shared_invite/zt-llwznvsy-LZwT13R66gOgnrg12PUGqw"),
    ("/msg/dev-mode", "/docs/tools/development/#development-and-production-builds"),
    ("/msg/multiple-versions", "/docs/tools/requirements/"),
    ("/msg/polyfill-support-missing", "/docs/tools/requirements/#polyfills"),
    ("/msg/class-field-shadowing", "/docs/components/properties/#avoiding-issues-with-class-fields"),
    ("/msg/change-in-update", "/docs/components/properties/#when-properties-change"),
    ("/msg/deprecated-import-path", "/docs/releases/upgrade/#update-packages-and-import-paths"),
    ("/msg/removed-api", "/docs/releases/upgrade/#litelement"),
    ("/msg/renamed-api", "/docs/releases/upgrade/#update-to-renamed-apis"),
    ("/msg/undefined-attribute-value", "/docs/releases/upgrade/#litelement"),
    ("/msg/request-update-promise", "/docs/releases/upgrade/#litelement"),
    ("/msg/expression-in-template", "/docs/templates/expressions/#invalid-locations"),
    ("/msg/expression-in-textarea", "/docs/templates/expressions/#invalid-locations"),
    ("/docs/libraries/localization", "/docs/localization/overview/"),
    ("/blog/feed.xml", "/blog/atom.xml"),
    ("/docs/releases/release-notes/1.3.0.html", "/docs/releases/release-notes/1.3.0/"),
    ("/docs/releases/release-notes/1.2.0.html", "/docs/releases/release-notes/1.2.0/"),
    ("/docs/releases/release-notes/1.3.0", "/docs/releases/release-notes/1.3.0/"),
    ("/docs/releases/release-notes/1.2.0", "/docs/releases/release-notes/1.2.0/")
  ]

  const CanonicalPageRedirectEntries: Table := NormalizeTable(PageRedirectEntries)

  const PageRedirects: map<string, string> := ToMap(CanonicalPageRedirectEntries)

  const OldLitHtmlSiteRedirects: map<string, string> := map[
    "/" := "/",
    "/guide" := "/docs/v1/lit-html/introduction/",
    "/guide/getting-started" := "/docs/v1/lit-html/getting-started/",
    "/guide/writing-templates" := "/docs/v1/lit-html/writing-templates/",
    "/guide/styling-templates" := "/docs/v1/lit-html/styling-templates/",
    "/guide/rendering-templates" := "/docs/v1/lit-html/rendering-templates/",
    "/guide/creating-directives" := "/docs/v1/lit-html/creating-directives/",
    "/guide/template-reference" := "/docs/v1/lit-html/template-reference/",
    "/guide/concepts" := "/docs/v1/lit-html/concepts/",
    "/guide/tools" := "/docs/v1/lit-html/tools/",
    "/guide/community" := "/docs/v1/resources/community/",
    "/api/index.html" := "/docs/v1/api/lit-html/templates/",
    "/api/globals.html" := "/docs/v1/api/lit-html/templates/",
    "/api/classes/_lib_shady_render_.templateresult.html" := "/docs/v1/api/lit-html/templates/#TemplateResult",
    "/api/classes/_lit_html_.attributecommitter.html" := "/docs/v1/api/lit-html/custom-directives/#AttributeCommitter",
    "/api/classes/_lit_html_.attributepart.html" := "/docs/v1/api/lit-html/custom-directives/#AttributePart",
    "/api/classes/_lit_html_.booleanattributepart.html" := "/docs/v1/api/lit-html/custom-directives/#BooleanAttributePart",
    "/api/classes/_lit_html_.defaulttemplateprocessor.html" := "/docs/v1/api/lit-html/custom-directives/#DefaultTemplateProcessor",
    "/api/classes/_lit_html_.eventpart.html" := "/docs/v1/api/lit-html/custom-directives/#EventPart",
    "/api/classes/_lit_html_.nodepart.html" := "/docs/v1/api/lit-html/custom-directives/#NodePart",
    "/api/classes/_lit_html_.propertycommitter.html" := "/docs/v1/api/lit-html/custom-directives/#PropertyCommitter",
    "/api/classes/_lit_html_.propertypart.html" := "/docs/v1/api/lit-html/custom-directives/#PropertyPart",
    "/api/classes/_lit_html_.svgtemplateresult.html" := "/docs/v1/api/lit-html/templates/#SVGTemplateResult",
    "/api/classes/_lit_html_.template.html" := "/docs/v1/api/lit-html/custom-directives/#Template",
    "/api/classes/_lit_html_.templateinstance.html" := "/docs/v1/api/lit-html/custom-directives/#TemplateInstance",
    "/api/classes/_lit_html_.templateresult.html" := "/docs/v1/api/lit-html/templates/#TemplateResult",
    "/api/interfaces/_lib_shady_render_.shadyrenderoptions.html" := "/docs/v1/api/lit-html/shady/#ShadyRenderOptions",
    "/api/interfaces/_lit_html_.part.html" := "/docs/v1/api/lit-html/custom-directives/#Part",
    "/api/interfaces/_lit_html_.renderoptions.html" := "/docs/v1/api/lit-html/templates/#RenderOptions",
    "/api/interfaces/_lit_html_.templateprocessor.html" := "/docs/v1/api/lit-html/custom-directives/#TemplateProcessor",
    "/api/modules/_lib_shady_render_.html" := "/docs/v1/api/lit-html/shady/",
    "/api/modules/_lit_html_.html" := "/docs/v1/api/lit-html/templates/"
  ]

  const OldLitElementSiteRedirects: map<string, string> := map[
    "/" := "/",
    "/guide" := "/docs/v1/",
    "/guide/start" := "/docs/v1/getting-started/",
    "/guide/templates" := "/docs/v1/components/templates/",
    "/guide/styles" := "/docs/v1/components/styles/",
    "/guide/properties" := "/docs/v1/components/properties/",
    "/guide/events" := "/docs/v1/components/events/",
    "/guide/lifecycle" := "/docs/v1/components/lifecycle/",
    "/guide/decorators" := "/docs/v1/components/decorators/",
    "/guide/publish" := "/docs/v1/tools/publish/",
    "/guide/use" := "/docs/v1/tools/use/",
    "/guide/build" := "/docs/v1/tools/build/",
    "/guide/community" := "/docs/v1/resources/community/",
    "/try" := "/tutorial/",
    "/try/create" := "/tutorial/",
    "/try/properties" := "/tutorial/",
    "/try/logic" := "/tutorial/",
    "/try/events" := "/tutorial/",
    "/try/style" := "/tutorial/",
    "/api/index.html" := "/docs/v1/api/lit-element/LitElement/",
    "/api/globals.html" := "/docs/v1/api/lit-element/LitElement/",
    "/api/classes/_lib_updating_element_.updatingelement.html" := "/docs/v1/api/lit-element/UpdatingElement/#UpdatingElement",
    "/api/classes/_lit_element_.cssresult.html" := "/docs/v1/api/lit-element/styles/#CSSResult",
    "/api/classes/_lit_element_.litelement.html" := "/docs/v1/api/lit-element/LitElement/#LitElement",
    "/api/classes/_lit_element_.svgtemplateresult.html" := "/docs/v1/api/lit-html/templates/#SVGTemplateResult",
    "/api/classes/_lit_element_.templateresult.html" := "/docs/v1/api/lit-html/templates/#TemplateResult",
    "/api/classes/_lit_element_.updatingelement.html" := "/docs/v1/api/lit-element/UpdatingElement/#UpdatingElement",
    "/api/interfaces/_lib_updating_element_.complexattributeconverter.html" := "/docs/v1/api/lit-element/UpdatingElement/#ComplexAttributeConverter",
    "/api/interfaces/_lib_updating_element_.haschanged.html" := "/docs/v1/api/lit-element/UpdatingElement/#HasChanged",
    "/api/interfaces/_lib_updating_element_.propertydeclaration.html" := "/docs/v1/api/lit-element/UpdatingElement/#PropertyDeclaration",
    "/api/interfaces/_lib_updating_element_.propertydeclarations.html" := "/docs/v1/api/lit-element/UpdatingElement/#PropertyDeclarations",
    "/api/interfaces/_lit_element_.complexattributeconverter.html" := "/docs/v1/api/lit-element/UpdatingElement/#ComplexAttributeConverter",
    "/api/interfaces/_lit_element_.cssresultarray.html" := "/docs/v1/api/lit-element/styles/#CSSResultArray",
    "/api/interfaces/_lit_element_.haschanged.html" := "/docs/v1/api/lit-element/UpdatingElement/#HasChanged",
    "/api/interfaces/_lit_element_.internalpropertydeclaration.html" := "/docs/v1/api/lit-element/decorators/#InternalPropertyDeclaration",
    "/api/interfaces/_lit_element_.propertydeclaration.html" := "/docs/v1/api/lit-element/UpdatingElement/#PropertyDeclaration",
    "/api/interfaces/_lit_element_.propertydeclarations.html" := "/docs/v1/api/lit-element/UpdatingElement/#PropertyDeclarations",
    "/api/modules/_lib_updating_element_.html" := "/docs/v1/api/lit-element/UpdatingElement/",
    "/api/modules/_lit_element_.html" := "/docs/v1/api/lit-element/LitElement/"
  ]

  // ---------------------------------------------------------------------------
  // Facts about the tables

  /** Canonicalisation keeps distinct paths distinct as long as neither
      already ends in '/'. */
  lemma NormalizeKeyInjective(p: string, q: string)
    requires p == [] || p[|p| - 1] != '/'
    requires q == [] || q[|q| - 1] != '/'
    ensures NormalizeKey(p) == NormalizeKey(q) ==> p == q
  {
    var r := NormalizeKey(p);
    if NormalizeKey(q) == r && r != [] && r[|r| - 1] == '/' {
      assert r == p + "/" && r == q + "/";
      assert p == r[..|r| - 1] == q;
    }
  }

  /** No path of the page redirect table is written with a trailing '/'. */
  lemma PageRedirectPathsUnslashed()
    ensures forall i :: 0 <= i < |PageRedirectEntries| ==>
      var p := PageRedirectEntries[i].0; p == [] || p[|p| - 1] != '/'
  {
  }

  /** The paths of the page redirect table are pairwise distinct, checked a
      few entries at a time. */
  lemma PageRedirectPathsDistinct()
    ensures Distinct(Keys(PageRedirectEntries))
  {
    PageRedirectPathsDistinctFrom0();
    PageRedirectPathsDistinctFrom2();
    PageRedirectPathsDistinctFrom4();
    PageRedirectPathsDistinctFrom6();
    PageRedirectPathsDistinctFrom8();
    PageRedirectPathsDistinctFrom12();
    PageRedirectPathsDistinctFrom16();
  }

  lemma PageRedirectPathsDistinctFrom0()
    ensures forall i, j :: 0 <= i < 2 && i < j < |PageRedirectEntries| ==>
      PageRedirectEntries[i].0 != PageRedirectEntries[j].0
  {
    assert forall j :: 0 < j < |PageRedirectEntries| ==> PageRedirectEntries[0].0 != PageRedirectEntries[j].0;
    assert forall j :: 1 < j < |PageRedirectEntries| ==> PageRedirectEntries[1].0 != PageRedirectEntries[j].0;
  }

  lemma PageRedirectPathsDistinctFrom2()
    ensures forall i, j :: 2 <= i < 4 && i < j < |PageRedirectEntries| ==>
      PageRedirectEntries[i].0 != PageRedirectEntries[j].0
  {
    assert forall j :: 2 < j < |PageRedirectEntries| ==> PageRedirectEntries[2].0 != PageRedirectEntries[j].0;
    assert forall j :: 3 < j < |PageRedirectEntries| ==> PageRedirectEntries[3].0 != PageRedirectEntries[j].0;
  }

  lemma PageRedirectPathsDistinctFrom4()
    ensures forall i, j :: 4 <= i < 6 && i < j < |PageRedirectEntries| ==>
      PageRedirectEntries[i].0 != PageRedirectEntries[j].0
  {
    assert forall j :: 4 < j < |PageRedirectEntries| ==> PageRedirectEntries[4].0 != PageRedirectEntries[j].0;
    assert forall j :: 5 < j < |PageRedirectEntries| ==> PageRedirectEntries[5].0 != PageRedirectEntries[j].0;
  }

  lemma PageRedirectPathsDistinctFrom6()
    ensures forall i, j :: 6 <= i < 8 && i < j < |PageRedirectEntries| ==>
      PageRedirectEntries[i].0 != PageRedirectEntries[j].0
  {
    assert forall j :: 6 < j < |PageRedirectEntries| ==> PageRedirectEntries[6].0 != PageRedirectEntries[j].0;
    assert forall j :: 7 < j < |PageRedirectEntries| ==> PageRedirectEntries[7].0 != PageRedirectEntries[j].0;
  }

  lemma PageRedirectPathsDistinctFrom8()
    ensures forall i, j :: 8 <= i < 12 && i < j < |PageRedirectEntries| ==>
      PageRedirectEntries[i].0 != PageRedirectEntries[j].0
  {
    assert forall j :: 8 < j < |PageRedirectEntries| ==> PageRedirectEntries[8].0 != PageRedirectEntries[j].0;
    assert forall j :: 9 < j < |PageRedirectEntries| ==> PageRedirectEntries[9].0 != PageRedirectEntries[j].0;
    assert forall j :: 10 < j < |PageRedirectEntries| ==> PageRedirectEntries[10].0 != PageRedirectEntries[j].0;
    assert forall j :: 11 < j < |PageRedirectEntries| ==> PageRedirectEntries[11].0 != PageRedirectEntries[j].0;
  }

  lemma PageRedirectPathsDistinctFrom12()
    ensures forall i, j :: 12 <= i < 16 && i < j < |PageRedirectEntries| ==>
      PageRedirectEntries[i].0 != PageRedirectEntries[j].0
  {
    assert forall j :: 12 < j < |PageRedirectEntries| ==> PageRedirectEntries[12].0 != PageRedirectEntries[j].0;
    assert forall j :: 13 < j < |PageRedirectEntries| ==> PageRedirectEntries[13].0 != PageRedirectEntries[j].0;
    assert forall j :: 14 < j < |PageRedirectEntries| ==> PageRedirectEntries[14].0 != PageRedirectEntries[j].0;
    assert forall j :: 15 < j < |PageRedirectEntries| ==> PageRedirectEntries[15].0 != PageRedirectEntries[j].0;
  }

  lemma PageRedirectPathsDistinctFrom16()
    ensures forall i, j :: 16 <= i < 19 && i < j < |PageRedirectEntries| ==>
      PageRedirectEntries[i].0 != PageRedirectEntries[j].0
  {
    assert forall j :: 16 < j < |PageRedirectEntries| ==> PageRedirectEntries[16].0 != PageRedirectEntries[j].0;
    assert forall j :: 17 < j < |PageRedirectEntries| ==> PageRedirectEntries[17].0 != PageRedirectEntries[j].0;
  }

  /** No two entries of the page redirect table collide once canonicalised,
      so each entry's target is what its canonical key looks up. */
  lemma PageRedirectsFindEveryEntry(i: nat)
    requires i < |PageRedirectEntries|
    ensures NormalizeKey(PageRedirectEntries[i].0) in PageRedirects
    ensures PageRedirects[NormalizeKey(PageRedirectEntries[i].0)] == PageRedirectEntries[i].1
  {
    PageRedirectPathsUnslashed();
    PageRedirectPathsDistinct();
    var canonical := CanonicalPageRedirectEntries;
    forall a, b | 0 <= a < b < |canonical|
      ensures Keys(canonical)[a] != Keys(canonical)[b]
    {
      NormalizeKeyInjective(PageRedirectEntries[a].0, PageRedirectEntries[b].0);
    }
    ToMapFindsEveryEntry(canonical, i);
  }

  /** `pageRedirects` has no other keys than the canonical paths of the
      listed entries; with the lemma above, it is exactly the listed table
      under canonical keys. */
  lemma PageRedirectKeysAreCanonicalPaths()
    ensures PageRedirects.Keys == set i | 0 <= i < |PageRedirectEntries| :: NormalizeKey(PageRedirectEntries[i].0)
  {
    var canonical := CanonicalPageRedirectEntries;
    assert PageRedirects.Keys == set i | 0 <= i < |canonical| :: canonical[i].0;
  }

  /** The release-note paths `1.3.0` and `1.2.0` end in a segment with a '.',
      so canonicalisation does not give them the '/' the site needs; the table
      lists them explicitly. */
  lemma ReleaseNotePathsKeepNoSlash()
    ensures NormalizeKey("/docs/releases/release-notes/1.3.0") == "/docs/releases/release-notes/1.3.0"
    ensures NormalizeKey("/docs/releases/release-notes/1.2.0") == "/docs/releases/release-notes/1.2.0"
  {
    assert "/docs/releases/release-notes/1.3" + "." + "0" == "/docs/releases/release-notes/1.3.0";
    DottedLastSegmentUnchanged("/docs/releases/release-notes/1.3", "0");
    assert "/docs/releases/release-notes/1.2" + "." + "0" == "/docs/releases/release-notes/1.2.0";
    DottedLastSegmentUnchanged("/docs/releases/release-notes/1.2", "0");
  }

  /** Both legacy tables map the site root to itself. */
  lemma OldLitHtmlSiteKeepsRoot()
    ensures "/" in OldLitHtmlSiteRedirects && OldLitHtmlSiteRedirects["/"] == "/"
  {
  }

  lemma OldLitElementSiteKeepsRoot()
    ensures "/" in OldLitElementSiteRedirects && OldLitElementSiteRedirects["/"] == "/"
  {
  }

  /** The legacy tables are used as written: "/guide" is one of their keys,
      although canonicalisation would turn it into "/guide/". */
  lemma LegacyTablesNotNormalized()
    ensures "/guide" in OldLitHtmlSiteRedirects
    ensures "/guide" in OldLitElementSiteRedirects
  {
  }

  lemma GuidePathWouldGainSlash()
    ensures NormalizeKey("/guide") == "/guide/"
  {
    assert "/" + "guide" == "/guide";
    PlainLastSegmentGetsSlash("/", "guide");
  }
}
