/** Content Security Policy text: directives written as a name and its
    sources separated by single spaces, policies as directives joined by
    "; ", and reading a policy back into directive texts the way section
    2.2.1 of Content Security Policy Level 3 parses a serialized policy:
    split on ';', strip leading and trailing ASCII whitespace from each
    token, and skip tokens that are empty or not ASCII strings. A header
    value is first split at ',' into serialized policies, as section 3.2
    declares the header a comma-separated list and section 2.2.2 reads it. */
module PolicyText {
  datatype Directive = Directive(name: string, sources: seq<string>)

  function Join(xs: seq<string>, sep: string): (s: string) {
    if xs == [] then ""
    else if |xs| == 1 then xs[0]
    else xs[0] + sep + Join(xs[1..], sep)
  }

  lemma JoinCons(x: string, xs: seq<string>, sep: string)
    requires xs != []
    ensures Join([x] + xs, sep) == x + sep + Join(xs, sep)
  {
    assert ([x] + xs)[1..] == xs;
  }

  function Text(d: Directive): (t: string) {
    Join([d.name] + d.sources, " ")
  }

  /** The texts of the directives, in order. The ensures spell out the body
      pointwise, for the read-back lemmas to use. */
  function Texts(ds: seq<Directive>): (ts: seq<string>)
    ensures |ts| == |ds|
    ensures forall i :: 0 <= i < |ds| ==> ts[i] == Text(ds[i])
  {
    seq(|ds|, i requires 0 <= i < |ds| => Text(ds[i]))
  }

  lemma TextsAppend(a: seq<Directive>, b: seq<Directive>)
    ensures Texts(a + b) == Texts(a) + Texts(b)
  {
    assert forall i :: 0 <= i < |a| ==> (a + b)[i] == a[i];
    assert forall i :: |a| <= i < |a| + |b| ==> (a + b)[i] == b[i - |a|];
  }

  // ---------------------------------------------------------------------
  // Reading a policy back

  predicate IsAsciiWhitespace(c: char) {
    c == ' ' || c == '\t' || c == '\n' || c == '\r' || c == '\U{000C}'
  }

  /** A string of code points U+0000 to U+007F only. */
  predicate IsAscii(s: string) {
    forall i | 0 <= i < |s| :: s[i] <= '\U{007F}'
  }

  function Split(s: string, c: char): (parts: seq<string>)
    ensures |parts| >= 1
    ensures forall i :: 0 <= i < |parts| ==> c !in parts[i]
  {
    if s == [] then [""]
    else
      var rest := Split(s[1..], c);
      if s[0] == c then [""] + rest else [[s[0]] + rest[0]] + rest[1..]
  }

  function TrimStart(s: string): (r: string)
    ensures r == [] || !IsAsciiWhitespace(r[0])
  {
    if s != [] && IsAsciiWhitespace(s[0]) then TrimStart(s[1..]) else s
  }

  function TrimEnd(s: string): (r: string)
    ensures r == [] || !IsAsciiWhitespace(r[|r| - 1])
  {
    if s != [] && IsAsciiWhitespace(s[|s| - 1]) then TrimEnd(s[..|s| - 1]) else s
  }

  function Tokens(parts: seq<string>): (ts: seq<string>) {
    if parts == [] then []
    else
      var t := TrimEnd(TrimStart(parts[0]));
      (if t == "" || !IsAscii(t) then [] else [t]) + Tokens(parts[1..])
  }

  function ParsePolicy(policy: string): (directives: seq<string>) {
    Tokens(Split(policy, ';'))
  }

  /** The policies read from a header value: its comma-separated list
      items, each parsed as a serialized policy. */
  function ParseHeader(value: string): (policies: seq<seq<string>>) {
    var items := Split(value, ',');
    seq(|items|, i requires 0 <= i < |items| => ParsePolicy(items[i]))
  }

  /** A directive text that survives both splits: non-empty, ASCII, no ';'
      or ',', and no whitespace at either end. */
  predicate Clean(t: string) {
    && t != [] && IsAscii(t) && ';' !in t && ',' !in t
    && !IsAsciiWhitespace(t[0]) && !IsAsciiWhitespace(t[|t| - 1])
  }

  lemma {:induction false} SplitWithoutSeparator(a: string, c: char)
    requires c !in a
    ensures Split(a, c) == [a]
    decreases |a|
  {
    if a != [] {
      SplitWithoutSeparator(a[1..], c);
      assert [a[0]] + a[1..] == a;
    }
  }

  lemma {:induction false} SplitAtSeparator(a: string, c: char, b: string)
    requires c !in a
    ensures Split(a + [c] + b, c) == [a] + Split(b, c)
    decreases |a|
  {
    var s := a + [c] + b;
    if a == [] {
      assert s[0] == c && s[1..] == b;
    } else {
      assert s[0] == a[0] && s[1..] == a[1..] + [c] + b;
      SplitAtSeparator(a[1..], c, b);
      assert [a[0]] + a[1..] == a;
    }
  }

  lemma TrimClean(lead: string, t: string)
    requires lead == "" || lead == " "
    requires Clean(t)
    ensures TrimEnd(TrimStart(lead + t)) == t
  {
    var s := lead + t;
    assert TrimStart(t) == t;
    if lead == " " {
      assert s[0] == ' ' && s[1..] == t;
      assert TrimStart(s) == TrimStart(s[1..]);
    } else {
      assert s == t;
    }
    assert TrimEnd(t) == t;
  }

  lemma Reassociate(lead: string, x: string, tail: string)
    ensures lead + (x + "; " + tail) == (lead + x) + [';'] + (" " + tail)
  {
    assert "; " == [';'] + " ";
  }

  lemma TokensCons(p: string, rest: seq<string>)
    requires Clean(TrimEnd(TrimStart(p)))
    ensures Tokens([p] + rest) == [TrimEnd(TrimStart(p))] + Tokens(rest)
  {
    assert ([p] + rest)[1..] == rest;
  }

  /** A token that is not an ASCII string once trimmed is skipped, whatever
      follows it. */
  lemma NonAsciiTokenSkipped(p: string, rest: seq<string>)
    requires !IsAscii(TrimEnd(TrimStart(p)))
    ensures Tokens([p] + rest) == Tokens(rest)
  {
    assert ([p] + rest)[1..] == rest;
  }

  /** One directive and the separator after it. */
  lemma ParseStep(lead: string, x: string, tail: string)
    requires lead == "" || lead == " "
    requires Clean(x)
    ensures Tokens(Split(lead + (x + "; " + tail), ';')) == [x] + Tokens(Split(" " + tail, ';'))
  {
    TrimClean(lead, x);
    Reassociate(lead, x, tail);
    SplitAtSeparator(lead + x, ';', " " + tail);
    TokensCons(lead + x, Split(" " + tail, ';'));
  }

  lemma {:induction false} ParseJoined(lead: string, xs: seq<string>)
    requires lead == "" || lead == " "
    requires xs != []
    requires forall i :: 0 <= i < |xs| ==> Clean(xs[i])
    ensures Tokens(Split(lead + Join(xs, "; "), ';')) == xs
    decreases |xs|
  {
    if |xs| == 1 {
      TrimClean(lead, xs[0]);
      SplitWithoutSeparator(lead + xs[0], ';');
      TokensCons(lead + xs[0], []);
    } else {
      var tail := Join(xs[1..], "; ");
      assert Join(xs, "; ") == xs[0] + "; " + tail;
      ParseStep(lead, xs[0], tail);
      ParseJoined(" ", xs[1..]);
      assert [xs[0]] + xs[1..] == xs;
    }
  }

  /** Reading back the policy made of clean directive texts gives exactly
      those texts, in order. */
  lemma ParseJoinedTexts(ds: seq<Directive>)
    requires ds != []
    requires forall i :: 0 <= i < |ds| ==> Clean(Text(ds[i]))
    ensures ParsePolicy(Join(Texts(ds), "; ")) == Texts(ds)
  {
    assert "" + Join(Texts(ds), "; ") == Join(Texts(ds), "; ");
    ParseJoined("", Texts(ds));
  }

  /** A header value made of clean directive texts is a single policy, the
      one `ParseJoinedTexts` reads back. */
  lemma HeaderOfJoinedTexts(ds: seq<Directive>)
    requires ds != []
    requires forall i :: 0 <= i < |ds| ==> Clean(Text(ds[i]))
    ensures ParseHeader(Join(Texts(ds), "; ")) == [Texts(ds)]
  {
    var value := Join(Texts(ds), "; ");
    JoinAvoids(Texts(ds), "; ", ',');
    SplitWithoutSeparator(value, ',');
    ParseJoinedTexts(ds);
  }

  /** A separator anywhere in a string yields at least two items. */
  lemma {:induction false} SplitAtEverySeparator(s: string, c: char)
    requires c in s
    ensures |Split(s, c)| >= 2
    decreases |s|
  {
    if s[0] != c {
      assert c in s[1..];
      SplitAtEverySeparator(s[1..], c);
    }
  }

  /** A header value holding a ',' anywhere reads as several policies. */
  lemma CommaMakesSeveralPolicies(value: string)
    requires ',' in value
    ensures |ParseHeader(value)| >= 2
  {
    SplitAtEverySeparator(value, ',');
  }

  // ---------------------------------------------------------------------
  // When a directive text is clean

  lemma {:induction false} JoinStart(xs: seq<string>, sep: string)
    requires xs != [] && xs[0] != []
    ensures Join(xs, sep) != [] && Join(xs, sep)[0] == xs[0][0]
  {
  }

  lemma {:induction false} JoinEnd(xs: seq<string>, sep: string)
    requires xs != [] && xs[|xs| - 1] != []
    ensures Join(xs, sep) != []
    ensures Join(xs, sep)[|Join(xs, sep)| - 1] == xs[|xs| - 1][|xs[|xs| - 1]| - 1]
    decreases |xs|
  {
    if |xs| > 1 {
      JoinEnd(xs[1..], sep);
    }
  }

  lemma {:induction false} JoinAvoids(xs: seq<string>, sep: string, c: char)
    requires c !in sep
    requires forall i :: 0 <= i < |xs| ==> c !in xs[i]
    ensures c !in Join(xs, sep)
    decreases |xs|
  {
    if |xs| > 1 {
      JoinAvoids(xs[1..], sep, c);
    }
  }

  lemma {:induction false} JoinContains(xs: seq<string>, sep: string, i: nat, c: char)
    requires i < |xs| && c in xs[i]
    ensures c in Join(xs, sep)
    decreases |xs|
  {
    if |xs| > 1 && i > 0 {
      JoinContains(xs[1..], sep, i - 1, c);
    }
  }

  lemma {:induction false} JoinAscii(xs: seq<string>, sep: string)
    requires IsAscii(sep)
    requires forall i :: 0 <= i < |xs| ==> IsAscii(xs[i])
    ensures IsAscii(Join(xs, sep))
    decreases |xs|
  {
    if |xs| > 1 {
      JoinAscii(xs[1..], sep);
    }
  }

  /** A word that can stand in a directive: ASCII, with neither the ';'
      that ends a directive nor the ',' that ends a policy. */
  predicate SafeWord(w: string) {
    forall i | 0 <= i < |w| :: w[i] <= '\U{007F}' && w[i] != ';' && w[i] != ','
  }

  lemma SafeWordFacts(w: string)
    requires SafeWord(w)
    ensures IsAscii(w) && ';' !in w && ',' !in w
  {
  }

  /** A word whose last character is not whitespace. */
  predicate EndsClean(w: string) {
    w != [] && !IsAsciiWhitespace(w[|w| - 1])
  }

  /** What a directive needs for its text to be clean: a name that starts
      with no whitespace, a last word that ends with none, only ASCII
      characters and no ';' or ',' anywhere. */
  predicate Wellformed(d: Directive) {
    && d.name != [] && !IsAsciiWhitespace(d.name[0]) && SafeWord(d.name)
    && (forall i :: 0 <= i < |d.sources| ==> SafeWord(d.sources[i]))
    && EndsClean(if d.sources == [] then d.name else d.sources[|d.sources| - 1])
  }

  lemma TextClean(d: Directive)
    requires Wellformed(d)
    ensures Clean(Text(d))
  {
    var words := [d.name] + d.sources;
    forall i | 0 <= i < |words|
      ensures ';' !in words[i] && ',' !in words[i] && IsAscii(words[i])
    {
      if i > 0 {
        assert words[i] == d.sources[i - 1];
      }
      SafeWordFacts(words[i]);
    }
    JoinStart(words, " ");
    JoinEnd(words, " ");
    JoinAvoids(words, " ", ';');
    JoinAvoids(words, " ", ',');
    JoinAscii(words, " ");
  }

  lemma TextStart(d: Directive)
    requires d.name != []
    ensures Text(d) != [] && Text(d)[0] == d.name[0]
  {
    JoinStart([d.name] + d.sources, " ");
  }
}
