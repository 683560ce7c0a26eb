/** The text extraction the router performs on a controller: the namespace
    from the source file (`/namespace\s+([^;]+);/`), the route from the class
    docblock (`/@url\s+(\S+)/`), and the fully qualified class name built from
    the namespace and the file's base name. Each pattern is modelled as a
    matcher at one start position plus the leftmost-match search `preg_match`
    performs. */
module Annotations {
  import opened Optional
  import opened PhpText

  const NamespaceKeyword: string := "namespace"
  const UrlTag: string := "@url"
  const PhpSuffix: string := ".php"

  /** Length of the run of `\s` characters that starts at `i`. */
  function SpaceRun(s: string, i: nat): (n: nat)
    requires i <= |s|
    ensures i + n <= |s|
    ensures forall k :: i <= k < i + n ==> IsSpace(s[k])
    ensures i + n == |s| || !IsSpace(s[i + n])
    decreases |s| - i
  {
    if i < |s| && IsSpace(s[i]) then 1 + SpaceRun(s, i + 1) else 0
  }

  /** Length of the run of `\S` characters that starts at `i`. */
  function WordRun(s: string, i: nat): (n: nat)
    requires i <= |s|
    ensures i + n <= |s|
    ensures forall k :: i <= k < i + n ==> !IsSpace(s[k])
    ensures i + n == |s| || IsSpace(s[i + n])
    decreases |s| - i
  {
    if i < |s| && !IsSpace(s[i]) then 1 + WordRun(s, i + 1) else 0
  }

  /** Index of the first ';' at or after `i`, if any. */
  function NextSemicolon(s: string, i: nat): (j: Option<nat>)
    requires i <= |s|
    ensures j.Some? ==> i <= j.value < |s| && s[j.value] == ';'
                        && forall k :: i <= k < j.value ==> s[k] != ';'
    ensures j.None? ==> forall k :: i <= k < |s| ==> s[k] != ';'
    decreases |s| - i
  {
    if i == |s| then None else if s[i] == ';' then Some(i) else NextSemicolon(s, i + 1)
  }

  // ---------------------------------------------------------------------------
  // `namespace\s+([^;]+);`

  /** The ways `namespace\s+([^;]+);` can match at `p`: `k` whitespace
      characters for `\s+`, and the capture running up to the ';' at `e`. */
  ghost predicate IsNamespaceMatch(s: string, p: nat, k: nat, e: nat) {
    var q := p + |NamespaceKeyword|;
    && q + k < e < |s|
    && s[p..q] == NamespaceKeyword
    && k >= 1
    && (forall i :: q <= i < q + k ==> IsSpace(s[i]))
    && (forall i :: q + k <= i < e ==> s[i] != ';')
    && s[e] == ';'
  }

  /** The capture of `namespace\s+([^;]+);` when the match starts at `p`, as
      a backtracking matcher finds it: `\s+` takes the whole whitespace run
      unless the ';' follows it at once, in which case it gives one character
      back to `[^;]+`. */
  function NamespaceMatchAt(s: string, p: nat): Option<string> {
    var q := p + |NamespaceKeyword|;
    if q <= |s| && s[p..q] == NamespaceKeyword then
      var w := SpaceRun(s, q);
      match NextSemicolon(s, q)
      case None => None
      case Some(j) =>
        if w >= 1 && j - q >= 2 then
          var k := if w < j - q - 1 then w else j - q - 1;
          Some(s[q + k..j])
        else None
    else None
  }

  /** `NamespaceMatchAt` finds a match exactly when one exists, and then the
      one with the longest `\s+` (the greedy choice); the capture is
      non-empty, holds no ';' and ends right before the first ';'. */
  lemma NamespaceMatchAtIsGreedy(s: string, p: nat)
    ensures NamespaceMatchAt(s, p).None? ==> forall k: nat, e: nat :: !IsNamespaceMatch(s, p, k, e)
    ensures NamespaceMatchAt(s, p).Some? ==>
              var c := NamespaceMatchAt(s, p).value;
              var q := p + |NamespaceKeyword|;
              exists k: nat, e: nat :: IsNamespaceMatch(s, p, k, e) && c == s[q + k..e]
                                       && forall k': nat, e': nat :: IsNamespaceMatch(s, p, k', e') ==> k' <= k
  {
    var q := p + |NamespaceKeyword|;
    if q <= |s| && s[p..q] == NamespaceKeyword {
      var w := SpaceRun(s, q);
      // every match's ';' is the first one after the keyword, and its
      // whitespace run is no longer than the maximal one
      forall k: nat, e: nat | IsNamespaceMatch(s, p, k, e)
        ensures NextSemicolon(s, q) == Some(e) && k <= w
      {
      }
      match NextSemicolon(s, q)
      case None =>
      case Some(j) =>
        if w >= 1 && j - q >= 2 {
          var k := if w < j - q - 1 then w else j - q - 1;
          var c := s[q + k..j];
          assert NamespaceMatchAt(s, p) == Some(c);
          assert IsNamespaceMatch(s, p, k, j);
        }
    }
  }

  // ---------------------------------------------------------------------------
  // `@url\s+(\S+)`

  /** The ways `@url\s+(\S+)` can match at `p`: `k` whitespace characters for
      `\s+`, and the capture ending before `e`. */
  ghost predicate IsUrlMatch(s: string, p: nat, k: nat, e: nat) {
    var q := p + |UrlTag|;
    && q + k < e <= |s|
    && s[p..q] == UrlTag
    && k >= 1
    && (forall i :: q <= i < q + k ==> IsSpace(s[i]))
    && (forall i :: q + k <= i < e ==> !IsSpace(s[i]))
  }

  /** The capture of `@url\s+(\S+)` when the match starts at `p`: the run of
      non-whitespace characters after the whitespace that follows the tag. */
  function UrlMatchAt(s: string, p: nat): Option<string> {
    var q := p + |UrlTag|;
    if q <= |s| && s[p..q] == UrlTag then
      var w := SpaceRun(s, q);
      var n := WordRun(s, q + w);
      if w >= 1 && n >= 1 then Some(s[q + w..q + w + n]) else None
    else None
  }

  /** `UrlMatchAt` finds a match exactly when one exists; the whitespace it
      skips is the only possible one, and the capture is the longest possible:
      it stops at whitespace or at the end of the text. */
  lemma UrlMatchAtIsGreedy(s: string, p: nat)
    ensures UrlMatchAt(s, p).None? ==> forall k: nat, e: nat :: !IsUrlMatch(s, p, k, e)
    ensures UrlMatchAt(s, p).Some? ==>
              var u := UrlMatchAt(s, p).value;
              var q := p + |UrlTag|;
              exists k: nat, e: nat :: IsUrlMatch(s, p, k, e) && u == s[q + k..e]
                                       && (e == |s| || IsSpace(s[e]))
                                       && forall k': nat, e': nat :: IsUrlMatch(s, p, k', e') ==> k' == k && e' <= e
  {
    var q := p + |UrlTag|;
    if q <= |s| && s[p..q] == UrlTag {
      var w := SpaceRun(s, q);
      var n := WordRun(s, q + w);
      forall k: nat, e: nat | IsUrlMatch(s, p, k, e)
        ensures k == w && e <= q + w + n
      {
        assert !IsSpace(s[q + k]);
      }
      if w >= 1 && n >= 1 {
        assert IsUrlMatch(s, p, w, q + w + n);
      }
    }
  }

  // ---------------------------------------------------------------------------
  // `preg_match`: the leftmost start position at which a pattern matches

  /** The first position in `from..|s|` where `matchAt` matches. */
  function FirstMatch(matchAt: (string, nat) -> Option<string>, s: string, from: nat): (r: Option<nat>)
    ensures r.Some? ==> from <= r.value <= |s| && matchAt(s, r.value).Some?
                        && forall p :: from <= p < r.value ==> matchAt(s, p).None?
    ensures r.None? ==> forall p :: from <= p <= |s| ==> matchAt(s, p).None?
    decreases |s| + 1 - from
  {
    if from > |s| then None
    else if matchAt(s, from).Some? then Some(from)
    else FirstMatch(matchAt, s, from + 1)
  }

  /** The namespace a controller file declares: the trimmed capture of the
      first `namespace … ;` in the file, or "" when there is none. */
  function NamespaceOf(contents: string): string {
    match FirstMatch(NamespaceMatchAt, contents, 0)
    case None => ""
    case Some(p) => Trim(NamespaceMatchAt(contents, p).value)
  }

  /** The route a docblock declares: the capture of the first `@url`
      followed by whitespace and a non-whitespace character. */
  function UrlOf(doc: string): Option<string> {
    match FirstMatch(UrlMatchAt, doc, 0)
    case None => None
    case Some(p) => UrlMatchAt(doc, p)
  }

  /** The declared route is a non-empty word with no whitespace in it. */
  lemma UrlIsWord(doc: string)
    ensures UrlOf(doc).Some? ==> UrlOf(doc).value != [] && forall i :: 0 <= i < |UrlOf(doc).value| ==> !IsSpace(UrlOf(doc).value[i])
  {
    match FirstMatch(UrlMatchAt, doc, 0)
    case None =>
    case Some(p) => UrlMatchAtIsGreedy(doc, p);
  }

  /** A docblock without any `@url` match declares no route. */
  lemma NoUrlTagNoRoute(doc: string)
    requires forall p: nat, k: nat, e: nat :: !IsUrlMatch(doc, p, k, e)
    ensures UrlOf(doc) == None
  {
    match FirstMatch(UrlMatchAt, doc, 0)
    case None =>
    case Some(p) => UrlMatchAtIsGreedy(doc, p);
  }

  // ---------------------------------------------------------------------------
  // `basename($file, '.php')` and the fully qualified class name

  /** `path` without its trailing slashes. */
  function StripTrailingSlashes(path: string): string {
    if path != [] && path[|path| - 1] == '/' then StripTrailingSlashes(path[..|path| - 1]) else path
  }

  /** The last '/'-separated segment of `path`. */
  function LastSegment(path: string): string {
    if path == [] || path[|path| - 1] == '/' then []
    else LastSegment(path[..|path| - 1]) + [path[|path| - 1]]
  }

  /** Only trailing slashes are removed, all of them: the result is a prefix
      of the path not ending in '/', followed in the path by '/' only. */
  lemma {:induction false} StripTrailingSlashesIsPrefix(path: string)
    ensures var r := StripTrailingSlashes(path);
            && |r| <= |path| && r == path[..|r|]
            && (r == [] || r[|r| - 1] != '/')
            && forall k :: |r| <= k < |path| ==> path[k] == '/'
  {
    if path != [] && path[|path| - 1] == '/' {
      var init := path[..|path| - 1];
      StripTrailingSlashesIsPrefix(init);
      var r := StripTrailingSlashes(init);
      assert path[..|r|] == init[..|r|];
      forall k | |r| <= k < |path|
        ensures path[k] == '/'
      {
        if k < |init| {
          assert path[k] == init[k];
        }
      }
    }
  }

  /** The segment is the longest suffix of the path without a '/': it is
      preceded by '/' or by nothing. */
  lemma {:induction false} LastSegmentIsSuffix(path: string)
    ensures var r := LastSegment(path);
            && |r| <= |path| && r == path[|path| - |r|..]
            && '/' !in r
            && (|r| == |path| || path[|path| - |r| - 1] == '/')
  {
    if path != [] && path[|path| - 1] != '/' {
      var init := path[..|path| - 1];
      LastSegmentIsSuffix(init);
      var r := LastSegment(init);
      assert LastSegment(path) == r + [path[|path| - 1]];
      assert path[|path| - 1 - |r|..] == init[|init| - |r|..] + [path[|path| - 1]];
      assert '/' !in r + [path[|path| - 1]];
      if |r| < |init| {
        assert path[|path| - |r| - 2] == init[|init| - |r| - 1];
      }
    }
  }

  /** PHP `basename($path)`. */
  function BaseName(path: string): string {
    LastSegment(StripTrailingSlashes(path))
  }

  /** The suffix argument of `basename`: ".php" is cut only when something
      is left before it. */
  function StripPhpSuffix(b: string): (r: string)
    ensures if |b| > |PhpSuffix| && b[|b| - |PhpSuffix|..] == PhpSuffix then r + PhpSuffix == b else r == b
  {
    if |b| > |PhpSuffix| && b[|b| - |PhpSuffix|..] == PhpSuffix then
      assert b[..|b| - |PhpSuffix|] + b[|b| - |PhpSuffix|..] == b;
      b[..|b| - |PhpSuffix|]
    else b
  }

  /** PHP `basename($path, '.php')`. */
  function ClassName(path: string): string {
    StripPhpSuffix(BaseName(path))
  }

  /** The fully qualified class name: `namespace\className` when the
      namespace is truthy, otherwise the bare class name. */
  function Fqcn(namespace: string, className: string): (r: string)
    ensures Truthy(namespace) ==> |r| == |namespace| + 1 + |className|
    ensures Truthy(namespace) ==> r[..|namespace|] == namespace && r[|namespace|] == '\\' && r[|namespace| + 1..] == className
    ensures !Truthy(namespace) ==> r == className
  {
    if Truthy(namespace) then namespace + "\\" + className else className
  }

  /** The class a controller file is expected to define. */
  function ControllerClass(path: string, contents: string): string {
    Fqcn(NamespaceOf(contents), ClassName(path))
  }

  /** A file whose text starts with a namespace declaration takes that
      declaration's capture, trimmed. */
  lemma NamespaceAtStart(contents: string, c: string)
    requires NamespaceMatchAt(contents, 0) == Some(c)
    ensures NamespaceOf(contents) == Trim(c)
  {
    assert FirstMatch(NamespaceMatchAt, contents, 0) == Some(0);
  }

  /** `namespace <name>;` with one space before a name that starts with a
      non-space and holds no ';' captures the name. */
  lemma DeclarationCapturesName(name: string, rest: string)
    requires name != [] && !IsSpace(name[0]) && ';' !in name
    ensures NamespaceMatchAt(NamespaceKeyword + " " + name + ";" + rest, 0) == Some(name)
  {
    var s := NamespaceKeyword + " " + name + ";" + rest;
    var j := 10 + |name|;
    assert s[..9] == NamespaceKeyword;
    assert s[9] == ' ' && s[10] == name[0];
    assert SpaceRun(s, 9) == 1;
    assert forall k :: 10 <= k < j ==> s[k] == name[k - 10];
    assert s[j] == ';';
    assert NextSemicolon(s, 9) == Some(j);
    assert s[10..j] == name;
  }

  /** Only the first `namespace` declaration of a file counts, whatever
      follows it. */
  lemma FirstNamespaceWins(name: string, rest: string)
    requires name != [] && !IsSpace(name[0]) && ';' !in name
    ensures NamespaceOf(NamespaceKeyword + " " + name + ";" + rest) == Trim(name)
  {
    DeclarationCapturesName(name, rest);
    NamespaceAtStart(NamespaceKeyword + " " + name + ";" + rest, name);
  }

  /** `namespace` followed by two or more characters that are both `\s` and
      trimmed, then ';', still matches (`[^;]+` takes back the last one),
      but the capture trims to "": no namespace. */
  lemma BlankNamespaceIgnored(blank: string, rest: string)
    requires |blank| >= 2 && forall i :: 0 <= i < |blank| ==> IsSpace(blank[i]) && IsTrimmed(blank[i])
    ensures NamespaceOf(NamespaceKeyword + blank + ";" + rest) == ""
  {
    var s := NamespaceKeyword + blank + ";" + rest;
    var j := 9 + |blank|;
    assert s[..9] == NamespaceKeyword;
    assert forall k :: 9 <= k < j ==> s[k] == blank[k - 9];
    assert s[j] == ';' && !IsSpace(s[j]);
    assert SpaceRun(s, 9) == |blank|;
    assert NextSemicolon(s, 9) == Some(j);
    var c := s[j - 1..j];
    assert c == [blank[|blank| - 1]];
    assert NamespaceMatchAt(s, 0) == Some(c);
    NamespaceAtStart(s, c);
  }

  /** A namespace "0" is falsy in PHP, so the class name stands alone. */
  lemma FalsyNamespaceIgnored(path: string, rest: string)
    ensures ControllerClass(path, NamespaceKeyword + " 0;" + rest) == ClassName(path)
  {
    assert NamespaceKeyword + " 0;" + rest == NamespaceKeyword + " " + "0" + ";" + rest;
    FirstNamespaceWins("0", rest);
    assert Trim("0") == "0" by {
      assert LeadingTrimmed("0") == 0 && TrailingTrimmed("0") == 0;
    }
  }

  /** The route is the word after the tag. */
  lemma UrlIsNextWord()
    ensures UrlOf("/** @url /example */") == Some("/example")
  {
    var doc := "/** @url /example */";
    forall p | 0 <= p < 4 ensures UrlMatchAt(doc, p).None? {
      assert doc[p..p + 4] != UrlTag by { assert doc[p + 3] != 'l'; }
    }
    assert doc[4..8] == UrlTag;
    assert SpaceRun(doc, 9) == 0 && SpaceRun(doc, 8) == 1;
    assert WordRun(doc, 9) == 8 by {
      assert WordRun(doc, 17) == 0;
      assert WordRun(doc, 16) == 1;
      assert WordRun(doc, 15) == 2;
      assert WordRun(doc, 14) == 3;
      assert WordRun(doc, 13) == 4;
      assert WordRun(doc, 12) == 5;
      assert WordRun(doc, 11) == 6;
      assert WordRun(doc, 10) == 7;
    }
    assert doc[9..17] == "/example";
  }

  /** `\s` spans line breaks: a tag with nothing after it on its line takes
      the first word of the next line, here the docblock's closing "*\/". */
  lemma UrlSpansLineBreak()
    ensures UrlOf("@url\n */") == Some("*/")
  {
    var bare := "@url\n */";
    assert bare[..4] == UrlTag;
    assert SpaceRun(bare, 6) == 0 && SpaceRun(bare, 5) == 1 && SpaceRun(bare, 4) == 2;
    assert WordRun(bare, 8) == 0 && WordRun(bare, 7) == 1 && WordRun(bare, 6) == 2;
    assert bare[6..8] == "*/";
  }

  /** The tag must be followed by whitespace: `@urls` is not a tag. */
  lemma LongerTagIsNoUrl()
    ensures UrlOf("@urls") == None
  {
    var word := "@urls";
    forall p | 0 <= p <= |word| ensures UrlMatchAt(word, p).None? {
      if p == 0 {
        assert SpaceRun(word, 4) == 0;
      } else if p + 4 <= |word| {
        assert word[p..p + 4][0] != '@';
      }
    }
  }
}
