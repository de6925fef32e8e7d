/**
 * The decision logic of the static file server's request handler: which
 * pathname a request stands for, which content type its suffix selects, and
 * which filesystem path is opened for it.
 */
module StaticServer {
  import opened RegexTest

  datatype ContentType = TextCss | ApplicationJavascript | TextHtml | TextPlain {
    function MimeName(): string {
      match this
      case TextCss => "text/css"
      case ApplicationJavascript => "application/javascript"
      case TextHtml => "text/html"
      case TextPlain => "text/plain"
    }
  }

  /** `/^\/$/` */
  const RootPattern := Regex(true, "/", 0, false)
  /** `/\.css$/i` */
  const CssPattern := Regex(false, ".css", 0, true)
  /** `/\.js$/i` */
  const JsPattern := Regex(false, ".js", 0, true)
  /** `/\.htm(.{0,3})$/i` */
  const HtmlPattern := Regex(false, ".htm", 3, true)

  /** s ends with `suffix`, letters compared without regard to ASCII case. */
  predicate EndsWithIgnoringCase(s: string, suffix: string) {
    |suffix| <= |s| &&
    forall j :: 0 <= j < |suffix| ==> LowerAscii(s[|s| - |suffix| + j]) == LowerAscii(suffix[j])
  }

  /** s ends with `.htm` (any case) followed by at most three characters that are not line terminators. */
  ghost predicate EndsWithHtmSuffix(s: string) {
    exists tail :: 0 <= tail <= 3 && HtmBeforeTail(s, tail)
  }

  predicate HtmBeforeTail(s: string, tail: nat) {
    tail <= |s| && EndsWithIgnoringCase(s[..|s| - tail], ".htm") && NoLineTerminator(s[|s| - tail..])
  }

  lemma RootPatternMeans(s: string)
    ensures Test(RootPattern, s) <==> s == "/"
  {
    TestMeansSuffix(RootPattern, s);
    if s == "/" {
      assert EndsWithTail(RootPattern, s, 0);
    }
  }

  lemma CssPatternMeans(s: string)
    ensures Test(CssPattern, s) <==> EndsWithIgnoringCase(s, ".css")
  {
    TestMeansSuffix(CssPattern, s);
    if EndsWithIgnoringCase(s, ".css") {
      assert EndsWithTail(CssPattern, s, 0);
    }
  }

  lemma JsPatternMeans(s: string)
    ensures Test(JsPattern, s) <==> EndsWithIgnoringCase(s, ".js")
  {
    TestMeansSuffix(JsPattern, s);
    if EndsWithIgnoringCase(s, ".js") {
      assert EndsWithTail(JsPattern, s, 0);
    }
  }

  lemma HtmlPatternMeans(s: string)
    ensures Test(HtmlPattern, s) <==> EndsWithHtmSuffix(s)
  {
    TestMeansSuffix(HtmlPattern, s);
    forall tail | 0 <= tail <= 3
      ensures EndsWithTail(HtmlPattern, s, tail) <==> HtmBeforeTail(s, tail)
    {
    }
  }

  /** The pathname `/` stands for `/index.html`. */
  function RequestPathname(pathname: string): (r: string)
    ensures pathname == "/" ==> r == "/index.html"
    ensures pathname != "/" ==> r == pathname
  {
    RootPatternMeans(pathname);
    if Test(RootPattern, pathname) then "/index.html" else pathname
  }

  /** The content type chosen by the first suffix test that passes. */
  function ContentTypeOf(pathname: string): ContentType {
    if Test(CssPattern, pathname) then TextCss
    else if Test(JsPattern, pathname) then ApplicationJavascript
    else if Test(HtmlPattern, pathname) then TextHtml
    else TextPlain
  }

  lemma CssSuffixIsCss(p: string)
    ensures ContentTypeOf(p) == TextCss <==> EndsWithIgnoringCase(p, ".css")
  {
    CssPatternMeans(p);
  }

  lemma JsSuffixIsJavascript(p: string)
    ensures ContentTypeOf(p) == ApplicationJavascript <==>
            !EndsWithIgnoringCase(p, ".css") && EndsWithIgnoringCase(p, ".js")
  {
    CssPatternMeans(p);
    JsPatternMeans(p);
  }

  lemma HtmSuffixIsHtml(p: string)
    ensures ContentTypeOf(p) == TextHtml <==>
            !EndsWithIgnoringCase(p, ".css") && !EndsWithIgnoringCase(p, ".js") && EndsWithHtmSuffix(p)
  {
    CssPatternMeans(p);
    JsPatternMeans(p);
    HtmlPatternMeans(p);
  }

  lemma OtherIsPlain(p: string)
    ensures ContentTypeOf(p) == TextPlain <==>
            !EndsWithIgnoringCase(p, ".css") && !EndsWithIgnoringCase(p, ".js") && !EndsWithHtmSuffix(p)
  {
    CssPatternMeans(p);
    JsPatternMeans(p);
    HtmlPatternMeans(p);
  }

  /** The html test would also accept `x.htm.js`, but the javascript test comes first. */
  lemma FirstMatchWins()
    ensures Test(HtmlPattern, "x.htm.js")
    ensures ContentTypeOf("x.htm.js") == ApplicationJavascript
  {
    var p := "x.htm.js";
    assert HtmBeforeTail(p, 3);
    HtmlPatternMeans(p);
    NotEndsWith(p, ".css", 0);
    assert EndsWithIgnoringCase(p, ".js");
    JsSuffixIsJavascript(p);
  }

  /** A suffix that differs from s at one position is not a suffix of s. */
  lemma NotEndsWith(s: string, suffix: string, j: nat)
    requires j < |suffix|
    requires |suffix| <= |s| ==> LowerAscii(s[|s| - |suffix| + j]) != LowerAscii(suffix[j])
    ensures !EndsWithIgnoringCase(s, suffix)
  {
  }

  /** A pathname whose `.htm` ends `tail` characters from the end, and which ends neither in `.css` nor in `.js`, is html. */
  lemma HtmlWithTail(p: string, tail: nat)
    requires tail <= 3 && HtmBeforeTail(p, tail)
    requires !EndsWithIgnoringCase(p, ".css") && !EndsWithIgnoringCase(p, ".js")
    ensures ContentTypeOf(p) == TextHtml
  {
    HtmSuffixIsHtml(p);
  }

  /** The css test ignores letter case and comes before the javascript test. */
  lemma CssInAnyCase()
    ensures ContentTypeOf("/style.CSS") == TextCss
    ensures ContentTypeOf("/a.js.css") == TextCss
  {
    assert LowerAscii('C') == 'c' && LowerAscii('S') == 's';
    assert EndsWithIgnoringCase("/style.CSS", ".css");
    assert EndsWithIgnoringCase("/a.js.css", ".css");
    CssSuffixIsCss("/style.CSS");
    CssSuffixIsCss("/a.js.css");
  }

  /** `.htm` alone is html. */
  lemma HtmIsHtml()
    ensures ContentTypeOf("/a.htm") == TextHtml
  {
    NotEndsWith("/a.htm", ".css", 1);
    NotEndsWith("/a.htm", ".js", 0);
    HtmlWithTail("/a.htm", 0);
  }

  /** `.html` is html. */
  lemma HtmlIsHtml()
    ensures ContentTypeOf("/a.html") == TextHtml
  {
    NotEndsWith("/a.html", ".css", 0);
    NotEndsWith("/a.html", ".js", 0);
    HtmlWithTail("/a.html", 1);
  }

  /** The tests ignore letter case: `.HTML` is html. */
  lemma UpperCaseHtmlIsHtml()
    ensures ContentTypeOf("/a.HTML") == TextHtml
  {
    var upper := "/a.HTML";
    assert LowerAscii('H') == 'h' && LowerAscii('T') == 't' && LowerAscii('M') == 'm' && LowerAscii('L') == 'l';
    assert EndsWithIgnoringCase(upper[..|upper| - 1], ".htm");
    NotEndsWith(upper, ".css", 0);
    NotEndsWith(upper, ".js", 0);
    HtmlWithTail(upper, 1);
  }

  /** Two characters after `.htm` still make html. */
  lemma HtmlTwoMoreIsHtml()
    ensures ContentTypeOf("/a.htmlx") == TextHtml
  {
    NotEndsWith("/a.htmlx", ".css", 0);
    NotEndsWith("/a.htmlx", ".js", 0);
    HtmlWithTail("/a.htmlx", 2);
  }

  /** Three characters after `.htm` still make html. */
  lemma HtmlThreeMoreIsHtml()
    ensures ContentTypeOf("/a.htmlxy") == TextHtml
  {
    NotEndsWith("/a.htmlxy", ".css", 0);
    NotEndsWith("/a.htmlxy", ".js", 0);
    HtmlWithTail("/a.htmlxy", 3);
  }

  /** A fourth character after `.htm`, or a line terminator after it, makes the pathname plain text. */
  lemma HtmlTailBeyondBoundary()
    ensures ContentTypeOf("/a.htmlxyz") == TextPlain
    ensures ContentTypeOf("/a.htm\n") == TextPlain
  {
    NoHtmSuffix("/a.htmlxyz");
    EndsInLineTerminator("/a.htm\n");
    NotEndsWith("/a.htmlxyz", ".css", 0);
    NotEndsWith("/a.htmlxyz", ".js", 0);
    NotEndsWith("/a.htm\n", ".css", 0);
    NotEndsWith("/a.htm\n", ".js", 0);
    OtherIsPlain("/a.htmlxyz");
    OtherIsPlain("/a.htm\n");
  }

  lemma NoHtmSuffix(s: string)
    requires |s| >= 7 && s[|s| - 4] != '.' && s[|s| - 5] != '.' && s[|s| - 6] != '.' && s[|s| - 7] != '.'
    ensures !EndsWithHtmSuffix(s)
  {
    forall tail | 0 <= tail <= 3 ensures !HtmBeforeTail(s, tail) {
      NotEndsWith(s[..|s| - tail], ".htm", 0);
    }
  }

  lemma EndsInLineTerminator(s: string)
    requires |s| >= 4 && IsLineTerminator(s[|s| - 1]) && s[|s| - 4] != '.'
    ensures !EndsWithHtmSuffix(s)
  {
    forall tail | 0 <= tail <= 3 ensures !HtmBeforeTail(s, tail) {
      if tail == 0 {
        NotEndsWith(s, ".htm", 0);
      } else if tail <= |s| {
        assert s[|s| - tail..][tail - 1] == s[|s| - 1];
      }
    }
  }

  /** The base directory followed by the normalised pathname. `normalize` stands for Node's `path.normalize`. */
  function FilesystemPath(baseDirectory: string, pathname: string, normalize: string -> string): (r: string)
    ensures |r| == |baseDirectory| + |normalize(pathname)|
    ensures r[..|baseDirectory|] == baseDirectory
    ensures r[|baseDirectory|..] == normalize(pathname)
  {
    baseDirectory + normalize(pathname)
  }

  /** What the handler derives from a request before it touches the filesystem. */
  datatype RequestContext = RequestContext(pathname: string, fsPath: string, contentType: ContentType)

  /** Substitution first, then classification and path construction on the substituted pathname. */
  function ResolveRequest(baseDirectory: string, urlPathname: string, normalize: string -> string): (ctx: RequestContext)
    ensures ctx.pathname == RequestPathname(urlPathname)
    ensures ctx.contentType == ContentTypeOf(ctx.pathname)
    ensures |ctx.fsPath| >= |baseDirectory|
    ensures ctx.fsPath[..|baseDirectory|] == baseDirectory
    ensures ctx.fsPath[|baseDirectory|..] == normalize(ctx.pathname)
    ensures urlPathname == "/" ==> ctx.contentType == TextHtml
  {
    var pathname := RequestPathname(urlPathname);
    RootIsHtml();
    RequestContext(pathname, FilesystemPath(baseDirectory, pathname, normalize), ContentTypeOf(pathname))
  }

  lemma RootIsHtml()
    ensures ContentTypeOf(RequestPathname("/")) == TextHtml
  {
    var p := "/index.html";
    assert HtmBeforeTail(p, 1);
    NotEndsWith(p, ".css", 0);
    NotEndsWith(p, ".js", 0);
    HtmSuffixIsHtml(p);
  }

  /** A request for `/` opens the same file, with the same content type, as one for `/index.html`. */
  lemma RootServesIndex(baseDirectory: string, normalize: string -> string)
    ensures ResolveRequest(baseDirectory, "/", normalize) == ResolveRequest(baseDirectory, "/index.html", normalize)
  {
  }
}
