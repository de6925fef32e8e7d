# is_friday in Dafny

The repository is a web page that answers "is it Friday?" and a tiny static file server that hosts it.
The page shows a loading animation whose text cycles through three Swedish messages.
It then reveals either a looping YouTube video (on a Friday) or a big "no" element.
When the video ends, it replays it at a playback rate picked at random.

This project models the decision logic of both parts and proves what it promises:

- `regex.dfy`, module `RegexTest`: the shape of regular expression the server tests a pathname against (`^`? literal `.{0,n}` `$`, optionally case-insensitive). It models how `RegExp.prototype.test` searches start positions from left to right. `TestMeansSuffix` proves what such a test decides.
- `server.dfy`, module `StaticServer`: the server's request handling.
  - The pathname `/` stands for `/index.html`.
  - The content type comes from an ordered chain of suffix tests: css, then javascript, then `.htm` followed by up to three characters, then plain text.
  - The path to open is the base directory followed by the normalised pathname.
- `classname.dfy`, module `ClassName`: the page's `addClass`, which edits a class string.
  - The test it guards the edit with (`^|name| name |name$`) always passes, because the `^` alternative matches the empty string at the start of every input. So the name is always appended, even when it is already there. The doc comment says the name is added "if it's not already there"; the model follows the code, and `AddClassDuplicates` shows the difference.
  - Every run of JavaScript whitespace is collapsed to one space.
- `loading.dfy`, module `LoadingScreen`:
  - the next loading text;
  - the condition for ending the loading screen;
  - the playback-rate index chosen on replay;
  - a `Page` class whose fields the event handlers update: loading text, class strings, player readiness, whether the listener is registered, what has been revealed, `playVideo` calls and the rates set.

Inputs that come from outside the modelled code are parameters:
- Node's `path.normalize` is a function `normalize: string -> string`.
- `removeClass(el, 'hidden')` is a function `removeHidden: string -> string`.
- "Is it Friday" is a boolean given with each event.
- The random draw `Math.floor(Math.random() * 100)` is an integer in [0, 100).
- An animation event's elapsed time is a real number of seconds.

## Model

| member | source | states |
|---|---|---|
| `RegexTest.TestMeansSuffix` | server.js:21-25 | A test of `^`? literal `.{0,n}` `$` passes exactly when the input ends with the literal followed by at most n characters, none a line terminator (and, with `^`, nothing before the literal). |
| `RegexTest.TailThenEndMeans` | server.js:25 | Greedy `.{0,n}$` with backtracking succeeds exactly when at most n characters remain and none is a line terminator. |
| `RegexTest.SearchFromMeans` | server.js:21 | The left-to-right search finds a match exactly when the pattern matches at some start position. |
| `RegexTest.Test` | server.js:13-25 | `re.test(s)` as a search from every start position in turn; `TestMeansSuffix` states what it decides. |
| `StaticServer.RootPatternMeans` | server.js:13 | `/^\/$/` accepts exactly the string `/`. |
| `StaticServer.CssPatternMeans` | server.js:21 | `/\.css$/i` accepts exactly the strings ending in `.css` in any ASCII letter case. |
| `StaticServer.JsPatternMeans` | server.js:23 | `/\.js$/i` accepts exactly the strings ending in `.js` in any letter case. |
| `StaticServer.HtmlPatternMeans` | server.js:25 | `/\.htm(.{0,3})$/i` accepts exactly the strings ending in `.htm` (any case) followed by zero to three characters that are not line terminators. |
| `StaticServer.RequestPathname` | server.js:13-15 | The pathname `/` becomes `/index.html`; every other pathname passes through unchanged. |
| `StaticServer.ContentTypeOf` | server.js:19-29 | The first suffix test that passes chooses the type; `CssSuffixIsCss`, `JsSuffixIsJavascript`, `HtmSuffixIsHtml` and `OtherIsPlain` state each outcome as an if-and-only-if. |
| `StaticServer.CssSuffixIsCss` | server.js:21-22 | The type is `text/css` if and only if the pathname ends in `.css`, in any case. |
| `StaticServer.JsSuffixIsJavascript` | server.js:21-24 | The type is `application/javascript` if and only if the pathname ends in `.js` and not in `.css`. |
| `StaticServer.HtmSuffixIsHtml` | server.js:21-26 | The type is `text/html` if and only if neither earlier test fires and the pathname ends in `.htm` plus at most three characters. |
| `StaticServer.OtherIsPlain` | server.js:21-29 | The type is `text/plain` if and only if none of the three suffix tests fires. |
| `StaticServer.FirstMatchWins` | server.js:21-29 | `x.htm.js` passes the html test but is classified `application/javascript`, because the earlier test wins. |
| `StaticServer.CssInAnyCase` | server.js:21-22 | `/style.CSS` and `/a.js.css` are `text/css`. |
| `StaticServer.HtmIsHtml` | server.js:25-26 | `/a.htm` is `text/html`. |
| `StaticServer.HtmlIsHtml` | server.js:25-26 | `/a.html` is `text/html`. |
| `StaticServer.UpperCaseHtmlIsHtml` | server.js:25-26 | `/a.HTML` is `text/html`. |
| `StaticServer.HtmlTwoMoreIsHtml` | server.js:25-26 | `/a.htmlx` (two characters after `.htm`) is `text/html`. |
| `StaticServer.HtmlThreeMoreIsHtml` | server.js:25-26 | `/a.htmlxy` (three characters after `.htm`) is `text/html`. |
| `StaticServer.HtmlTailBeyondBoundary` | server.js:25-29 | `/a.htmlxyz` (four characters after `.htm`) and `/a.htm` followed by a newline are `text/plain`. |
| `StaticServer.FilesystemPath` | server.js:32 | The path to open starts with the base directory and continues with the normalised pathname, nothing else. |
| `StaticServer.ResolveRequest` | server.js:13-32 | Substitution happens first; the type and the path derive from the substituted pathname; the path has the base directory as prefix; a request for `/` is `text/html`. |
| `StaticServer.RootIsHtml` | server.js:13-29 | The pathname `/` is classified `text/html`. |
| `StaticServer.RootServesIndex` | server.js:13-32 | A request for `/` resolves to the same pathname, path and type as one for `/index.html`. |
| `ClassName.CollapseWhitespace` | script.js:277 | `replace(/\s+/g, ' ')` leaves no two adjacent whitespace characters, only plain spaces, is empty only for empty input, and starts with whitespace exactly when the input does. |
| `ClassName.TokensCollapse` | script.js:277 | Collapsing whitespace does not change the sequence of names separated by JavaScript `\s` characters. |
| `ClassName.TokensSplit` | script.js:275-276 | Joining two strings with a space gives the `\s`-separated names of the first followed by those of the second. |
| `ClassName.AddClassTestPasses` | script.js:268-274 | The pattern `^|name| name |name$` matches every class string, so the `if` always takes its branch. |
| `ClassName.AddClass` | script.js:267-279 | Test the pattern, then join with a space and collapse whitespace; `AddClassAppends` states the class names that result. |
| `ClassName.AddClassAppends` | script.js:267-279 | The names separated by JavaScript `\s` characters after `addClass` are those before it followed by those of the added string, with no whitespace run and only plain spaces left. |
| `ClassName.AddNamedClass` | script.js:267-279 | For a name without whitespace, `addClass` appends exactly that one `\s`-separated name. |
| `ClassName.AddClassDuplicates` | script.js:261-279 | A name already present among the `\s`-separated names is added again, so it occurs once more than before, contrary to the doc comment. |
| `LoadingScreen.IndexOf` | script.js:102-103 | `indexOf` gives -1 exactly when the text is absent, and otherwise the first position holding it. |
| `LoadingScreen.IndexOfLoadingText` | script.js:8-12 | The three loading texts are distinct, so each is found at its own position. |
| `LoadingScreen.NextIndex` | script.js:102-105 | The next index is a valid position in the loading texts. |
| `LoadingScreen.NextText` | script.js:102-105 | The next text is always one of the loading texts, and it is the first one when the current text is not among them. |
| `LoadingScreen.NextTextFollows` | script.js:102-105 | From the i-th loading text the next is the ((i + 1) mod 3)-th. |
| `LoadingScreen.NextTextCycles` | script.js:102-105 | Three events bring every loading text back to itself. |
| `LoadingScreen.ShouldHide` | script.js:109 | The condition for ending the loading screen; `HideCondition` states it in seconds. |
| `LoadingScreen.HideCondition` | script.js:109 | Loading ends exactly when six seconds or more have passed and either the player is ready or it is not Friday. |
| `LoadingScreen.RateIndex` | script.js:198 | The rate index from a draw in [0, 100) is a valid index, so the rate is one of the seven listed. |
| `LoadingScreen.EveryRateReachable` | script.js:198 | Each of the seven rates is chosen by some draw. |
| `LoadingScreen.DrawsPerRate` | script.js:191-198 | Of the 100 draws, 15 choose each of the first two rates and 14 each of the others. So whatever rate is playing, a replay keeps it for at least 14 draws in 100; the new rate is only "probably" different. |
| `LoadingScreen.SetHidden` | script.js:253-258 | Hiding an element leaves `hidden` among the `\s`-separated names of its class string and no whitespace run in it. |
| `LoadingScreen.HiddenAppended` | script.js:253-258 | `setVisibility(el, false)` appends exactly the name `hidden` to the `\s`-separated names of the element's class string. |
| `LoadingScreen.FadeIn` | script.js:214-216 | `addClass(el, 'fade-in')`; `FadeInAppends` states the class names that result. |
| `LoadingScreen.FadeInAppends` | script.js:214-216 | `fadeIn` appends exactly the name `fade-in` to the `\s`-separated names of the element's class string. |
| `LoadingScreen.LiteralNames` | script.js:214-258 | The class names the page adds, `hidden` and `fade-in`, contain no regular-expression syntax and no whitespace. |
| `LoadingScreen.Page.constructor` | script.js:82-86 | Initially the listener is registered, nothing is revealed, no player exists and no rate has been set. |
| `LoadingScreen.Page.OnPlayerReady` | script.js:183-186 | The player becomes ready and the Friday element is the newly found iframe; nothing else changes. |
| `LoadingScreen.Page.HideLoading` | script.js:119-135 | The listener is removed and the loading element gets `hidden`. The Friday element is revealed and faded in, and the video started once, exactly when it is Friday; otherwise the "no" element is revealed and faded in. |
| `LoadingScreen.Page.LoadingListener` | script.js:101-112 | While registered, each event advances the text to `NextText` and ends loading exactly when the hide condition holds. Ending loading hides the loading element, reveals and fades in the Friday element (starting the video once) or the "no" element, and leaves the other one as it was. Once removed, events change nothing. |
| `LoadingScreen.Page.OnPlayerStateChange` | script.js:195-202 | When the video ends, the rate at the drawn index (`draw mod 7`, always one of the seven listed) is set and the video plays once more; otherwise nothing changes. |
| `LoadingScreen.NotFridayTimeline` | script.js:101-134 | On another day, events at 0, 2, 4 and 6 seconds cycle the text back to the first one and reveal the "no" element at 6 seconds, without starting the video. |
| `LoadingScreen.LateFridayTimeline` | script.js:101-186 | On a Friday the page keeps loading at 8 seconds while the player is not ready, and a state change other than the end of the video changes nothing before the player is ready. The first event after `onPlayerReady` reveals the video and starts it once. |

## Left out

- The HTTP plumbing of server.js is not modelled because it is I/O: `http.createServer`, `url.parse`, `fs.createReadStream` and `pipe`, the stream's `error` event with its 404, and `listen`.
- The 500 path at server.js:41-45 is left out. That includes a pathname that `url.parse` leaves `null`: `path.normalize(null)` throws and the request ends with 500. The model takes the pathname as a string.
- The server computes a content type but never sends it (`writeHead(200, { })` at server.js:34). The model only computes it.
- Node's `path.normalize` is not part of this model. It is an arbitrary function parameter, so nothing is claimed about confinement to the base directory.
- `console.log` output in both files is left out.
- `removeClass`, and with it `setVisibility(el, true)`, is not modelled. Its effect depends on how the JavaScript regular-expression engine runs a global replace of an unescaped alternation. `HideLoading` takes it as the parameter `removeHidden`. The constructor takes the loading element's class string as it is after the first `setVisibility(loadingEl, true)` at script.js:83.
- DOM access is not modelled: `querySelector`, event-listener registration (only a `listening` flag is kept), and the script-tag injection in `loadYoutubeApi`. `innerText` is assumed to read back the text last written.
- YouTube player construction (`onYouTubeIframeAPIReady`) and the player's own behaviour are not modelled. Only `playVideo` calls are counted, and the rates passed to `setPlaybackRate` are recorded by their position in the list.
- `isFriday()` reads the clock at most once in `loadingListener` (the `||` skips it when the player exists) and twice in `hideLoading` (script.js:126 and 132). The model uses one reading per event, so a change of day between those readings is not modelled. The reading in `loadYoutubeApi` (script.js:147) is not modelled either: there no player is created on other days, while the model allows `OnPlayerReady` on any day.
- Class names are modelled as the names separated by JavaScript `\s` characters (`Tokens`). The browser separates class names only at ASCII whitespace (tab, line feed, form feed, carriage return, space). The two differ for a class string holding another `\s` character, such as a no-break space, a vertical tab, U+2028, U+2029 or U+FEFF. For such a string the browser sees one class name where `Tokens` sees two, and `addClass` really splits that name, because the collapse turns the character into a space. The model does not capture that split.
- A character stands for one UTF-16 code unit outside the surrogate range. Strings holding surrogate code units, such as characters outside the Basic Multilingual Plane, are outside the model: JavaScript counts such a character as two code units for `.{0,3}`.
- AddClass: its precondition admits only names without regular-expression syntax characters. Other names could make `new RegExp` throw or change what the pattern means. The page passes only `hidden` and `fade-in`.
- Page.HideLoading: requires the player to be ready on a Friday. Otherwise `player.playVideo()` would throw. `LoadingListener` only calls it when that holds.
- Page.OnPlayerStateChange: requires the player to be ready when the video has ended. Only that branch reads the module-level `player`, which `onPlayerReady` sets before the player reports state changes; any other state change is handled whether or not the player is ready.
