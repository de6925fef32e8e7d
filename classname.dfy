/**
 * The page's `addClass` helper edits an element's class string: it tests the
 * string against the pattern `^|name| name |name$` and, when the test passes,
 * joins the string and the name with a space and replaces every run of
 * whitespace by one space. The `^` alternative matches the empty string at
 * the start of every input, so the test always passes and the name is always
 * appended, whether or not it is already present.
 */
module ClassName {

  /** `\s` in a JavaScript regular expression: the WhiteSpace and LineTerminator characters. */
  predicate IsWhitespace(c: char) {
    c == '\t' || c == '\n' || c == '\U{000B}' || c == '\U{000C}' || c == '\r' || c == ' ' ||
    c == '\U{00A0}' || c == '\U{1680}' || ('\U{2000}' <= c <= '\U{200A}') ||
    c == '\U{2028}' || c == '\U{2029}' || c == '\U{202F}' || c == '\U{205F}' ||
    c == '\U{3000}' || c == '\U{FEFF}'
  }

  predicate HasWhitespace(s: string) {
    exists i :: 0 <= i < |s| && IsWhitespace(s[i])
  }

  /** No two adjacent whitespace characters. */
  predicate NoWhitespaceRun(s: string) {
    forall i :: 0 <= i < |s| - 1 ==> !IsWhitespace(s[i]) || !IsWhitespace(s[i + 1])
  }

  /** Every whitespace character is a plain space. */
  predicate OnlySpaces(s: string) {
    forall i :: 0 <= i < |s| && IsWhitespace(s[i]) ==> s[i] == ' '
  }

  /** s without its leading whitespace. */
  function DropWhitespace(s: string): (r: string)
    ensures |r| <= |s| && r == s[|s| - |r|..]
    ensures r == [] || !IsWhitespace(r[0])
  {
    if s != [] && IsWhitespace(s[0]) then DropWhitespace(s[1..]) else s
  }

  /** `s.replace(/\s+/g, ' ')`: each maximal run of whitespace becomes one space. */
  function CollapseWhitespace(s: string): (r: string)
    ensures (r == []) == (s == [])
    ensures r != [] ==> (IsWhitespace(r[0]) <==> IsWhitespace(s[0]))
    ensures NoWhitespaceRun(r)
    ensures OnlySpaces(r)
    decreases |s|
  {
    if s == [] then []
    else if IsWhitespace(s[0]) then
      var rest := CollapseWhitespace(DropWhitespace(s[1..]));
      PrependKeepsShape(' ', rest);
      [' '] + rest
    else
      var rest := CollapseWhitespace(s[1..]);
      PrependKeepsShape(s[0], rest);
      [s[0]] + rest
  }

  lemma PrependKeepsShape(c: char, r: string)
    requires NoWhitespaceRun(r) && OnlySpaces(r)
    requires r == [] || !IsWhitespace(c) || !IsWhitespace(r[0])
    requires IsWhitespace(c) ==> c == ' '
    ensures NoWhitespaceRun([c] + r) && OnlySpaces([c] + r)
  {
    var t := [c] + r;
    forall i | 0 <= i < |t| - 1 ensures !IsWhitespace(t[i]) || !IsWhitespace(t[i + 1]) {
      if i > 0 {
        assert t[i] == r[i - 1] && t[i + 1] == r[i];
      }
    }
    forall i | 0 <= i < |t| && IsWhitespace(t[i]) ensures t[i] == ' ' {
      if i > 0 {
        assert t[i] == r[i - 1];
      }
    }
  }

  function Flush(current: string): seq<string> {
    if current == [] then [] else [current]
  }

  /** The class names in s, when `current` holds the characters of a name already begun. */
  function TokensAfter(s: string, current: string): seq<string>
    decreases |s|
  {
    if s == [] then Flush(current)
    else if IsWhitespace(s[0]) then Flush(current) + TokensAfter(s[1..], [])
    else TokensAfter(s[1..], current + [s[0]])
  }

  /**
   * The names in a class string: its maximal runs of characters that are not
   * JavaScript `\s` characters, in order. The browser splits `className` only
   * at ASCII whitespace (tab, line feed, form feed, carriage return, space), so
   * the two agree for class strings whose only `\s` characters are those.
   */
  function Tokens(s: string): seq<string> {
    TokensAfter(s, [])
  }

  /** Splitting at a whitespace character splits the names. */
  lemma {:induction false} TokensSplit(a: string, w: char, b: string, current: string)
    requires IsWhitespace(w)
    ensures TokensAfter(a + [w] + b, current) == TokensAfter(a, current) + TokensAfter(b, [])
    decreases |a|
  {
    if a == [] {
      assert a + [w] + b == [w] + b;
      assert ([w] + b)[1..] == b;
    } else {
      assert (a + [w] + b)[1..] == a[1..] + [w] + b;
      if IsWhitespace(a[0]) {
        TokensSplit(a[1..], w, b, []);
      } else {
        TokensSplit(a[1..], w, b, current + [a[0]]);
      }
    }
  }

  /** Leading whitespace holds no names. */
  lemma {:induction false} TokensDropWhitespace(s: string)
    ensures TokensAfter(DropWhitespace(s), []) == TokensAfter(s, [])
    decreases |s|
  {
    if s != [] && IsWhitespace(s[0]) {
      TokensDropWhitespace(s[1..]);
    }
  }

  /** Collapsing whitespace leaves the names as they were. */
  lemma {:induction false} TokensCollapse(s: string, current: string)
    ensures TokensAfter(CollapseWhitespace(s), current) == TokensAfter(s, current)
    decreases |s|
  {
    if s == [] {
    } else if IsWhitespace(s[0]) {
      var rest := DropWhitespace(s[1..]);
      assert ([' '] + CollapseWhitespace(rest))[1..] == CollapseWhitespace(rest);
      TokensCollapse(rest, []);
      TokensDropWhitespace(s[1..]);
    } else {
      assert ([s[0]] + CollapseWhitespace(s[1..]))[1..] == CollapseWhitespace(s[1..]);
      TokensCollapse(s[1..], current + [s[0]]);
    }
  }

  /** A run of non-whitespace characters continues the name begun. */
  lemma {:induction false} TokensOfWord(s: string, current: string)
    requires !HasWhitespace(s) && current + s != []
    ensures TokensAfter(s, current) == [current + s]
    decreases |s|
  {
    if s == [] {
      assert current + s == current;
    } else {
      assert !IsWhitespace(s[0]);
      assert current + s == (current + [s[0]]) + s[1..];
      assert !HasWhitespace(s[1..]) by {
        forall i | 0 <= i < |s[1..]| ensures !IsWhitespace(s[1..][i]) {
          assert s[1..][i] == s[i + 1];
        }
      }
      TokensOfWord(s[1..], current + [s[0]]);
    }
  }

  /** A non-empty name without whitespace is one class name. */
  lemma SingleName(name: string)
    requires name != [] && !HasWhitespace(name)
    ensures Tokens(name) == [name]
  {
    TokensOfWord(name, []);
    assert [] + name == name;
  }

  /** Characters with a meaning in regular-expression syntax. */
  predicate IsRegexSyntaxChar(c: char) {
    c == '^' || c == '$' || c == '\\' || c == '.' || c == '*' || c == '+' || c == '?' ||
    c == '(' || c == ')' || c == '[' || c == ']' || c == '{' || c == '}' || c == '|'
  }

  /** A name that goes into the pattern as plain text, so that `new RegExp` accepts the pattern. */
  predicate IsLiteralName(name: string) {
    forall i :: 0 <= i < |name| ==> !IsRegexSyntaxChar(name[i])
  }

  /** One alternative of a regular expression built from literal text. */
  datatype Alternative = StartOfInput | Anywhere(text: string) | AtEnd(text: string)

  function Contains(s: string, t: string): bool
    decreases |s|
  {
    t <= s || (s != [] && Contains(s[1..], t))
  }

  predicate AlternativeMatches(alt: Alternative, s: string) {
    match alt
    case StartOfInput => true  // the empty match at index 0
    case Anywhere(t) => Contains(s, t)
    case AtEnd(t) => |t| <= |s| && s[|s| - |t|..] == t
  }

  /** `new RegExp(alts.join('|')).test(s)` */
  predicate PatternTest(alts: seq<Alternative>, s: string) {
    exists k :: 0 <= k < |alts| && AlternativeMatches(alts[k], s)
  }

  /** `['^', name, ' ' + name + ' ', name + '$'].join('|')` */
  function AddClassPattern(name: string): seq<Alternative>
    requires IsLiteralName(name)
  {
    [StartOfInput, Anywhere(name), Anywhere(" " + name + " "), AtEnd(name)]
  }

  /** The `^` alternative makes the test pass for every class string. */
  lemma AddClassTestPasses(classString: string, name: string)
    requires IsLiteralName(name)
    ensures PatternTest(AddClassPattern(name), classString)
  {
    assert AlternativeMatches(AddClassPattern(name)[0], classString);
  }

  /** `addClass(el, name)` on an element whose class string is `classString`. */
  function AddClass(classString: string, name: string): string
    requires IsLiteralName(name)
  {
    if PatternTest(AddClassPattern(name), classString)
    then CollapseWhitespace(classString + " " + name)
    else classString
  }

  /**
   * The names after `addClass` are the names before it followed by the added
   * one, even when it was already there; no whitespace run survives and all
   * whitespace left is plain spaces.
   */
  lemma AddClassAppends(classString: string, name: string)
    requires IsLiteralName(name)
    ensures Tokens(AddClass(classString, name)) == Tokens(classString) + Tokens(name)
    ensures NoWhitespaceRun(AddClass(classString, name))
    ensures OnlySpaces(AddClass(classString, name))
  {
    AddClassTestPasses(classString, name);
    var joined := classString + " " + name;
    assert joined == classString + [' '] + name;
    TokensCollapse(joined, []);
    TokensSplit(classString, ' ', name, []);
  }

  /** With the page's own names: one more class name at the end. */
  lemma AddNamedClass(classString: string, name: string)
    requires IsLiteralName(name) && name != [] && !HasWhitespace(name)
    ensures Tokens(AddClass(classString, name)) == Tokens(classString) + [name]
  {
    AddClassAppends(classString, name);
    SingleName(name);
  }

  /** A name that is already there is added a second time, unlike what the doc comment of `addClass` says. */
  lemma AddClassDuplicates(classString: string, name: string)
    requires IsLiteralName(name) && name != [] && !HasWhitespace(name)
    requires name in Tokens(classString)
    ensures multiset(Tokens(AddClass(classString, name)))[name] == multiset(Tokens(classString))[name] + 1
  {
    AddNamedClass(classString, name);
    assert multiset(Tokens(classString) + [name]) == multiset(Tokens(classString)) + multiset{name};
  }
}
