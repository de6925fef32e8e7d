/**
 * The JavaScript regular expressions the static server tests a pathname
 * against all have one shape: an optional `^`, a literal, `.{0,n}` and `$`,
 * with or without the `i` flag (`/^\/$/`, `/\.css$/i`, `/\.js$/i`,
 * `/\.htm(.{0,3})$/i`). `RegExp.prototype.test` tries the pattern at every
 * start position from left to right; `Test` below does the same, and
 * `TestMeansSuffix` says what such a test decides.
 *
 * A character stands for one UTF-16 code unit outside the surrogate range;
 * strings holding surrogate code units are outside this model.
 */
module RegexTest {

  /** The characters `.` does not match when the `s` flag is absent. */
  predicate IsLineTerminator(c: char) {
    c == '\n' || c == '\r' || c == '\U{2028}' || c == '\U{2029}'
  }

  predicate NoLineTerminator(s: string) {
    forall i :: 0 <= i < |s| ==> !IsLineTerminator(s[i])
  }

  function LowerAscii(c: char): char {
    if 'A' <= c <= 'Z' then (c as int + 32) as char else c
  }

  /**
   * One pattern character against one input character. Under the `i` flag
   * without the `u` flag, JavaScript folds case with toUpperCase and refuses
   * any fold that takes a non-ASCII character to an ASCII one, so for the
   * ASCII pattern characters used here the fold is exactly ASCII case.
   */
  predicate CharMatches(ignoreCase: bool, p: char, c: char) {
    if ignoreCase then LowerAscii(c) == LowerAscii(p) else c == p
  }

  /** `^`? literal `.{0,maxTail}` `$`, and whether the `i` flag is set. */
  datatype Regex = Regex(atStart: bool, literal: string, maxTail: nat, ignoreCase: bool)

  predicate LiteralAt(re: Regex, s: string, i: nat)
    requires i + |re.literal| <= |s|
  {
    forall j :: 0 <= j < |re.literal| ==> CharMatches(re.ignoreCase, re.literal[j], s[i + j])
  }

  /**
   * `.{0,n}$` from position k: greedy, so it first tries to consume one more
   * character, and backtracks to try `$` where it stands.
   */
  predicate TailThenEnd(s: string, k: nat, n: nat)
    requires k <= |s|
    decreases n
  {
    (n > 0 && k < |s| && !IsLineTerminator(s[k]) && TailThenEnd(s, k + 1, n - 1)) || k == |s|
  }

  /** The whole pattern, tried with its first character at position i. */
  predicate MatchAt(re: Regex, s: string, i: nat)
    requires i <= |s|
  {
    (!re.atStart || i == 0) &&
    i + |re.literal| <= |s| && LiteralAt(re, s, i) &&
    TailThenEnd(s, i + |re.literal|, re.maxTail)
  }

  /** The engine's search: start positions i, i + 1, ..., |s| in turn. */
  predicate SearchFrom(re: Regex, s: string, i: nat)
    requires i <= |s|
    decreases |s| - i
  {
    MatchAt(re, s, i) || (i < |s| && SearchFrom(re, s, i + 1))
  }

  /** `re.test(s)`. */
  predicate Test(re: Regex, s: string) {
    SearchFrom(re, s, 0)
  }

  /** The input ends with the literal followed by exactly `tail` characters, none a line terminator. */
  predicate EndsWithTail(re: Regex, s: string, tail: nat) {
    |re.literal| + tail <= |s| &&
    (!re.atStart || |s| == |re.literal| + tail) &&
    LiteralAt(re, s, |s| - tail - |re.literal|) &&
    NoLineTerminator(s[|s| - tail..])
  }

  /** What a test of such a pattern decides, stated without the search. */
  ghost predicate EndsWithMatch(re: Regex, s: string) {
    exists tail :: 0 <= tail <= re.maxTail && EndsWithTail(re, s, tail)
  }

  lemma {:induction false} TailThenEndMeans(s: string, k: nat, n: nat)
    requires k <= |s|
    ensures TailThenEnd(s, k, n) <==> |s| - k <= n && NoLineTerminator(s[k..])
    decreases n
  {
    if n > 0 && k < |s| {
      TailThenEndMeans(s, k + 1, n - 1);
      assert s[k..] == [s[k]] + s[k + 1..];
    }
    if k < |s| && !NoLineTerminator(s[k..]) {
      var j :| 0 <= j < |s[k..]| && IsLineTerminator(s[k..][j]);
      assert n > 0 ==> j == 0 || IsLineTerminator(s[k + 1..][j - 1]);
    }
  }

  lemma {:induction false} SearchFromMeans(re: Regex, s: string, i: nat)
    requires i <= |s|
    ensures SearchFrom(re, s, i) <==> exists m :: i <= m <= |s| && MatchAt(re, s, m)
    decreases |s| - i
  {
    if i < |s| {
      SearchFromMeans(re, s, i + 1);
      if m :| i <= m <= |s| && MatchAt(re, s, m) {
        assert m == i || (i + 1 <= m <= |s| && MatchAt(re, s, m));
      }
    }
  }

  /** `re.test(s)` holds exactly when s ends with the literal and at most maxTail further characters that are not line terminators. */
  lemma TestMeansSuffix(re: Regex, s: string)
    ensures Test(re, s) <==> EndsWithMatch(re, s)
  {
    SearchFromMeans(re, s, 0);
    if Test(re, s) {
      var m :| 0 <= m <= |s| && MatchAt(re, s, m);
      var tail := |s| - m - |re.literal|;
      TailThenEndMeans(s, m + |re.literal|, re.maxTail);
      assert EndsWithTail(re, s, tail);
    }
    if EndsWithMatch(re, s) {
      var tail :| 0 <= tail <= re.maxTail && EndsWithTail(re, s, tail);
      var m := |s| - tail - |re.literal|;
      TailThenEndMeans(s, m + |re.literal|, re.maxTail);
      assert MatchAt(re, s, m);
    }
  }
}
