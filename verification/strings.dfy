/**
 * The `String` helpers of both revisions: wrapping in quotes or braces,
 * removing every occurrence of a character, stripping trailing spaces, and
 * testing a string against a list of regular expressions.
 */
module Strings {

  /** `quotes`: the string between two `"`. */
  function Quotes(s: string): (r: string)
    ensures |r| == |s| + 2 && r[0] == '"' && r[|r| - 1] == '"' && r[1..|r| - 1] == s
  {
    "\"" + s + "\""
  }

  /** `braces`: the string between `{` and `}`. */
  function Braces(s: string): (r: string)
    ensures |r| == |s| + 2 && r[0] == '{' && r[|r| - 1] == '}' && r[1..|r| - 1] == s
  {
    "{" + s + "}"
  }

  /**
   * `replacingOccurrences(of: c, with: "")` for a one-character target: no
   * `c` is left, and every other character is kept as often as it occurs.
   */
  function Without(s: string, c: char): (r: string)
    ensures c !in r
    ensures multiset(r) == multiset(s)[c := 0]
  {
    if |s| == 0 then ""
    else
      assert s == [s[0]] + s[1..];
      (if s[0] == c then "" else [s[0]]) + Without(s[1..], c)
  }

  /** `noQuotes`: every `"` removed. */
  function NoQuotes(s: string): string {
    Without(s, '"')
  }

  /**
   * `noSpaces`: every `' '` removed, by a literal (code-unit) comparison as
   * in the newer revision; the older revision's comparison is not literal.
   */
  function NoSpaces(s: string): string {
    Without(s, ' ')
  }

  /** Removal works character by character, so it keeps the order of what it keeps. */
  lemma {:induction false} WithoutConcat(a: string, b: string, c: char)
    ensures Without(a + b, c) == Without(a, c) + Without(b, c)
  {
    if |a| == 0 {
      assert a + b == b;
    } else {
      assert (a + b)[1..] == a[1..] + b;
      WithoutConcat(a[1..], b, c);
    }
  }

  /** A single character is removed exactly when it is the target. */
  lemma WithoutSingle(x: char, c: char)
    ensures Without([x], c) == if x == c then "" else [x]
  {
    assert [x][1..] == "";
  }

  /** Removal is the identity on a string without the target, hence idempotent. */
  lemma {:induction false} WithoutAbsent(s: string, c: char)
    requires c !in s
    ensures Without(s, c) == s
    ensures Without(Without(s, c), c) == Without(s, c)
  {
    if |s| > 0 {
      assert s[0] != c;
      assert s == [s[0]] + s[1..];
      WithoutAbsent(s[1..], c);
    }
  }

  /** Removal is idempotent on every string. */
  lemma WithoutIdempotent(s: string, c: char)
    ensures Without(Without(s, c), c) == Without(s, c)
  {
    WithoutAbsent(Without(s, c), c);
  }

  /** The result is shorter by the number of occurrences of the target. */
  lemma WithoutLength(s: string, c: char)
    ensures |Without(s, c)| == |s| - multiset(s)[c]
  {
    var m := multiset(s);
    assert m == m[c := 0] + multiset{}[c := m[c]];
    assert |multiset(Without(s, c))| == |Without(s, c)|;
  }

  /** `noQuotes` undoes `quotes` for a string without `"`. */
  lemma NoQuotesUndoesQuotes(s: string)
    requires '"' !in s
    ensures NoQuotes(Quotes(s)) == s
  {
    WithoutConcat("\"" + s, "\"", '"');
    WithoutConcat("\"", s, '"');
    WithoutSingle('"', '"');
    WithoutAbsent(s, '"');
  }

  /** The quotes round trip of the library's tests. */
  lemma QuotesExample()
    ensures NoQuotes(Quotes("hello, world       ")) == "hello, world       "
  {
    NoQuotesUndoesQuotes("hello, world       ");
  }

  /**
   * `noTrailingWhitespace`, by its inner `strip`: drop a trailing `' '` and
   * repeat while another one is exposed. The result is a prefix of the
   * input that does not end in `' '`, and only `' '` characters were removed.
   */
  function NoTrailingWhitespace(s: string): (r: string)
    ensures r <= s
    ensures |r| == 0 || r[|r| - 1] != ' '
    ensures forall i :: |r| <= i < |s| ==> s[i] == ' '
  {
    if |s| == 0 || s[|s| - 1] != ' ' then s
    else
      var shorter := s[..|s| - 1];
      if |shorter| > 0 && shorter[|shorter| - 1] == ' ' then NoTrailingWhitespace(shorter)
      else shorter
  }

  /**
   * Stripping is idempotent, leaves a string not ending in `' '` unchanged,
   * and turns a string of spaces into the empty string.
   */
  lemma NoTrailingWhitespaceProperties(s: string)
    ensures NoTrailingWhitespace(NoTrailingWhitespace(s)) == NoTrailingWhitespace(s)
    ensures |s| == 0 || s[|s| - 1] != ' ' ==> NoTrailingWhitespace(s) == s
    ensures (forall i :: 0 <= i < |s| ==> s[i] == ' ') ==> NoTrailingWhitespace(s) == ""
  {
  }

  /** The example of the library's tests. */
  lemma NoTrailingWhitespaceExample()
    ensures NoTrailingWhitespace("hello, world       ") == "hello, world"
  {
    var s := "hello, world       ";
    var r := NoTrailingWhitespace(s);
    assert s[11] == 'd';
    assert forall i :: 12 <= i < |s| ==> s[i] == ' ';
    assert |r| >= 12;
    assert r[|r| - 1] == s[|r| - 1];
    assert |r| == 12;
    assert r == s[..12];
  }

  /**
   * `hasMatch(for: [String])`: tries the patterns in order with the
   * single-pattern test `hasMatch(text, regex)` and stops at the first
   * match. The result is whether some pattern matches (false for no
   * patterns); `tried` counts the patterns tested, and on a match the last
   * one tried is the first matching pattern.
   */
  method HasMatchAny(s: string, regexArray: seq<string>, hasMatch: (string, string) -> bool) returns (found: bool, ghost tried: nat)
    ensures found <==> exists i :: 0 <= i < |regexArray| && hasMatch(s, regexArray[i])
    ensures tried <= |regexArray|
    ensures forall j :: 0 <= j < tried - 1 ==> !hasMatch(s, regexArray[j])
    ensures found ==> tried > 0 && hasMatch(s, regexArray[tried - 1])
    ensures !found ==> tried == |regexArray|
  {
    tried := 0;
    for index := 0 to |regexArray|
      invariant tried == index
      invariant forall j :: 0 <= j < index ==> !hasMatch(s, regexArray[j])
    {
      tried := tried + 1;
      if hasMatch(s, regexArray[index]) {
        return true, tried;
      }
    }
    return false, tried;
  }
}
