/**
 * Character classes and the java.lang.String operations the command-line core relies on:
 * `strip`, `trim`, `startsWith`, and joining lines with a separator.
 */
module Text {

  /** `\s` of a java.util.regex pattern compiled without UNICODE_CHARACTER_CLASS: [ \t\n\x0B\f\r]. */
  predicate IsRegexSpace(c: char) {
    c == ' ' || c == '\t' || c == '\n' || c == '\U{B}' || c == '\U{C}' || c == '\r'
  }

  /** The line terminators that the regex `.` does not match (neither DOTALL nor UNIX_LINES is set). */
  predicate IsLineTerminator(c: char) {
    c == '\n' || c == '\r' || c == '\U{85}' || c == '\U{2028}' || c == '\U{2029}'
  }

  /**
   * Character.isWhitespace, the test String.strip uses: the controls U+0009..U+000D and U+001C..U+001F,
   * and the space, line and paragraph separators other than the non-breaking spaces U+00A0, U+2007, U+202F.
   */
  predicate IsJavaWhitespace(c: char) {
    ('\t' <= c <= '\r') || ('\U{1C}' <= c <= ' ') || c == '\U{1680}' || ('\U{2000}' <= c <= '\U{2006}')
    || ('\U{2008}' <= c <= '\U{200A}') || c == '\U{2028}' || c == '\U{2029}' || c == '\U{205F}' || c == '\U{3000}'
  }

  /** The characters String.trim removes: every code point up to and including U+0020. */
  predicate IsTrimmable(c: char) {
    c <= ' '
  }

  predicate All(s: string, p: char -> bool) {
    forall i :: 0 <= i < |s| ==> p(s[i])
  }

  /** The length of the longest prefix of `s` whose characters all satisfy `p`. */
  function LeadingCount(s: string, p: char -> bool): (n: nat)
    ensures n <= |s|
    ensures All(s[..n], p)
    ensures n < |s| ==> !p(s[n])
  {
    if s == [] || !p(s[0]) then 0
    else
      var m := LeadingCount(s[1..], p);
      assert s[..m + 1] == [s[0]] + s[1..][..m];
      m + 1
  }

  /** The length of the longest suffix of `s` whose characters all satisfy `p`. */
  function TrailingCount(s: string, p: char -> bool): (n: nat)
    ensures n <= |s|
    ensures All(s[|s| - n..], p)
    ensures n < |s| ==> !p(s[|s| - 1 - n])
  {
    if s == [] || !p(s[|s| - 1]) then 0
    else
      var init := s[..|s| - 1];
      var m := TrailingCount(init, p);
      assert s[|s| - (m + 1)..] == init[|init| - m..] + [s[|s| - 1]];
      m + 1
  }

  /** `r` is `s` without a prefix and a suffix made only of characters satisfying `p`. */
  ghost predicate Surrounds(s: string, r: string, p: char -> bool) {
    exists a :: 0 <= a <= |s| - |r| && s[a..a + |r|] == r && All(s[..a], p) && All(s[a + |r|..], p)
  }

  /** `s` with every leading and every trailing character that satisfies `p` removed. */
  function StripBy(s: string, p: char -> bool): (r: string)
    ensures r == [] || (!p(r[0]) && !p(r[|r| - 1]))
    ensures Surrounds(s, r, p)
  {
    var a := LeadingCount(s, p);
    var rest := s[a..];
    var b := TrailingCount(rest, p);
    var r := rest[..|rest| - b];
    SuffixOfRest(s, a, b);
    assert r == s[a..|s| - b];
    r
  }

  /** The last `b` characters of `s[a..]` are the last `b` of `s`. */
  lemma SuffixOfRest(s: string, a: nat, b: nat)
    requires a <= |s| && b <= |s| - a
    ensures s[a..][|s| - a - b..] == s[|s| - b..]
    ensures b < |s| - a ==> s[a..][|s| - a - 1 - b] == s[|s| - 1 - b]
  {
  }

  /** String.strip: removes leading and trailing Character.isWhitespace characters. */
  function Strip(s: string): (r: string)
    ensures r == [] || (!IsJavaWhitespace(r[0]) && !IsJavaWhitespace(r[|r| - 1]))
    ensures Surrounds(s, r, IsJavaWhitespace)
  {
    StripBy(s, IsJavaWhitespace)
  }

  /** String.trim: removes leading and trailing characters up to U+0020. */
  function Trim(s: string): (r: string)
    ensures r == [] || (!IsTrimmable(r[0]) && !IsTrimmable(r[|r| - 1]))
    ensures Surrounds(s, r, IsTrimmable)
  {
    StripBy(s, IsTrimmable)
  }

  /** String.startsWith. */
  predicate StartsWith(s: string, prefix: string) {
    |prefix| <= |s| && s[..|prefix|] == prefix
  }

  /** Collectors.joining(sep): the lines with `sep` between consecutive ones. */
  function Join(lines: seq<string>, sep: string): (r: string)
    ensures lines != [] ==> lines[0] <= r
  {
    if lines == [] then []
    else if |lines| == 1 then lines[0]
    else lines[0] + sep + Join(lines[1..], sep)
  }

  /** The pieces of `s` between occurrences of `sep`; the reading of a message one line at a time. */
  function Split(s: string, sep: char): (r: seq<string>)
    ensures r != []
    decreases |s|
  {
    var k := LeadingCount(s, c => c != sep);
    if k == |s| then [s] else [s[..k]] + Split(s[k + 1..], sep)
  }

  /** A string that neither starts nor ends with whitespace is its own `strip`. */
  lemma StripUnchanged(s: string)
    requires s == [] || (!IsJavaWhitespace(s[0]) && !IsJavaWhitespace(s[|s| - 1]))
    ensures Strip(s) == s
  {
    var a := LeadingCount(s, IsJavaWhitespace);
    assert a == 0;
    assert s[a..] == s;
    var b := TrailingCount(s, IsJavaWhitespace);
    assert b == 0;
    assert s[..|s| - b] == s;
  }

  /** `strip` keeps a first character that is not whitespace. */
  lemma StripKeepsFirst(s: string)
    requires s != [] && !IsJavaWhitespace(s[0])
    ensures Strip(s) != [] && Strip(s)[0] == s[0]
  {
    var a := LeadingCount(s, IsJavaWhitespace);
    assert a == 0;
    assert s[a..] == s;
    var b := TrailingCount(s, IsJavaWhitespace);
    assert s[0..][0] == s[0];
    assert b < |s|;
    assert s[..|s| - b][0] == s[0];
  }

  lemma LeadingCountStopsAt(a: string, b: string, p: char -> bool)
    requires All(a, p)
    requires b != [] && !p(b[0])
    ensures LeadingCount(a + b, p) == |a|
  {
    var n := LeadingCount(a + b, p);
    assert (a + b)[..|a|] == a;
  }

  /** A string whose every character satisfies `p` is counted in full. */
  lemma {:induction false} LeadingCountAll(s: string, p: char -> bool)
    requires All(s, p)
    ensures LeadingCount(s, p) == |s|
  {
    if s != [] {
      assert All(s[1..], p);
      LeadingCountAll(s[1..], p);
    }
  }

  /** Joining lines free of `sep` and splitting the message at `sep` gives the lines back. */
  lemma {:induction false} SplitJoin(lines: seq<string>, sep: char)
    requires lines != []
    requires forall i :: 0 <= i < |lines| ==> sep !in lines[i]
    ensures Split(Join(lines, [sep]), sep) == lines
  {
    var noSep := (c: char) => c != sep;
    var first := lines[0];
    assert All(first, noSep);
    if |lines| == 1 {
      LeadingCountAll(first, noSep);
      assert Split(Join(lines, [sep]), sep) == [first];
    } else {
      var tail := Join(lines[1..], [sep]);
      var msg := first + [sep] + tail;
      assert Join(lines, [sep]) == msg;
      LeadingCountStopsAt(first, [sep] + tail, noSep);
      assert first + ([sep] + tail) == msg;
      assert LeadingCount(msg, noSep) == |first|;
      assert msg[..|first|] == first;
      assert msg[|first| + 1..] == tail;
      assert Split(msg, sep) == [first] + Split(tail, sep);
      SplitJoin(lines[1..], sep);
      assert lines == [first] + lines[1..];
    }
  }
}
