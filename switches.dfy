/**
 * The two switch grammars of CmdProc, written out as parsers:
 *   RX_LONG  = ^\s*--([^\s=-][^\s=]*)(?:\s*(=)(.+))?\s*$
 *   RX_SHORT = ^\s*-([^\s-]\S*)\s*$
 * Both are used with Matcher.matches(), so the whole token must match. `\s` is the ASCII class
 * Text.IsRegexSpace and `.` is any character but a Text.IsLineTerminator.
 */
module Switches {
  import opened Wrappers
  import opened Text

  /** The groups of an RX_LONG match: group 1, and group 3 when group 2 is "=". */
  datatype LongSwitch = LongSwitch(name: string, value: Option<string>)

  /** `[^\s=]` */
  predicate IsNameChar(c: char) {
    !IsRegexSpace(c) && c != '='
  }

  /** `[^\s=-][^\s=]*` */
  predicate IsLongName(name: string) {
    name != [] && name[0] != '-' && All(name, IsNameChar)
  }

  predicate IsValueChar(c: char) {
    !IsLineTerminator(c)
  }

  /** `.+` */
  predicate IsInlineValue(v: string) {
    v != [] && All(v, IsValueChar)
  }

  predicate IsClusterChar(c: char) {
    !IsRegexSpace(c)
  }

  /** `[^\s-]\S*` */
  predicate IsCluster(cluster: string) {
    cluster != [] && cluster[0] != '-' && All(cluster, IsClusterChar)
  }

  /** RX_LONG.matcher(s): None when it does not match, otherwise the captured name and inline value. */
  function ParseLong(s: string): (r: Option<LongSwitch>)
    ensures r.Some? ==> IsLongName(r.value.name)
    ensures r.Some? && r.value.value.Some? ==> IsInlineValue(r.value.value.value)
  {
    LongAfterSpace(s[LeadingCount(s, IsRegexSpace)..])
  }

  /** RX_LONG after its leading `\s*`: `--`, then a name starting with `[^\s=-]`. */
  function LongAfterSpace(t: string): (r: Option<LongSwitch>)
    ensures r.Some? ==> IsLongName(r.value.name)
    ensures r.Some? && r.value.value.Some? ==> IsInlineValue(r.value.value.value)
  {
    if |t| < 3 || t[0] != '-' || t[1] != '-' || t[2] == '-' || !IsNameChar(t[2]) then None
    else LongBody(t[2..])
  }

  /** Group 1 is the longest run of `[^\s=]`; what follows it is the optional assignment and `\s*`. */
  function LongBody(body: string): (r: Option<LongSwitch>)
    requires body != [] && body[0] != '-' && IsNameChar(body[0])
    ensures r.Some? ==> IsLongName(r.value.name)
    ensures r.Some? && r.value.value.Some? ==> IsInlineValue(r.value.value.value)
  {
    var n := LeadingCount(body, IsNameChar);
    LongTail(body[..n], body[n..])
  }

  /** `(?:\s*(=)(.+))?\s*$` after the name: nothing but `\s`, or `\s*` then an assignment. */
  function LongTail(name: string, rest: string): (r: Option<LongSwitch>)
    ensures r.Some? ==> r.value.name == name
    ensures r.Some? && r.value.value.Some? ==> IsInlineValue(r.value.value.value)
  {
    if All(rest, IsRegexSpace) then Some(LongSwitch(name, None))
    else
      match InlineValue(rest[LeadingCount(rest, IsRegexSpace)..])
      case None => None
      case Some(v) => Some(LongSwitch(name, Some(v)))
  }

  /**
   * `=(.+)\s*$`: `.+` is greedy, so it stops at the first line terminator, and only `\s` may follow it.
   */
  function InlineValue(a: string): (r: Option<string>)
    ensures r.Some? ==> IsInlineValue(r.value)
  {
    if a == [] || a[0] != '=' then None
    else
      var v := a[1..];
      var k := LeadingCount(v, IsValueChar);
      if k >= 1 && All(v[k..], IsRegexSpace) then Some(v[..k]) else None
  }

  /** RX_SHORT.matcher(s): None when it does not match, otherwise the cluster (group 1). */
  function ParseShort(s: string): (r: Option<string>)
    ensures r.Some? ==> IsCluster(r.value)
  {
    var t := s[LeadingCount(s, IsRegexSpace)..];
    if |t| < 2 || t[0] != '-' || t[1] == '-' || IsRegexSpace(t[1]) then None
    else
      var body := t[1..];
      var n := LeadingCount(body, IsClusterChar);
      if All(body[n..], IsRegexSpace) then Some(body[..n]) else None
  }

  predicate MatchesLong(s: string) {
    ParseLong(s).Some?
  }

  predicate MatchesShort(s: string) {
    ParseShort(s).Some?
  }

  /** What follows the name in a token RX_LONG reads: `\s*`, or `\s*=value\s*`. */
  function AssignmentTail(w: string, value: Option<string>, q: string): string {
    if value.Some? then w + ("=" + (value.value + q)) else q
  }

  /** A token laid out as RX_LONG reads it: `\s*`, `--`, the name, optionally `\s*=` and the value, then `\s*`. */
  function LongLayout(p: string, name: string, w: string, value: Option<string>, q: string): string {
    p + ("--" + (name + AssignmentTail(w, value, q)))
  }

  /** `s` is `--name`, or `--name=value` when `value` is present, padded with `\s` where RX_LONG allows it. */
  ghost predicate IsLongToken(s: string, name: string, value: Option<string>) {
    exists p, w, q :: All(p, IsRegexSpace) && All(w, IsRegexSpace) && All(q, IsRegexSpace)
                      && s == LongLayout(p, name, w, value, q)
  }

  /** A token laid out as RX_SHORT reads it: `\s*`, `-`, the cluster, then `\s*`. */
  function ShortLayout(p: string, cluster: string, q: string): string {
    p + ("-" + (cluster + q))
  }

  /** `s` is `-cluster`, padded with `\s` where RX_SHORT allows it. */
  ghost predicate IsShortToken(s: string, cluster: string) {
    exists p, q :: All(p, IsRegexSpace) && All(q, IsRegexSpace) && s == ShortLayout(p, cluster, q)
  }

  /** Leading `\s` before a character outside `\s` is skipped exactly. */
  lemma SkipSpaces(p: string, x: string)
    requires All(p, IsRegexSpace) && x != [] && !IsRegexSpace(x[0])
    ensures LeadingCount(p + x, IsRegexSpace) == |p|
    ensures (p + x)[|p|..] == x
  {
    LeadingCountStopsAt(p, x, IsRegexSpace);
  }

  /** A string is its leading run of `p` followed by the rest. */
  lemma SplitAtLeading(s: string, p: char -> bool)
    ensures All(s[..LeadingCount(s, p)], p)
    ensures s == s[..LeadingCount(s, p)] + s[LeadingCount(s, p)..]
  {
  }

  /** What RX_LONG accepts it read from the token: the name and value are the token's own, padded only by `\s`. */
  lemma ParseLongSound(s: string, name: string, value: Option<string>)
    requires ParseLong(s) == Some(LongSwitch(name, value))
    ensures IsLongToken(s, name, value)
  {
    var l := LeadingCount(s, IsRegexSpace);
    SplitAtLeading(s, IsRegexSpace);
    var t := s[l..];
    assert LongAfterSpace(t) == Some(LongSwitch(name, value));
    var body := t[2..];
    assert t == "--" + body;
    var tail := LongBodySound(body, name, value);
    LongTokenAt(s, s[..l], t, body, name, tail, value);
  }

  /** The body RX_LONG read is the name followed by `\s*` or an assignment. */
  lemma LongBodySound(body: string, name: string, value: Option<string>) returns (tail: string)
    requires body != [] && body[0] != '-' && IsNameChar(body[0])
    requires LongBody(body) == Some(LongSwitch(name, value))
    ensures body == name + tail
    ensures value.None? ==> All(tail, IsRegexSpace)
    ensures value.Some? ==> exists w, q :: All(w, IsRegexSpace) && All(q, IsRegexSpace) && tail == AssignmentTail(w, value, q)
  {
    var n := LeadingCount(body, IsNameChar);
    SplitAtLeading(body, IsNameChar);
    tail := body[n..];
    if value.Some? {
      var w, q := LongTailSound(name, tail, value.value);
      assert tail == AssignmentTail(w, value, q);
    }
  }

  /** An assignment RX_LONG read is `\s*`, `=`, the value and `\s*`. */
  lemma LongTailSound(name: string, rest: string, v: string) returns (w: string, q: string)
    requires LongTail(name, rest) == Some(LongSwitch(name, Some(v)))
    ensures All(w, IsRegexSpace) && All(q, IsRegexSpace) && rest == w + ("=" + (v + q))
  {
    var k := LeadingCount(rest, IsRegexSpace);
    SplitAtLeading(rest, IsRegexSpace);
    w := rest[..k];
    var a := rest[k..];
    assert InlineValue(a) == Some(v);
    var u := a[1..];
    assert a == "=" + u;
    var m := LeadingCount(u, IsValueChar);
    SplitAtLeading(u, IsValueChar);
    q := u[m..];
  }

  lemma LongTokenAt(s: string, p: string, t: string, body: string, name: string, tail: string, value: Option<string>)
    requires All(p, IsRegexSpace) && s == p + t && t == "--" + body && body == name + tail
    requires value.None? ==> All(tail, IsRegexSpace)
    requires value.Some? ==> exists w, q :: All(w, IsRegexSpace) && All(q, IsRegexSpace) && tail == AssignmentTail(w, value, q)
    ensures IsLongToken(s, name, value)
  {
    if value.None? {
      assert s == LongLayout(p, name, [], value, tail);
    } else {
      var w, q :| All(w, IsRegexSpace) && All(q, IsRegexSpace) && tail == AssignmentTail(w, value, q);
      assert s == LongLayout(p, name, w, value, q);
    }
  }

  /** What RX_SHORT accepts it read from the token: the cluster is the token's own, padded only by `\s`. */
  lemma ParseShortSound(s: string, cluster: string)
    requires ParseShort(s) == Some(cluster)
    ensures IsShortToken(s, cluster)
  {
    var l := LeadingCount(s, IsRegexSpace);
    SplitAtLeading(s, IsRegexSpace);
    var t := s[l..];
    var body := t[1..];
    assert t == "-" + body;
    var n := LeadingCount(body, IsClusterChar);
    SplitAtLeading(body, IsClusterChar);
    assert cluster == body[..n] && All(body[n..], IsRegexSpace);
    ShortTokenAt(s, s[..l], t, body, cluster, body[n..]);
  }

  lemma ShortTokenAt(s: string, p: string, t: string, body: string, cluster: string, q: string)
    requires All(p, IsRegexSpace) && All(q, IsRegexSpace)
    requires s == p + t && t == "-" + body && body == cluster + q
    ensures IsShortToken(s, cluster)
  {
    assert s == ShortLayout(p, cluster, q);
  }

  /** `--name`, with any `\s` around it, matches RX_LONG with exactly that name and no value. */
  lemma ParseLongOfName(p: string, name: string, q: string)
    requires All(p, IsRegexSpace) && All(q, IsRegexSpace) && IsLongName(name)
    ensures ParseLong(LongLayout(p, name, [], None, q)) == Some(LongSwitch(name, None))
  {
    var x := "--" + (name + q);
    SkipSpaces(p, x);
    assert x[2..] == name + q;
    NameThenRest(name, q);
  }

  /**
   * `--name=value`, with `\s` around it and before `=`, matches RX_LONG with that name and exactly that value,
   * for any value `.+` accepts, when the trailing `\s` does not continue the value (it is empty or starts
   * at a line terminator: `.+` is greedy and takes trailing blanks).
   */
  lemma ParseLongOfAssignment(p: string, name: string, w: string, value: string, q: string)
    requires All(p, IsRegexSpace) && All(w, IsRegexSpace) && All(q, IsRegexSpace)
    requires IsLongName(name) && IsInlineValue(value) && (q == [] || IsLineTerminator(q[0]))
    ensures ParseLong(LongLayout(p, name, w, Some(value), q)) == Some(LongSwitch(name, Some(value)))
  {
    var rest := w + ("=" + (value + q));
    var x := "--" + (name + rest);
    SkipSpaces(p, x);
    assert x[2..] == name + rest;
    assert LongAfterSpace(x) == LongBody(name + rest);
    assert rest[0] == '=' || IsRegexSpace(rest[0]);
    NameThenRest(name, rest);
    assert LongBody(name + rest) == LongTail(name, rest);
    AssignmentRest(w, value, q);
  }

  /** After the name, `\s*=` is skipped and `.+` takes exactly the value. */
  lemma AssignmentRest(w: string, value: string, q: string)
    requires All(w, IsRegexSpace) && All(q, IsRegexSpace)
    requires IsInlineValue(value) && (q == [] || IsLineTerminator(q[0]))
    ensures var rest := w + ("=" + (value + q));
            !All(rest, IsRegexSpace) && LeadingCount(rest, IsRegexSpace) == |w| && rest[|w|..] == "=" + (value + q)
    ensures InlineValue("=" + (value + q)) == Some(value)
  {
    var rest := w + ("=" + (value + q));
    assert rest[|w|] == '=';
    LeadingCountStopsAt(w, "=" + (value + q), IsRegexSpace);
    ValueThenSpace(value, q);
    assert ("=" + (value + q))[1..] == value + q;
  }

  /** `.+` stops where the trailing `\s` starts with a line terminator, or at the end. */
  lemma ValueThenSpace(value: string, q: string)
    requires IsInlineValue(value) && All(q, IsRegexSpace) && (q == [] || IsLineTerminator(q[0]))
    ensures LeadingCount(value + q, IsValueChar) == |value|
    ensures (value + q)[..|value|] == value && (value + q)[|value|..] == q
  {
    if q == [] {
      assert value + q == value;
      LeadingCountAll(value, IsValueChar);
    } else {
      LeadingCountStopsAt(value, q, IsValueChar);
    }
  }

  /** `-cluster`, with any `\s` around it, matches RX_SHORT with exactly that cluster. */
  lemma ParseShortOfCluster(p: string, cluster: string, q: string)
    requires All(p, IsRegexSpace) && All(q, IsRegexSpace) && IsCluster(cluster)
    ensures ParseShort(ShortLayout(p, cluster, q)) == Some(cluster)
  {
    var x := "-" + (cluster + q);
    SkipSpaces(p, x);
    var body := x[1..];
    assert body == cluster + q;
    if q == [] {
      LeadingCountAll(cluster, IsClusterChar);
      assert body[..|cluster|] == cluster && body[|cluster|..] == [];
    } else {
      LeadingCountStopsAt(cluster, q, IsClusterChar);
      assert body[..|cluster|] == cluster && body[|cluster|..] == q;
    }
  }

  /** The name part of `--name…` ends where `\s`, `=` or the end of the token begins. */
  lemma NameThenRest(name: string, rest: string)
    requires IsLongName(name) && (rest == [] || !IsNameChar(rest[0]))
    ensures LeadingCount(name + rest, IsNameChar) == |name|
    ensures (name + rest)[..|name|] == name && (name + rest)[|name|..] == rest
  {
    if rest == [] {
      assert name + rest == name;
      LeadingCountAll(name, IsNameChar);
    } else {
      LeadingCountStopsAt(name, rest, IsNameChar);
    }
  }

  /** A token never matches both grammars: after the dash RX_SHORT forbids a second dash. */
  lemma LongIsNotShort(s: string)
    requires MatchesLong(s)
    ensures !MatchesShort(s)
  {
  }

  /** A token whose first character is a backslash matches neither grammar. */
  lemma EscapedIsNoSwitch(s: string)
    requires s != [] && s[0] == '\\'
    ensures !MatchesLong(s) && !MatchesShort(s)
  {
    assert LeadingCount(s, IsRegexSpace) == 0;
  }

  /** A lone `-` or `--` is neither a long switch nor a short cluster. */
  lemma DashesMatchNeither(u: string)
    requires u == "-" || u == "--"
    ensures !MatchesLong(u) && !MatchesShort(u)
  {
    assert LeadingCount(u, IsRegexSpace) == 0;
  }
}
