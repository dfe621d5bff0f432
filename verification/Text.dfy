/** The string operations of the Rust standard library that the parsers use. */
module Text {
  import opened Wrappers

  /** The Unicode property White_Space, as `str::trim` and `str::split_whitespace` use it. */
  predicate IsWhitespace(c: char) {
    var n := c as int;
    || 9 <= n <= 13 || n == 32 || n == 0x85 || n == 0xA0 || n == 0x1680
    || 0x2000 <= n <= 0x200A || n == 0x2028 || n == 0x2029 || n == 0x202F || n == 0x205F || n == 0x3000
  }

  function TrimStart(s: string): string {
    if s != "" && IsWhitespace(s[0]) then TrimStart(s[1..]) else s
  }

  function TrimEnd(s: string): string {
    if s != "" && IsWhitespace(s[|s| - 1]) then TrimEnd(s[..|s| - 1]) else s
  }

  /** `str::trim` */
  function Trim(s: string): string { TrimEnd(TrimStart(s)) }

  /** `str::trim_end_matches(c)` */
  function TrimEndMatches(s: string, c: char): string {
    if s != "" && s[|s| - 1] == c then TrimEndMatches(s[..|s| - 1], c) else s
  }

  /** `str::starts_with` */
  predicate StartsWith(s: string, prefix: string) { |prefix| <= |s| && s[..|prefix|] == prefix }

  /** `char::to_ascii_lowercase` */
  function Lower(c: char): char {
    if 'A' <= c <= 'Z' then (c as int + 32) as char else c
  }

  function LowerAll(s: string): string {
    if s == "" then "" else [Lower(s[0])] + LowerAll(s[1..])
  }

  /** `str::contains` */
  predicate Contains(s: string, part: string) {
    StartsWith(s, part) || (s != "" && Contains(s[1..], part))
  }

  /** Position of the first `c`, or the length when there is none. */
  function IndexOf(s: string, c: char): (i: nat)
    ensures i <= |s|
    ensures i < |s| ==> s[i] == c
    ensures forall j :: 0 <= j < i ==> s[j] != c
  {
    if s == "" || s[0] == c then 0 else 1 + IndexOf(s[1..], c)
  }

  /** `str::split_once(c)` */
  function SplitOnce(s: string, c: char): Option<(string, string)> {
    var i := IndexOf(s, c);
    if i < |s| then Some((s[..i], s[i + 1..])) else None
  }

  function StripCr(line: string): string {
    if line != "" && line[|line| - 1] == '\r' then line[..|line| - 1] else line
  }

  /** `str::lines`: a carriage return is dropped only in front of a newline. */
  function Lines(s: string): seq<string>
    decreases |s|
  {
    if s == "" then []
    else
      var i := IndexOf(s, '\n');
      if i == |s| then [s] else [StripCr(s[..i])] + Lines(s[i + 1..])
  }

  lemma {:induction false} IndexOfIs(s: string, c: char, i: nat)
    requires i <= |s| && c !in s[..i]
    requires i < |s| ==> s[i] == c
    ensures IndexOf(s, c) == i
  {
    if i > 0 {
      assert s[0] == s[..i][0];
      assert s[1..][..i - 1] == s[..i][1..];
      IndexOfIs(s[1..], c, i - 1);
    }
  }

  ghost predicate Blank(s: string) { forall k :: 0 <= k < |s| ==> IsWhitespace(s[k]) }

  /** Neither end of the text is whitespace. */
  predicate Trimmed(s: string) { s == "" || (!IsWhitespace(s[0]) && !IsWhitespace(s[|s| - 1])) }

  lemma {:induction false} TrimStartIs(s: string)
    ensures |TrimStart(s)| <= |s|
    ensures var n := |s| - |TrimStart(s)|; s[n..] == TrimStart(s) && Blank(s[..n])
    ensures TrimStart(s) == "" || !IsWhitespace(TrimStart(s)[0])
  {
    if s != "" && IsWhitespace(s[0]) {
      TrimStartIs(s[1..]);
      var n := |s| - |TrimStart(s)|;
      assert s[..n] == [s[0]] + s[1..][..n - 1];
    }
  }

  lemma {:induction false} TrimEndIs(s: string)
    ensures |TrimEnd(s)| <= |s|
    ensures var n := |TrimEnd(s)|; s[..n] == TrimEnd(s) && Blank(s[n..])
    ensures TrimEnd(s) == "" || !IsWhitespace(TrimEnd(s)[|TrimEnd(s)| - 1])
  {
    if s != "" && IsWhitespace(s[|s| - 1]) {
      var init := s[..|s| - 1];
      TrimEndIs(init);
      var n := |TrimEnd(s)|;
      assert s[n..] == init[n..] + [s[|s| - 1]];
    }
  }

  /** Trimming removes all whitespace at both ends and nothing else. */
  lemma TrimIs(s: string) returns (before: string, after: string)
    ensures s == before + Trim(s) + after && Blank(before) && Blank(after) && Trimmed(Trim(s))
  {
    var t := TrimStart(s);
    TrimStartIs(s);
    TrimEndIs(t);
    before, after := s[..|s| - |t|], t[|Trim(s)|..];
    assert s == before + t && t == Trim(s) + after;
    if Trim(s) != "" { assert Trim(s)[0] == t[0]; }
  }

  /** All copies of `c` at the end are removed and nothing else. */
  lemma {:induction false} TrimEndMatchesIs(s: string, c: char)
    ensures |TrimEndMatches(s, c)| <= |s|
    ensures var n := |TrimEndMatches(s, c)|;
      && s[..n] == TrimEndMatches(s, c) && (n > 0 ==> s[n - 1] != c)
      && forall k :: n <= k < |s| ==> s[k] == c
  {
    if s != "" && s[|s| - 1] == c { TrimEndMatchesIs(s[..|s| - 1], c); }
  }

  lemma {:induction false} LowerAt(s: string, k: nat)
    requires k < |s|
    ensures |LowerAll(s)| == |s| && LowerAll(s)[k] == Lower(s[k])
  {
    if |s| > 1 { LowerAt(s[1..], if k > 0 then k - 1 else 0); }
  }
}
