/** The pieces of `java.lang.String`, `java.util.StringTokenizer` and
    `java.io.BufferedReader.readLine` that the application relies on, over `seq<char>`. */
module JavaStrings {

  predicate IsDigit(c: char) { '0' <= c <= '9' }

  /** `Character.isWhitespace`-free trimming criterion of `String.trim`: code point <= U+0020. */
  predicate IsTrimmable(c: char) { c <= ' ' }

  predicate StartsWith(s: string, prefix: string) {
    |prefix| <= |s| && s[..|prefix|] == prefix
  }

  predicate EndsWith(s: string, suffix: string) {
    |suffix| <= |s| && s[|s| - |suffix|..] == suffix
  }

  predicate OccursAt(s: string, sub: string, i: int) {
    0 <= i <= |s| - |sub| && s[i..i + |sub|] == sub
  }

  /** `String.contains`. */
  predicate Contains(s: string, sub: string) {
    exists i | 0 <= i <= |s| - |sub| :: OccursAt(s, sub, i)
  }

  /** `String.indexOf(char)`: the first index of `c`, or -1. */
  function IndexOf(s: string, c: char): (i: int)
    ensures -1 <= i < |s|
    ensures i == -1 <==> c !in s
    ensures 0 <= i ==> s[i] == c && c !in s[..i]
  {
    if s == [] then -1
    else if s[0] == c then 0
    else
      var k := IndexOf(s[1..], c);
      if k < 0 then -1
      else
        assert s[..k + 1] == [s[0]] + s[1..][..k];
        k + 1
  }

  /** `String.lastIndexOf(char)`: the last index of `c`, or -1. */
  function LastIndexOf(s: string, c: char): (i: int)
    ensures -1 <= i < |s|
    ensures i == -1 <==> c !in s
    ensures 0 <= i ==> s[i] == c && c !in s[i + 1..]
  {
    if s == [] then -1
    else if s[|s| - 1] == c then |s| - 1
    else
      var init := s[..|s| - 1];
      assert s == init + [s[|s| - 1]];
      var k := LastIndexOf(init, c);
      if k < 0 then -1
      else
        assert s[k + 1..] == init[k + 1..] + [s[|s| - 1]];
        k
  }

  /** Length of the longest prefix of `s` that holds no character of `delims`. */
  function RunLength(s: string, delims: set<char>): (n: nat)
    ensures n <= |s|
    ensures forall i :: 0 <= i < n ==> s[i] !in delims
    ensures n < |s| ==> s[n] in delims
  {
    if s == [] || s[0] in delims then 0 else 1 + RunLength(s[1..], delims)
  }

  predicate IsToken(t: string, delims: set<char>) {
    |t| > 0 && forall j :: 0 <= j < |t| ==> t[j] !in delims
  }

  /** The tokens that `new StringTokenizer(s, delims)` hands out through `nextToken()`:
      the maximal non-empty runs of non-delimiter characters, left to right. */
  function Tokens(s: string, delims: set<char>): (toks: seq<string>)
    ensures forall i :: 0 <= i < |toks| ==> IsToken(toks[i], delims)
    ensures |toks| <= |s|
    decreases |s|
  {
    if s == [] then []
    else if s[0] in delims then Tokens(s[1..], delims)
    else
      var n := RunLength(s, delims);
      [s[..n]] + Tokens(s[n..], delims)
  }

  /** A token followed by a delimiter is handed out first, and the tokenizer resumes after
      the delimiter. */
  lemma TokensAfterToken(t: string, d: char, rest: string, delims: set<char>)
    requires IsToken(t, delims) && d in delims
    ensures Tokens(t + [d] + rest, delims) == [t] + Tokens(rest, delims)
  {
    var s := t + [d] + rest;
    var n := RunLength(s, delims);
    assert s[|t|] == d;
    assert n == |t|;
    assert s[..n] == t;
    assert s[n..] == [d] + rest;
    assert ([d] + rest)[1..] == rest;
  }

  /** A string without delimiters is a single token. */
  lemma TokensOfToken(t: string, delims: set<char>)
    requires IsToken(t, delims)
    ensures Tokens(t, delims) == [t]
  {
    var n := RunLength(t, delims);
    assert t[..n] == t;
    assert t[n..] == [];
  }

  /** The tokens `ts` written out with the single separators `seps` between them. */
  function Joined(ts: seq<string>, seps: seq<char>): string
    requires |ts| > 0 && |seps| == |ts| - 1
  {
    if |ts| == 1 then ts[0] else ts[0] + [seps[0]] + Joined(ts[1..], seps[1..])
  }

  /** Tokens separated by single delimiters come back out of the tokenizer unchanged. */
  lemma {:induction false} TokensOfJoined(ts: seq<string>, seps: seq<char>, delims: set<char>)
    requires |ts| > 0 && |seps| == |ts| - 1
    requires forall i :: 0 <= i < |ts| ==> IsToken(ts[i], delims)
    requires forall i :: 0 <= i < |seps| ==> seps[i] in delims
    ensures Tokens(Joined(ts, seps), delims) == ts
    decreases |ts|
  {
    if |ts| == 1 {
      TokensOfToken(ts[0], delims);
    } else {
      TokensOfJoined(ts[1..], seps[1..], delims);
      TokensAfterToken(ts[0], seps[0], Joined(ts[1..], seps[1..]), delims);
      assert [ts[0]] + ts[1..] == ts;
    }
  }

  function Concat(ss: seq<string>): string {
    if ss == [] then [] else ss[0] + Concat(ss[1..])
  }

  /** `s` with every character of `delims` removed. */
  function Without(s: string, delims: set<char>): string {
    if s == [] then []
    else if s[0] in delims then Without(s[1..], delims)
    else [s[0]] + Without(s[1..], delims)
  }

  lemma {:induction false} WithoutAppend(a: string, b: string, delims: set<char>)
    ensures Without(a + b, delims) == Without(a, delims) + Without(b, delims)
    decreases |a|
  {
    if a != [] {
      assert (a + b)[1..] == a[1..] + b;
      WithoutAppend(a[1..], b, delims);
    } else {
      assert a + b == b;
    }
  }

  lemma {:induction false} WithoutNoDelims(t: string, delims: set<char>)
    requires forall j :: 0 <= j < |t| ==> t[j] !in delims
    ensures Without(t, delims) == t
    decreases |t|
  {
    if t != [] {
      WithoutNoDelims(t[1..], delims);
      assert t == [t[0]] + t[1..];
    }
  }

  /** Tokenising loses nothing but delimiters: the tokens, joined, are the input
      without its delimiter characters. */
  lemma {:induction false} TokensKeepEveryOtherChar(s: string, delims: set<char>)
    ensures Concat(Tokens(s, delims)) == Without(s, delims)
    decreases |s|
  {
    if s == [] {
    } else if s[0] in delims {
      TokensKeepEveryOtherChar(s[1..], delims);
    } else {
      var n := RunLength(s, delims);
      var toks := Tokens(s, delims);
      assert toks == [s[..n]] + Tokens(s[n..], delims);
      assert toks[1..] == Tokens(s[n..], delims);
      TokensKeepEveryOtherChar(s[n..], delims);
      assert s == s[..n] + s[n..];
      WithoutAppend(s[..n], s[n..], delims);
      WithoutNoDelims(s[..n], delims);
    }
  }

  const LINE_BREAKS: set<char> := {'\n', '\r'}

  /** The lines that successive `BufferedReader.readLine()` calls return: a line ends at
      "\n", at "\r" or at "\r\n"; a last line without terminator is returned too. */
  function Lines(s: string): (lines: seq<string>)
    ensures forall i :: 0 <= i < |lines| ==> '\n' !in lines[i] && '\r' !in lines[i]
    decreases |s|
  {
    if s == [] then []
    else
      var n := RunLength(s, LINE_BREAKS);
      if n == |s| then [s]
      else
        var next := if s[n] == '\r' && n + 1 < |s| && s[n + 1] == '\n' then n + 2 else n + 1;
        [s[..n]] + Lines(s[next..])
  }

  /** The index of the first character from `i` on that `String.trim` keeps. */
  function TrimStart(s: string, i: nat): (r: nat)
    requires i <= |s|
    ensures i <= r <= |s|
    ensures forall j :: i <= j < r ==> IsTrimmable(s[j])
    ensures r < |s| ==> !IsTrimmable(s[r])
    decreases |s| - i
  {
    if i == |s| || !IsTrimmable(s[i]) then i else TrimStart(s, i + 1)
  }

  /** The end of what `String.trim` keeps of `s[lo..hi]`, scanning back from `hi`. */
  function TrimEnd(s: string, lo: nat, hi: nat): (r: nat)
    requires lo <= hi <= |s|
    ensures lo <= r <= hi
    ensures forall j :: r <= j < hi ==> IsTrimmable(s[j])
    ensures r > lo ==> !IsTrimmable(s[r - 1])
    decreases hi - lo
  {
    if hi == lo || !IsTrimmable(s[hi - 1]) then hi else TrimEnd(s, lo, hi - 1)
  }

  /** `String.trim`: `s` without its leading and trailing characters <= U+0020. */
  function Trim(s: string): string {
    var a := TrimStart(s, 0);
    s[a..TrimEnd(s, a, |s|)]
  }

  /** `trim` removes a run of characters <= U+0020 at each end, and what it keeps
      neither starts nor ends with one. */
  lemma TrimStrips(s: string)
    ensures exists a, b :: 0 <= a <= b <= |s| && Trim(s) == s[a..b] &&
                          (forall i :: 0 <= i < a ==> IsTrimmable(s[i])) &&
                          (forall i :: b <= i < |s| ==> IsTrimmable(s[i]))
    ensures Trim(s) == [] || (!IsTrimmable(Trim(s)[0]) && !IsTrimmable(Trim(s)[|Trim(s)| - 1]))
  {
    var a := TrimStart(s, 0);
    var b := TrimEnd(s, a, |s|);
    assert Trim(s) == s[a..b];
  }

  /** Trimming a single leading blank off a value that starts and ends with
      non-blank characters gives the value back. */
  lemma TrimSpaced(v: string)
    requires v != [] && !IsTrimmable(v[0]) && !IsTrimmable(v[|v| - 1])
    ensures Trim([' '] + v) == v
  {
    var s := [' '] + v;
    assert s[1..] == v;
    assert TrimStart(s, 1) == 1;
    assert TrimStart(s, 0) == 1;
    assert TrimEnd(s, 1, |s|) == |s|;
  }
}
