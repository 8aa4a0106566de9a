/** Version-string parsing, packed version numbers and hexadecimal rendering of bytes
    (class `StringUtilities` of the application's `base` package). */
module StringUtilities {
  import opened Wrappers
  import opened JavaStrings
  import opened JavaInt

  /** The delimiters of the version tokenizer: `new StringTokenizer(versionString, "._-")`. */
  const VERSION_DELIMS: set<char> := {'.', '_', '-'}

  /* ---------------------------------------------------------------- hex digits */

  /** `Character.digit(c, 16) != -1`, for ASCII characters. */
  predicate IsHexDigit(c: char) {
    '0' <= c <= '9' || 'a' <= c <= 'f' || 'A' <= c <= 'F'
  }

  /** `isValidHexString`: every character is a hexadecimal digit (so "" is valid). */
  method IsValidHexString(s: string) returns (valid: bool)
    ensures valid <==> forall i :: 0 <= i < |s| ==> IsHexDigit(s[i])
  {
    var i := 0;
    while i < |s|
      invariant 0 <= i <= |s|
      invariant forall j :: 0 <= j < i ==> IsHexDigit(s[j])
    {
      if !IsHexDigit(s[i]) {
        return false;
      }
      i := i + 1;
    }
    return true;
  }

  /* ---------------------------------------------------------- decimal parsing */

  predicate AllDigits(s: string) {
    forall i :: 0 <= i < |s| ==> IsDigit(s[i])
  }

  /** The number an all-digit string denotes. */
  function DecimalValue(s: string): (v: nat)
    requires AllDigits(s)
  {
    if s == [] then 0
    else DecimalValue(s[..|s| - 1]) * 10 + (s[|s| - 1] as int - '0' as int)
  }

  /** `Integer.parseInt(t)` on ASCII input: `None` stands for the `NumberFormatException`
      thrown for an empty string, a non-digit, or a value above `Integer.MAX_VALUE`. */
  function ParseInt(t: string): (r: Option<Int>)
    ensures r.Some? ==> 0 <= r.value
  {
    if |t| > 0 && AllDigits(t) && DecimalValue(t) < TWO_31 then Some(DecimalValue(t)) else None
  }

  /** Length of the run of decimal digits that `t` starts with. */
  function LeadingDigits(t: string): (n: nat)
    ensures n <= |t|
    ensures AllDigits(t[..n])
    ensures n < |t| ==> !IsDigit(t[n])
  {
    if t == [] || !IsDigit(t[0]) then 0
    else
      var k := LeadingDigits(t[1..]);
      assert t[..k + 1] == [t[0]] + t[1..][..k];
      1 + k
  }

  /** `getIntValueFromMixedString`: -1 when `t` does not start with a digit, else the value
      of its leading digit run (`None`: that run overflows `int`). */
  function MixedValue(t: string): (r: Option<Int>)
    requires |t| > 0
    ensures !IsDigit(t[0]) ==> r == Some(-1)
    ensures IsDigit(t[0]) ==> 0 < LeadingDigits(t)
    ensures IsDigit(t[0]) ==> (r.Some? <==> DecimalValue(t[..LeadingDigits(t)]) < TWO_31)
    ensures IsDigit(t[0]) && r.Some? ==> r.value == DecimalValue(t[..LeadingDigits(t)])
  {
    if IsDigit(t[0]) then ParseInt(t[..LeadingDigits(t)]) else Some(-1)
  }

  /** `getIntValueFromMixedString` as the source runs it: an index loop over the leading digits. */
  method GetIntValueFromMixedString(t: string) returns (r: Option<Int>)
    requires |t| > 0
    ensures r == MixedValue(t)
  {
    if IsDigit(t[0]) {
      var index := 1;
      while index < |t| && IsDigit(t[index])
        invariant 1 <= index <= |t|
        invariant AllDigits(t[..index])
        invariant index <= LeadingDigits(t)
      {
        assert t[..index + 1] == t[..index] + [t[index]];
        index := index + 1;
      }
      return ParseInt(t[..index]);
    }
    return Some(-1);
  }

  /** `getIntValueFromVersionComponentString`: `Integer.parseInt`, falling back on the
      mixed-string rule when that throws. In every case the token contributes the value of
      its leading digit run, or -1 when it does not start with a digit. */
  function ComponentValue(t: string): (r: Option<Int>)
    requires |t| > 0
    ensures !IsDigit(t[0]) ==> r == Some(-1)
    ensures IsDigit(t[0]) ==> r == ParseInt(t[..LeadingDigits(t)])
  {
    match ParseInt(t)
    case Some(v) =>
      assert LeadingDigits(t) == |t| && t[..|t|] == t;
      Some(v)
    case None => MixedValue(t)
  }

  /** An all-digit token that fits an `int` is its own value. */
  lemma NumeralComponent(t: string)
    requires |t| > 0 && AllDigits(t) && DecimalValue(t) < TWO_31
    ensures ComponentValue(t) == Some(DecimalValue(t))
  {
  }

  /* ---------------------------------------------------------- version numbers */

  predicate AreTokens(toks: seq<string>) {
    forall i :: 0 <= i < |toks| ==> |toks[i]| > 0
  }

  /** The tokenizer loops of `getVersionNumbers` and `getCompoundVersionNumber`, from token
      `i` on with the components `done` already collected: at most `limit` tokens are
      read, and the loop stops at the first token that yields a negative value. `None`:
      `Integer.parseInt` threw on the way. */
  function Scan(toks: seq<string>, limit: int, i: nat, done: seq<Int>): (r: Option<seq<Int>>)
    requires AreTokens(toks)
    ensures r.Some? ==> done <= r.value
    decreases |toks| - i
  {
    if i >= |toks| || i >= limit then Some(done)
    else
      match ComponentValue(toks[i])
      case None => None
      case Some(v) =>
        if v < 0 then Some(done)
        else Scan(toks, limit, i + 1, done + [v])
  }

  function VersionTokens(s: string): (toks: seq<string>)
    ensures AreTokens(toks)
  {
    var toks := Tokens(s, VERSION_DELIMS);
    assert forall i :: 0 <= i < |toks| ==> IsToken(toks[i], VERSION_DELIMS);
    toks
  }

  /** What `getVersionNumbers(s)` returns; `None` stands for the `NumberFormatException`
      it lets escape when a digit run overflows `int`. */
  function VersionNumbers(s: string): Option<seq<Int>> {
    Scan(VersionTokens(s), |VersionTokens(s)|, 0, [])
  }

  /** `getVersionNumbers`: one pass of the tokenizer, collecting components into a list. */
  method GetVersionNumbers(versionString: string) returns (r: Option<seq<Int>>)
    ensures r == VersionNumbers(versionString)
  {
    var toks := VersionTokens(versionString);
    var versionIntegers: seq<Int> := [];
    var i := 0;
    while i < |toks|
      invariant 0 <= i <= |toks|
      invariant Scan(toks, |toks|, 0, []) == Scan(toks, |toks|, i, versionIntegers)
    {
      var intVal := ComponentValue(toks[i]);
      if intVal.None? {
        return None;
      }
      if intVal.value < 0 {
        break;
      }
      versionIntegers := versionIntegers + [intVal.value];
      i := i + 1;
    }
    return Some(versionIntegers);
  }

  /* ----------------------------------------------------------- packed versions */

  /** The value the loop of `getCompoundVersionNumber` accumulates: `value = value << 8 | c`
      for each component in turn, in Java `int` arithmetic. */
  function PackLoop(cs: seq<Int>): Int {
    if cs == [] then 0 else Or(Shl(PackLoop(cs[..|cs| - 1]), 8), cs[|cs| - 1])
  }

  /** The loop value, shifted left by 8 bits per missing component. */
  function Pack(cs: seq<Int>, maxComponents: int): Int {
    var value := PackLoop(cs);
    if |cs| < maxComponents then Shl(value, 8 * (maxComponents - |cs|)) else value
  }

  /** What `getCompoundVersionNumber(s, maxComponents)` returns (`None`: it threw
      `NumberFormatException`). */
  function CompoundVersionNumber(s: string, maxComponents: int): Option<Int> {
    match Scan(VersionTokens(s), maxComponents, 0, [])
    case None => None
    case Some(cs) => Some(Pack(cs, maxComponents))
  }

  /** `getCompoundVersionNumber(s)`: four components. */
  function CompoundVersion(s: string): Option<Int> {
    CompoundVersionNumber(s, 4)
  }

  lemma PackLoopStep(done: seq<Int>, v: Int)
    ensures PackLoop(done + [v]) == Or(Shl(PackLoop(done), 8), v)
  {
    assert (done + [v])[..|done|] == done;
  }

  /** `getCompoundVersionNumber(s, maxComponents)`: the counting tokenizer loop. */
  method GetCompoundVersionNumber(versionString: string, maxComponents: int) returns (r: Option<Int>)
    ensures r == CompoundVersionNumber(versionString, maxComponents)
  {
    var toks := VersionTokens(versionString);
    var value: Int := 0;
    var count := 0;
    ghost var done: seq<Int> := [];
    while count < |toks| && count < maxComponents
      invariant 0 <= count <= |toks| && |done| == count
      invariant value == PackLoop(done)
      invariant Scan(toks, maxComponents, 0, []) == Scan(toks, maxComponents, count, done)
    {
      var intVal := ComponentValue(toks[count]);
      if intVal.None? {
        return None;
      }
      if intVal.value < 0 {
        break;
      }
      PackLoopStep(done, intVal.value);
      value := Or(Shl(value, 8), intVal.value);
      done := done + [intVal.value];
      count := count + 1;
    }
    if count < maxComponents {
      return Some(Shl(value, 8 * (maxComponents - count)));
    }
    return Some(value);
  }

  /* ------------------------------------------------ properties of version parsing */

  /** Token `k` contributes a component: it starts with a digit and its digit run fits an `int`. */
  predicate Accepts(toks: seq<string>, k: int)
    requires AreTokens(toks) && 0 <= k < |toks|
  {
    ComponentValue(toks[k]).Some? && ComponentValue(toks[k]).value >= 0
  }

  /** A component value is either -1 (no leading digit) or a non-negative digit-run value. */
  lemma ComponentSign(t: string)
    requires |t| > 0
    ensures ComponentValue(t).Some? && ComponentValue(t).value < 0 <==> !IsDigit(t[0])
    ensures !IsDigit(t[0]) ==> ComponentValue(t) == Some(-1)
  {
  }

  /** What the tokenizer loops compute, from token `i` on: the values of the accepted tokens
      in order, up to the end of the tokens, the limit, or the first token that does not
      start with a digit. */
  lemma {:induction false} ScanComponents(toks: seq<string>, limit: int, i: nat, done: seq<Int>)
    requires AreTokens(toks) && i <= |toks|
    ensures Scan(toks, limit, i, done).Some? ==>
              var r := Scan(toks, limit, i, done).value;
              var stop := i + |r| - |done|;
              done <= r && stop <= |toks| && (stop == i || stop <= limit) &&
              (forall k :: i <= k < stop ==> Accepts(toks, k) && ComponentValue(toks[k]).value == r[|done| + k - i]) &&
              (stop == |toks| || stop >= limit || !IsDigit(toks[stop][0]))
    decreases |toks| - i
  {
    if i < |toks| && i < limit {
      ComponentSign(toks[i]);
      match ComponentValue(toks[i])
      case None =>
      case Some(v) =>
        if v >= 0 {
          var done' := done + [v];
          ScanComponents(toks, limit, i + 1, done');
          if Scan(toks, limit, i, done).Some? {
            var r := Scan(toks, limit, i, done).value;
            assert done <= done' <= r;
            assert r[|done|] == v;
          }
        }
    }
  }

  /** The tokenizer loops fail (`Integer.parseInt` throws) exactly when, before the limit
      and before any token without a leading digit, they reach a token whose digit run
      overflows `int`. */
  lemma {:induction false} ScanFails(toks: seq<string>, limit: int, i: nat, done: seq<Int>)
    requires AreTokens(toks) && i <= |toks|
    ensures Scan(toks, limit, i, done).None? <==>
              exists j :: i <= j < |toks| && j < limit && ComponentValue(toks[j]).None? &&
                          forall k :: i <= k < j ==> Accepts(toks, k)
  {
    if Scan(toks, limit, i, done).None? {
      var j := ScanFailsAt(toks, limit, i, done);
    }
    if exists j :: i <= j < |toks| && j < limit && ComponentValue(toks[j]).None? &&
                   forall k :: i <= k < j ==> Accepts(toks, k) {
      var j :| i <= j < |toks| && j < limit && ComponentValue(toks[j]).None? &&
               forall k :: i <= k < j ==> Accepts(toks, k);
      ScanFailsFrom(toks, limit, i, done, j);
    }
  }

  /** A failed scan names the token that overflowed. */
  lemma {:induction false} ScanFailsAt(toks: seq<string>, limit: int, i: nat, done: seq<Int>) returns (j: int)
    requires AreTokens(toks) && i <= |toks| && Scan(toks, limit, i, done).None?
    ensures i <= j < |toks| && j < limit && ComponentValue(toks[j]).None?
    ensures forall k :: i <= k < j ==> Accepts(toks, k)
    decreases |toks| - i
  {
    match ComponentValue(toks[i])
    case None =>
      j := i;
    case Some(v) =>
      j := ScanFailsAt(toks, limit, i + 1, done + [v]);
  }

  /** An overflowing token reached before the limit and before any token without a
      leading digit makes the scan fail. */
  lemma {:induction false} ScanFailsFrom(toks: seq<string>, limit: int, i: nat, done: seq<Int>, j: int)
    requires AreTokens(toks) && i <= j < |toks| && j < limit && ComponentValue(toks[j]).None?
    requires forall k :: i <= k < j ==> Accepts(toks, k)
    ensures Scan(toks, limit, i, done).None?
    decreases j - i
  {
    if i < j {
      assert Accepts(toks, i);
      ScanFailsFrom(toks, limit, i + 1, done + [ComponentValue(toks[i]).value], j);
    }
  }

  /** The converse of `ScanComponents`: tokens that yield the components `vs` one after
      the other, followed by the end, the limit or a token without a leading digit, are
      read as exactly `vs`. */
  lemma {:induction false} ScanReads(toks: seq<string>, limit: int, i: nat, done: seq<Int>, vs: seq<Int>)
    requires AreTokens(toks) && i + |vs| <= |toks| && (vs == [] || i + |vs| <= limit)
    requires forall k :: 0 <= k < |vs| ==> vs[k] >= 0 && ComponentValue(toks[i + k]) == Some(vs[k])
    requires i + |vs| == |toks| || i + |vs| >= limit || !IsDigit(toks[i + |vs|][0])
    ensures Scan(toks, limit, i, done) == Some(done + vs)
    decreases |vs|
  {
    if vs == [] {
      assert done + vs == done;
      if i < |toks| && i < limit {
        ComponentSign(toks[i]);
      }
    } else {
      assert ComponentValue(toks[i + 0]) == Some(vs[0]);
      ScanReads(toks, limit, i + 1, done + [vs[0]], vs[1..]);
      assert (done + [vs[0]]) + vs[1..] == done + vs;
    }
  }

  /** `getVersionNumbers(s)`: the components are the values of the leading tokens of `s`
      up to the first one that does not start with a digit, each the value of that
      token's leading digit run. */
  lemma VersionNumbersMeaning(s: string)
    ensures var toks := VersionTokens(s);
            VersionNumbers(s).Some? ==>
              var v := VersionNumbers(s).value;
              |v| <= |toks| &&
              (forall k :: 0 <= k < |v| ==> v[k] >= 0 && IsDigit(toks[k][0]) && ComponentValue(toks[k]) == Some(v[k])) &&
              (|v| == |toks| || !IsDigit(toks[|v|][0]))
  {
    var toks := VersionTokens(s);
    ScanComponents(toks, |toks|, 0, []);
    if VersionNumbers(s).Some? {
      var v := VersionNumbers(s).value;
      forall k | 0 <= k < |v|
        ensures v[k] >= 0 && IsDigit(toks[k][0]) && ComponentValue(toks[k]) == Some(v[k])
      {
        assert Accepts(toks, k);
        ComponentSign(toks[k]);
      }
    }
  }

  /** Reading at most `n` tokens keeps the first components of a longer reading. */
  lemma {:induction false} ScanPrefix(toks: seq<string>, n: int, m: int, i: nat, done: seq<Int>)
    requires AreTokens(toks) && i <= |toks| && i <= n && (n <= m || |toks| <= m)
    requires Scan(toks, m, i, done).Some?
    ensures var r := Scan(toks, m, i, done).value;
            Scan(toks, n, i, done) == Some(r[..if |r| < |done| + n - i then |r| else |done| + n - i])
    decreases |toks| - i
  {
    var r := Scan(toks, m, i, done).value;
    if i >= |toks| || i >= m || i >= n {
      assert r[..|done|] == done;
      assert r[..|r|] == r;
    } else {
      match ComponentValue(toks[i])
      case Some(v) =>
        if v >= 0 {
          ScanPrefix(toks, n, m, i + 1, done + [v]);
        } else {
          assert r[..|done|] == done;
        }
    }
  }

  /** `getCompoundVersionNumber(s, n)` packs the first `n` components that
      `getVersionNumbers(s)` finds. */
  lemma CompoundOfVersionNumbers(s: string, n: nat)
    requires VersionNumbers(s).Some?
    ensures var v := VersionNumbers(s).value;
            CompoundVersionNumber(s, n) == Some(Pack(v[..if |v| < n then |v| else n], n))
  {
    var toks := VersionTokens(s);
    ScanPrefix(toks, n, |toks|, 0, []);
  }

  /* ------------------------------------------------- order of packed versions */

  /** The documented range: each component 0..255; the first one must stay below 128 for
      the packed `int` to stay non-negative. */
  predicate InPackRange(cs: seq<int>) {
    (forall k :: 0 <= k < |cs| ==> 0 <= cs[k] < 256) && (|cs| > 0 ==> cs[0] < 128)
  }

  /** `cs` filled up with zero components to four. */
  function Pad4(cs: seq<int>): (p: seq<int>)
    requires |cs| <= 4
    ensures |p| == 4 && p[..|cs|] == cs && forall k :: |cs| <= k < 4 ==> p[k] == 0
  {
    cs + seq(4 - |cs|, _ => 0)
  }

  /** Four components read as the digits of a base-256 number. */
  function Base256(p: seq<int>): int
    requires |p| == 4
  {
    p[0] * 0x100_0000 + p[1] * 0x1_0000 + p[2] * 0x100 + p[3]
  }

  /** Lexicographic order of equally long component sequences. */
  predicate LexLe(a: seq<int>, b: seq<int>)
    requires |a| == |b|
  {
    a == [] || a[0] < b[0] || (a[0] == b[0] && LexLe(a[1..], b[1..]))
  }

  /** One turn of the packing loop on a small value: `x << 8 | v` is `x * 256 + v`. */
  lemma PackLoopAppend(cs: seq<Int>, v: Int, x: int)
    requires PackLoop(cs) == x && 0 <= x < 0x80_0000 && 0 <= v < 256
    ensures PackLoop(cs + [v]) == x * 256 + v
  {
    assert (cs + [v])[..|cs|] == cs;
    ShiftOrByte(x, v);
  }

  /** The loop value of up to four components in range: their base-256 number. */
  lemma {:induction false} PackLoopValue(cs: seq<Int>)
    requires |cs| <= 4 && InPackRange(cs)
    ensures |cs| == 0 ==> PackLoop(cs) == 0
    ensures |cs| == 1 ==> PackLoop(cs) == cs[0]
    ensures |cs| == 2 ==> PackLoop(cs) == cs[0] * 256 + cs[1]
    ensures |cs| == 3 ==> PackLoop(cs) == (cs[0] * 256 + cs[1]) * 256 + cs[2]
    ensures |cs| == 4 ==> PackLoop(cs) == ((cs[0] * 256 + cs[1]) * 256 + cs[2]) * 256 + cs[3]
  {
    if cs != [] {
      var init := cs[..|cs| - 1];
      assert init + [cs[|cs| - 1]] == cs;
      assert InPackRange(init);
      PackLoopValue(init);
      PackLoopAppend(init, cs[|cs| - 1], PackLoop(init));
    }
  }

  /** `getCompoundVersionNumber(s)` on components in range: the zero-padded components
      as a base-256 number, so that missing components count as 0. */
  lemma PackIsBase256(cs: seq<Int>)
    requires |cs| <= 4 && InPackRange(cs)
    ensures Pack(cs, 4) == Base256(Pad4(cs))
  {
    Pow2Values();
    PackLoopValue(cs);
    var x := PackLoop(cs);
    if |cs| == 0 {
      assert 32 % 32 == 0;
      WrapSmall(0);
    } else if |cs| == 1 {
      ShlExact(x, 24, x * 0x100_0000);
    } else if |cs| == 2 {
      ShlExact(x, 16, x * 0x1_0000);
    } else if |cs| == 3 {
      ShlExact(x, 8, x * 256);
    }
  }

  /** `LexLe` on four components, written out. */
  lemma LexLe4(p: seq<int>, q: seq<int>)
    requires |p| == 4 && |q| == 4
    ensures LexLe(p, q) <==>
              p[0] < q[0] || (p[0] == q[0] && (p[1] < q[1] || (p[1] == q[1] &&
              (p[2] < q[2] || (p[2] == q[2] && p[3] <= q[3])))))
  {
    var p1, q1 := p[1..], q[1..];
    var p2, q2 := p1[1..], q1[1..];
    var p3, q3 := p2[1..], q2[1..];
    assert p1[0] == p[1] && p2[0] == p[2] && p3[0] == p[3];
    assert q1[0] == q[1] && q2[0] == q[2] && q3[0] == q[3];
    assert p3[1..] == [] && q3[1..] == [];
    assert LexLe(p3, q3) <==> p[3] <= q[3];
    assert LexLe(p2, q2) <==> p[2] < q[2] || (p[2] == q[2] && LexLe(p3, q3));
    assert LexLe(p1, q1) <==> p[1] < q[1] || (p[1] == q[1] && LexLe(p2, q2));
    assert LexLe(p, q) <==> p[0] < q[0] || (p[0] == q[0] && LexLe(p1, q1));
  }

  /** On four digits in range, the base-256 value orders like the digits. */
  lemma Base256OrdersLex(p: seq<int>, q: seq<int>)
    requires |p| == 4 && |q| == 4 && InPackRange(p) && InPackRange(q)
    ensures Base256(p) <= Base256(q) <==> LexLe(p, q)
  {
    LexLe4(p, q);
  }

  /** Comparing packed versions compares their (zero-padded) components lexicographically,
      as long as the components stay in the documented range. */
  lemma CompoundOrderIsLexicographic(cs: seq<Int>, ds: seq<Int>)
    requires |cs| <= 4 && |ds| <= 4 && InPackRange(cs) && InPackRange(ds)
    ensures Pack(cs, 4) <= Pack(ds, 4) <==> LexLe(Pad4(cs), Pad4(ds))
  {
    PackIsBase256(cs);
    PackIsBase256(ds);
    Base256OrdersLex(Pad4(cs), Pad4(ds));
  }

  /** A trailing zero component does not change the packed value (in range). */
  lemma PackIgnoresTrailingZero(cs: seq<Int>)
    requires |cs| < 4 && InPackRange(cs)
    ensures Pack(cs + [0], 4) == Pack(cs, 4)
  {
    var cs0 := cs + [0];
    assert InPackRange(cs0) by {
      assert forall k :: 0 <= k < |cs| ==> cs0[k] == cs[k];
    }
    PackIsBase256(cs);
    PackIsBase256(cs0);
    assert Pad4(cs0) == Pad4(cs);
  }

  /** The components `getCompoundVersionNumber(s)` looks at. */
  function FirstFour(v: seq<Int>): (f: seq<Int>)
    ensures |f| <= 4 && |f| <= |v| && f == v[..|f|] && (|v| >= 4 || f == v)
  {
    if |v| < 4 then v else v[..4]
  }

  /** For version strings whose first four components are in range, comparing
      `getCompoundVersionNumber` values compares the components lexicographically, a
      missing component counting as 0. */
  lemma CompoundVersionOrder(s1: string, s2: string)
    requires VersionNumbers(s1).Some? && VersionNumbers(s2).Some?
    requires InPackRange(FirstFour(VersionNumbers(s1).value))
    requires InPackRange(FirstFour(VersionNumbers(s2).value))
    ensures CompoundVersion(s1).Some? && CompoundVersion(s2).Some?
    ensures CompoundVersion(s1).value <= CompoundVersion(s2).value <==>
              LexLe(Pad4(FirstFour(VersionNumbers(s1).value)), Pad4(FirstFour(VersionNumbers(s2).value)))
  {
    CompoundOfVersionNumbers(s1, 4);
    CompoundOfVersionNumbers(s2, 4);
    CompoundOrderIsLexicographic(FirstFour(VersionNumbers(s1).value), FirstFour(VersionNumbers(s2).value));
  }

  /* ----------------------------------------------------------------- hex bytes */

  /** `Character.forDigit(d, 16)`: a lower-case hexadecimal digit. */
  function HexChar(d: int): (c: char)
    requires 0 <= d < 16
    ensures IsHexDigit(c) && !('A' <= c <= 'F')
  {
    if d < 10 then ('0' as int + d) as char else ('a' as int + d - 10) as char
  }

  /** `bytesToHexString(bytes)`: two characters per byte, high nibble first
      (`theInt >> 4` and `theInt & 0xf` of the unsigned byte value). */
  function Hex(bytes: seq<byte>): (s: string)
    ensures |s| == 2 * |bytes|
    ensures forall i :: 0 <= i < |bytes| ==>
              s[2 * i] == HexChar(bytes[i] / 16) && s[2 * i + 1] == HexChar(bytes[i] % 16)
  {
    if bytes == [] then []
    else
      var b := bytes[|bytes| - 1];
      Hex(bytes[..|bytes| - 1]) + [HexChar(b / 16), HexChar(b % 16)]
  }

  /** `bytesToHexString`: appending to a buffer, byte by byte. */
  method BytesToHexString(bytes: seq<byte>) returns (s: string)
    ensures s == Hex(bytes)
  {
    var buffer := "";
    var i := 0;
    while i < |bytes|
      invariant 0 <= i <= |bytes|
      invariant buffer == Hex(bytes[..i])
    {
      var theInt := bytes[i];
      assert bytes[..i + 1][..i] == bytes[..i];
      buffer := buffer + [HexChar(theInt / 16), HexChar(theInt % 16)];
      i := i + 1;
    }
    assert bytes[..|bytes|] == bytes;
    return buffer;
  }

  /** `Character.getNumericValue(c)` on ASCII: digits and letters of either case map to
      0..35, anything else to -1. */
  function NumericValue(c: char): (v: Int)
    ensures -1 <= v < 36
  {
    if '0' <= c <= '9' then c as int - '0' as int
    else if 'a' <= c <= 'z' then c as int - 'a' as int + 10
    else if 'A' <= c <= 'Z' then c as int - 'A' as int + 10
    else -1
  }

  /** The byte `(byte) (getNumericValue(hi) << 4 | getNumericValue(lo))`. */
  function PairToByte(hi: char, lo: char): byte {
    ToByte(Or(Shl(NumericValue(hi), 4), NumericValue(lo)))
  }

  /** `hexStringToBytes(s)`: one byte per pair of characters; an odd last character is
      never read. */
  function Unhex(s: string): (bytes: seq<byte>)
    ensures |bytes| == |s| / 2
  {
    seq(|s| / 2, i requires 0 <= i < |s| / 2 => PairToByte(s[2 * i], s[2 * i + 1]))
  }

  lemma UnhexAt(s: string, i: nat)
    requires i < |s| / 2
    ensures Unhex(s)[i] == PairToByte(s[2 * i], s[2 * i + 1])
  {
  }

  /** `hexStringToBytes`: fills a fresh `byte[]` of `|s| / 2` entries. */
  method HexStringToBytes(hexString: string) returns (r: seq<byte>)
    ensures r == Unhex(hexString)
  {
    var bytes := new byte[|hexString| / 2];
    var charIndex := 0;
    var i := 0;
    while i < bytes.Length
      invariant 0 <= i <= bytes.Length && charIndex == 2 * i
      invariant forall j :: 0 <= j < i ==> bytes[j] == Unhex(hexString)[j]
    {
      bytes[i] := PairToByte(hexString[charIndex], hexString[charIndex + 1]);
      UnhexAt(hexString, i);
      charIndex := charIndex + 2;
      i := i + 1;
    }
    assert bytes[..] == Unhex(hexString);
    return bytes[..];
  }

  /* ------------------------------------------------------ properties of hex bytes */

  /** `Character.getNumericValue` undoes `Character.forDigit(d, 16)`. */
  lemma HexCharValue(d: int)
    requires 0 <= d < 16
    ensures NumericValue(HexChar(d)) == d
  {
  }

  /** The value of a hexadecimal digit of either case. */
  function HexValue(c: char): (v: int)
    requires IsHexDigit(c)
    ensures 0 <= v < 16
  {
    if '0' <= c <= '9' then c as int - '0' as int
    else if 'a' <= c <= 'f' then c as int - 'a' as int + 10
    else c as int - 'A' as int + 10
  }

  /** On a pair of hexadecimal digits, `hexStringToBytes` computes the byte they denote. */
  lemma PairOfHexDigits(hi: char, lo: char)
    requires IsHexDigit(hi) && IsHexDigit(lo)
    ensures PairToByte(hi, lo) == HexValue(hi) * 16 + HexValue(lo)
  {
    NibblesToByte(NumericValue(hi), NumericValue(lo));
  }

  /** `bytesToHexString` produces a valid hex string. */
  lemma HexIsValid(bytes: seq<byte>)
    ensures forall i :: 0 <= i < |Hex(bytes)| ==> IsHexDigit(Hex(bytes)[i])
  {
    var s := Hex(bytes);
    forall i | 0 <= i < |s|
      ensures IsHexDigit(s[i])
    {
      var j := i / 2;
      assert i == 2 * j || i == 2 * j + 1;
      assert s[2 * j] == HexChar(bytes[j] / 16) && s[2 * j + 1] == HexChar(bytes[j] % 16);
    }
  }

  /** `hexStringToBytes(bytesToHexString(b))` gives back `b`. */
  lemma HexRoundTrip(bytes: seq<byte>)
    ensures Unhex(Hex(bytes)) == bytes
  {
    var s := Hex(bytes);
    var r := Unhex(s);
    forall i | 0 <= i < |bytes|
      ensures r[i] == bytes[i]
    {
      var b := bytes[i];
      HexCharValue(b / 16);
      HexCharValue(b % 16);
      NibblesToByte(b / 16, b % 16);
    }
  }

  /** A hex string of valid digits decodes pairwise, whatever the case of its letters. */
  lemma UnhexOfHexDigits(s: string)
    requires forall i :: 0 <= i < |s| ==> IsHexDigit(s[i])
    ensures forall i :: 0 <= i < |s| / 2 ==> Unhex(s)[i] == HexValue(s[2 * i]) * 16 + HexValue(s[2 * i + 1])
  {
    forall i | 0 <= i < |s| / 2
      ensures Unhex(s)[i] == HexValue(s[2 * i]) * 16 + HexValue(s[2 * i + 1])
    {
      PairOfHexDigits(s[2 * i], s[2 * i + 1]);
    }
  }

  /** An odd trailing character is never read. */
  lemma UnhexIgnoresOddChar(s: string, c: char)
    requires |s| % 2 == 0
    ensures Unhex(s + [c]) == Unhex(s)
  {
    assert (|s| + 1) / 2 == |s| / 2;
    forall i | 0 <= i < |s| / 2
      ensures Unhex(s + [c])[i] == Unhex(s)[i]
    {
      assert (s + [c])[2 * i] == s[2 * i] && (s + [c])[2 * i + 1] == s[2 * i + 1];
    }
  }
}
