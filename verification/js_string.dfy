/** The few JavaScript string operations the core relies on: the `\s` class
    of regular expressions, `String.prototype.trim`, `replace(/\s+/g, "_")`,
    the decimal text of a whole `Number`, and splitting at a separator. */
module JsString {
  import opened Common

  /** ECMAScript WhiteSpace and LineTerminator code points: what `\s` matches
      and what `trim` removes. */
  predicate IsJsWhitespace(c: char)
  {
    var n := c as int;
    n == 0x09 || n == 0x0A || n == 0x0B || n == 0x0C || n == 0x0D || n == 0x20
    || n == 0xA0 || n == 0x1680 || (0x2000 <= n <= 0x200A) || n == 0x2028
    || n == 0x2029 || n == 0x202F || n == 0x205F || n == 0x3000 || n == 0xFEFF
  }

  predicate NoWhitespace(s: string)
  {
    forall i :: 0 <= i < |s| ==> !IsJsWhitespace(s[i])
  }

  /** True of a string that `trim` turns into the empty string. */
  predicate Blank(s: string)
  {
    forall i :: 0 <= i < |s| ==> IsJsWhitespace(s[i])
  }

  /** `trimStart`: the longest suffix of `s` that does not begin with whitespace. */
  function TrimStart(s: string): (r: string)
    ensures |r| <= |s| && r == s[|s| - |r|..]
    ensures r == [] || !IsJsWhitespace(r[0])
    ensures forall i :: 0 <= i < |s| - |r| ==> IsJsWhitespace(s[i])
  {
    if s == [] || !IsJsWhitespace(s[0]) then s else TrimStart(s[1..])
  }

  /** `trimEnd`: the longest prefix of `s` that does not end with whitespace. */
  function TrimEnd(s: string): (r: string)
    ensures |r| <= |s| && r == s[..|r|]
    ensures r == [] || !IsJsWhitespace(r[|r| - 1])
    ensures forall i :: |r| <= i < |s| ==> IsJsWhitespace(s[i])
  {
    if s == [] || !IsJsWhitespace(s[|s| - 1]) then s else TrimEnd(s[..|s| - 1])
  }

  /** `trim`: `s` without its leading and trailing whitespace. */
  function Trim(s: string): (r: string)
    ensures |r| <= |s|
    ensures r == [] || (!IsJsWhitespace(r[0]) && !IsJsWhitespace(r[|r| - 1]))
    ensures s == [] || (!IsJsWhitespace(s[0]) && !IsJsWhitespace(s[|s| - 1])) ==> r == s
  {
    TrimEnd(TrimStart(s))
  }

  /** `!s.trim()` holds exactly of the strings made only of whitespace. */
  lemma TrimEmptyIffBlank(s: string)
    ensures Trim(s) == [] <==> Blank(s)
  {
    var t := TrimStart(s);
    if Trim(s) == [] {
      assert Blank(t);
      assert |t| == 0;
    }
  }

  /** `s.replace(/\s+/g, "_")`: every maximal run of whitespace becomes one `_`. */
  function ReplaceWhitespaceRuns(s: string): (r: string)
    ensures |r| <= |s|
    ensures NoWhitespace(r)
    decreases |s|
  {
    if s == [] then []
    else if IsJsWhitespace(s[0]) then "_" + ReplaceWhitespaceRuns(TrimStart(s[1..]))
    else [s[0]] + ReplaceWhitespaceRuns(s[1..])
  }

  /** A name without whitespace goes through the replacement unchanged. */
  lemma {:induction false} ReplaceKeepsCleanNames(s: string)
    requires NoWhitespace(s)
    ensures ReplaceWhitespaceRuns(s) == s
  {
    if s != [] {
      ReplaceKeepsCleanNames(s[1..]);
    }
  }

  /** Replacing twice is replacing once. */
  lemma ReplaceIdempotent(s: string)
    ensures ReplaceWhitespaceRuns(ReplaceWhitespaceRuns(s)) == ReplaceWhitespaceRuns(s)
  {
    ReplaceKeepsCleanNames(ReplaceWhitespaceRuns(s));
  }

  /** The replacement, one run at a time: a clean part is copied, and a whole
      whitespace run before a part that does not begin with whitespace becomes
      one `_`, after which the replacement carries on with that part. */
  lemma ReplaceRunThenRest(a: string, run: string, rest: string)
    requires NoWhitespace(a)
    requires run != [] && Blank(run)
    requires rest == [] || !IsJsWhitespace(rest[0])
    ensures ReplaceWhitespaceRuns(a + run + rest) == a + "_" + ReplaceWhitespaceRuns(rest)
  {
    var tail := ReplaceWhitespaceRuns(rest);
    var joined := run + rest;
    ConcatAssoc(a, run, rest);
    assert ReplaceWhitespaceRuns(joined) == "_" + tail by {
      ReplaceRunFirst(run, rest);
    }
    assert ReplaceWhitespaceRuns(a + joined) == a + ReplaceWhitespaceRuns(joined) by {
      ReplaceCleanPrefix(a, joined);
    }
    ConcatAssoc(a, "_", tail);
  }

  /** Characters before the first whitespace are copied one for one. */
  lemma {:induction false} ReplaceCleanPrefix(a: string, t: string)
    requires NoWhitespace(a)
    ensures ReplaceWhitespaceRuns(a + t) == a + ReplaceWhitespaceRuns(t)
  {
    if a == [] {
      assert a + t == t;
    } else {
      var s := a + t;
      assert s[0] == a[0] && s[1..] == a[1..] + t;
      ReplaceCleanPrefix(a[1..], t);
      assert [a[0]] + (a[1..] + ReplaceWhitespaceRuns(t)) == a + ReplaceWhitespaceRuns(t);
    }
  }

  /** A leading whitespace run becomes one `_`, and the replacement resumes where the run ends. */
  lemma ReplaceRunFirst(run: string, rest: string)
    requires run != [] && Blank(run)
    requires rest == [] || !IsJsWhitespace(rest[0])
    ensures ReplaceWhitespaceRuns(run + rest) == "_" + ReplaceWhitespaceRuns(rest)
  {
    var s := run + rest;
    assert s[0] == run[0] && s[1..] == run[1..] + rest;
    TrimStartOverBlank(run[1..], rest);
  }

  /** A run of whitespace between two clean names becomes exactly one `_`. */
  lemma ReplaceJoinsAtRun(a: string, run: string, b: string)
    requires NoWhitespace(a) && NoWhitespace(b)
    requires run != [] && Blank(run)
    ensures ReplaceWhitespaceRuns(a + run + b) == a + "_" + b
  {
    ReplaceRunThenRest(a, run, b);
    ReplaceKeepsCleanNames(b);
  }

  /** Each of several runs becomes its own `_`: two runs between three clean
      names give two underscores, and nothing is merged or dropped. */
  lemma ReplaceTwoRuns(a: string, r1: string, b: string, r2: string, c: string)
    requires NoWhitespace(a) && NoWhitespace(b) && NoWhitespace(c) && b != []
    requires r1 != [] && Blank(r1) && r2 != [] && Blank(r2)
    ensures ReplaceWhitespaceRuns(a + r1 + b + r2 + c) == a + "_" + b + "_" + c
  {
    var tail := b + r2 + c;
    assert tail[0] == b[0];
    RegroupRuns(a, r1, b, r2, c);
    ReplaceJoinsAtRun(b, r2, c);
    ReplaceRunThenRest(a, r1, tail);
    RegroupUnderscores(a, b, c);
  }

  lemma ConcatAssoc(x: string, y: string, z: string)
    ensures x + y + z == x + (y + z)
  {
  }

  lemma RegroupRuns(a: string, r1: string, b: string, r2: string, c: string)
    ensures a + r1 + b + r2 + c == a + r1 + (b + r2 + c)
  {
  }

  lemma RegroupUnderscores(a: string, b: string, c: string)
    ensures a + "_" + (b + "_" + c) == a + "_" + b + "_" + c
  {
  }

  /** `trimStart` skips a whole blank run and stops where the rest begins. */
  lemma {:induction false} TrimStartOverBlank(run: string, b: string)
    requires Blank(run)
    requires b == [] || !IsJsWhitespace(b[0])
    ensures TrimStart(run + b) == b
  {
    if run != [] {
      assert (run + b)[1..] == run[1..] + b;
      TrimStartOverBlank(run[1..], b);
    } else {
      assert run + b == b;
    }
  }

  predicate IsDigit(c: char)
  {
    '0' <= c <= '9'
  }

  predicate AllDigits(s: string)
  {
    forall i :: 0 <= i < |s| ==> IsDigit(s[i])
  }

  function DigitChar(d: nat): char
    requires d < 10
  {
    ('0' as int + d) as char
  }

  function DigitValue(c: char): nat
    requires IsDigit(c)
  {
    c as int - '0' as int
  }

  /** `String(n)` for a whole number below 10^21, such as `Date.now()`. */
  function DecimalString(n: nat): (r: string)
    ensures r != [] && AllDigits(r)
    decreases n
  {
    if n < 10 then [DigitChar(n)] else DecimalString(n / 10) + [DigitChar(n % 10)]
  }

  function DigitsValue(s: string): nat
    requires AllDigits(s)
  {
    if s == [] then 0 else DigitsValue(s[..|s| - 1]) * 10 + DigitValue(s[|s| - 1])
  }

  /** The number a non-empty run of decimal digits denotes. */
  function ParseDecimal(s: string): Option<nat>
  {
    if s != [] && AllDigits(s) then Some(DigitsValue(s)) else None
  }

  lemma {:induction false} DecimalRoundTrip(n: nat)
    ensures ParseDecimal(DecimalString(n)) == Some(n)
    decreases n
  {
    if n >= 10 {
      DecimalRoundTrip(n / 10);
      var s := DecimalString(n);
      assert s[..|s| - 1] == DecimalString(n / 10);
      assert DigitValue(s[|s| - 1]) == n % 10;
      assert DigitsValue(s) == (n / 10) * 10 + n % 10;
    }
  }

  /** The text before and after the first occurrence of `c`, if any. */
  function SplitAtFirst(s: string, c: char): (r: Option<(string, string)>)
    ensures r.Some? ==> s == r.value.0 + [c] + r.value.1 && c !in r.value.0
    ensures r.None? ==> c !in s
  {
    if s == [] then None
    else if s[0] == c then Some(([], s[1..]))
    else match SplitAtFirst(s[1..], c)
      case None => None
      case Some((a, b)) => Some(([s[0]] + a, b))
  }

  lemma {:induction false} SplitAtFirstOf(a: string, c: char, b: string)
    requires c !in a
    ensures SplitAtFirst(a + [c] + b, c) == Some((a, b))
  {
    if a == [] {
      assert (a + [c] + b)[1..] == b;
    } else {
      assert (a + [c] + b)[1..] == a[1..] + [c] + b;
      SplitAtFirstOf(a[1..], c, b);
      assert [a[0]] + a[1..] == a;
    }
  }
}
