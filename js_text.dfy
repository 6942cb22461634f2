/** The string operations of the JavaScript library that the handlers rely on:
    `String.prototype.trim`, `name.split(".").pop()` and the decimal text of a number. */
module JsText {

  /** The code points `trim` removes: WhiteSpace and LineTerminator of ECMA-262. */
  predicate IsTrimmable(c: char) {
    c == '\t' || c == '\n' || c == '\U{000B}' || c == '\U{000C}' || c == '\r'
    || c == ' ' || c == '\U{00A0}' || c == '\U{1680}' || ('\U{2000}' <= c <= '\U{200A}')
    || c == '\U{2028}' || c == '\U{2029}' || c == '\U{202F}' || c == '\U{205F}'
    || c == '\U{3000}' || c == '\U{FEFF}'
  }

  predicate IsBlank(s: string) {
    forall k :: 0 <= k < |s| ==> IsTrimmable(s[k])
  }

  /** Drops the leading trimmable code points: the result is the suffix of `s` that follows
      a blank prefix and does not itself start with a trimmable code point. */
  function TrimStart(s: string): (r: string)
    ensures |r| <= |s| && r == s[|s| - |r|..]
    ensures IsBlank(s[..|s| - |r|])
    ensures r == [] || !IsTrimmable(r[0])
  {
    if s != [] && IsTrimmable(s[0]) then
      var r := TrimStart(s[1..]);
      assert forall k :: 1 <= k < |s| - |r| ==> s[k] == s[1..][..|s| - 1 - |r|][k - 1];
      r
    else
      s
  }

  /** Drops the trailing trimmable code points. */
  function TrimEnd(s: string): (r: string)
    ensures |r| <= |s| && r == s[..|r|]
    ensures IsBlank(s[|r|..])
    ensures r == [] || !IsTrimmable(r[|r| - 1])
    ensures r == [] ==> IsBlank(s)
  {
    if s != [] && IsTrimmable(s[|s| - 1]) then
      var r := TrimEnd(s[..|s| - 1]);
      assert forall k :: 0 <= k < |s| - 1 - |r| ==> s[|r|..][k] == s[..|s| - 1][|r|..][k];
      r
    else
      s
  }

  /** `s.trim()`: neither end of the result is a trimmable code point. */
  function Trim(s: string): (r: string)
    ensures |r| <= |s|
    ensures HasTrimmedEnds(r)
  {
    var t := TrimStart(s);
    var r := TrimEnd(t);
    assert r != [] ==> r[0] == t[0];
    r
  }

  /** Neither end of `t` is a trimmable code point. */
  predicate HasTrimmedEnds(t: string) {
    t == [] || (!IsTrimmable(t[0]) && !IsTrimmable(t[|t| - 1]))
  }

  /** `trim` keeps a contiguous part of `s` and drops only trimmable code points around it. */
  lemma TrimIsInfix(s: string)
    ensures exists i, j :: 0 <= i <= j <= |s| && Trim(s) == s[i..j]
                           && IsBlank(s[..i]) && IsBlank(s[j..])
  {
    var t := TrimStart(s);
    var r := TrimEnd(t);
    var i := |s| - |t|;
    var j := i + |r|;
    assert r == s[i..j];
    assert s[j..] == t[|r|..];
    assert IsBlank(s[..i]) && IsBlank(s[j..]);
  }

  /** The result of `trim` is empty exactly when every code point of `s` is trimmable. */
  lemma TrimEmptyIffBlank(s: string)
    ensures Trim(s) == [] <==> IsBlank(s)
  {
    var t := TrimStart(s);
    if !IsBlank(s) {
      var k :| 0 <= k < |s| && !IsTrimmable(s[k]);
      assert k >= |s| - |t|;
      assert !IsBlank(t) by { assert t[k - (|s| - |t|)] == s[k]; }
    }
  }

  /** `trim` is idempotent. */
  lemma TrimIdempotent(s: string)
    ensures Trim(Trim(s)) == Trim(s)
  {
    var r := Trim(s);
    if r != [] {
      assert TrimStart(r) == r;
      assert TrimEnd(r) == r;
    }
  }

  /** `s.split(".").pop()`: the text after the last `"."`, or all of `s` when it has none. */
  function LastSegment(s: string): (r: string)
    ensures '.' !in r
    ensures |r| <= |s| && r == s[|s| - |r|..]
    ensures |r| < |s| ==> s[|s| - |r| - 1] == '.'
  {
    if s == [] then []
    else if s[|s| - 1] == '.' then []
    else
      var r := LastSegment(s[..|s| - 1]);
      assert r + [s[|s| - 1]] == s[|s| - |r| - 1..];
      r + [s[|s| - 1]]
  }

  /** A name without a dot is its own last segment. */
  lemma {:induction false} LastSegmentOfDotless(s: string)
    requires '.' !in s
    ensures LastSegment(s) == s
  {
  }

  /** Whatever precedes the last dot does not matter to `LastSegment`. */
  lemma {:induction false} LastSegmentAfterDot(prefix: string, b: string)
    requires '.' !in b
    ensures LastSegment(prefix + "." + b) == b
    decreases |b|
  {
    var s := prefix + "." + b;
    if b == [] {
      assert s[|s| - 1] == '.';
    } else {
      assert s[..|s| - 1] == prefix + "." + b[..|b| - 1];
      LastSegmentAfterDot(prefix, b[..|b| - 1]);
      assert b[..|b| - 1] + [b[|b| - 1]] == b;
    }
  }

  /** In `x + "." + e` with a dotless `x`, the first dot is the one after `x`: so such a text
      determines both `x` and `e`. */
  lemma SplitAtFirstDot(x: string, e: string, y: string, f: string)
    requires '.' !in x && '.' !in y
    requires x + "." + e == y + "." + f
    ensures x == y && e == f
  {
    var s := x + "." + e;
    assert forall k :: 0 <= k < |x| ==> s[k] == x[k];
    assert forall k :: 0 <= k < |y| ==> s[k] == y[k];
    assert s[|x|] == '.' && s[|y|] == '.';
    assert |x| == |y|;
    assert x == s[..|x|] && y == s[..|y|];
    assert e == s[|x| + 1..] == f;
  }

  predicate IsDigit(c: char) {
    '0' <= c <= '9'
  }

  predicate AllDigits(s: string) {
    forall k :: 0 <= k < |s| ==> IsDigit(s[k])
  }

  function DigitChar(d: nat): (c: char)
    requires d < 10
    ensures IsDigit(c)
  {
    (48 + d) as char
  }

  function DigitValue(c: char): (d: nat)
    requires IsDigit(c)
    ensures d < 10
  {
    (c as int) - 48
  }

  /** `${n}` for a natural number: its decimal digits, most significant first. */
  function DecimalString(n: nat): (r: string)
    ensures |r| >= 1 && AllDigits(r)
    ensures '.' !in r
  {
    if n < 10 then [DigitChar(n)] else DecimalString(n / 10) + [DigitChar(n % 10)]
  }

  /** Reads a string of decimal digits back as a number. */
  function ParseDecimal(s: string): nat
    requires AllDigits(s)
  {
    if s == [] then 0 else ParseDecimal(s[..|s| - 1]) * 10 + DigitValue(s[|s| - 1])
  }

  /** Reading the decimal text of `n` gives back `n`. */
  lemma {:induction false} ParseDecimalString(n: nat)
    ensures ParseDecimal(DecimalString(n)) == n
  {
    var s := DecimalString(n);
    if n >= 10 {
      ParseDecimalString(n / 10);
      assert s[..|s| - 1] == DecimalString(n / 10);
    }
  }

  /** Distinct numbers have distinct decimal texts. */
  lemma DecimalStringInjective(m: nat, n: nat)
    requires DecimalString(m) == DecimalString(n)
    ensures m == n
  {
    ParseDecimalString(m);
    ParseDecimalString(n);
  }
}
