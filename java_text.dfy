/**
 * The few pieces of the Java class library that the modelled code leans on,
 * reduced to their meaning on strings of characters:
 * `String.trim`, ASCII case folding (`toLowerCase`, `equalsIgnoreCase`) and the
 * decimal parsers `Long.valueOf` / `Integer.valueOf`, with `Long.toString` as
 * the inverse the parsers are checked against.
 */
module JavaText {
  import opened Wrappers

  const MinLong: int := -0x8000_0000_0000_0000
  const MaxLong: int := 0x7FFF_FFFF_FFFF_FFFF
  const MinInt: int := -0x8000_0000
  const MaxInt: int := 0x7FFF_FFFF

  /** A Java `long`. */
  type Long = x: int | MinLong <= x <= MaxLong
  /** A Java `int`. */
  type Int32 = x: int | MinInt <= x <= MaxInt

  // ---------------------------------------------------------------- trim

  /** `String.trim` removes every character whose code is at most U+0020. */
  predicate IsTrimmable(c: char) { c <= ' ' }

  predicate AllTrimmable(s: string) {
    forall k :: 0 <= k < |s| ==> IsTrimmable(s[k])
  }

  function TrimStart(s: string): (r: string)
    ensures |r| <= |s| && r == s[|s| - |r|..]
    ensures AllTrimmable(s[..|s| - |r|])
    ensures r == [] || !IsTrimmable(r[0])
  {
    if |s| > 0 && IsTrimmable(s[0]) then
      var r := TrimStart(s[1..]);
      assert s[..|s| - |r|] == [s[0]] + s[1..][..|s| - 1 - |r|];
      r
    else s
  }

  function TrimEnd(s: string): (r: string)
    ensures |r| <= |s| && r == s[..|r|]
    ensures AllTrimmable(s[|r|..])
    ensures r == [] || !IsTrimmable(r[|r| - 1])
  {
    if |s| > 0 && IsTrimmable(s[|s| - 1]) then
      var r := TrimEnd(s[..|s| - 1]);
      assert s[|r|..] == s[..|s| - 1][|r|..] + [s[|s| - 1]];
      r
    else s
  }

  /** `s.trim()`: neither starts nor ends with a trimmable character. */
  function Trim(s: string): (r: string)
    ensures |r| <= |s|
    ensures r == [] || (!IsTrimmable(r[0]) && !IsTrimmable(r[|r| - 1]))
  {
    TrimEnd(TrimStart(s))
  }

  /** `r` sits at position `i` of `s` with only trimmable characters around it. */
  predicate SurroundedByTrimmable(s: string, r: string, i: int)
  {
    0 <= i <= |s| - |r| && r == s[i..i + |r|] && AllTrimmable(s[..i]) && AllTrimmable(s[i + |r|..])
  }

  /**
   * What `trim` removes: `s.trim()` is the substring of `s` that is
   * surrounded only by trimmable characters.
   */
  lemma TrimRemovesOnlyEnds(s: string)
    ensures exists i :: SurroundedByTrimmable(s, Trim(s), i)
  {
    var t := TrimStart(s);
    var r := TrimEnd(t);
    SurroundedInSuffix(s, t, r);
    assert SurroundedByTrimmable(s, Trim(s), |s| - |t|);
  }

  lemma SurroundedInSuffix(s: string, t: string, r: string)
    requires |t| <= |s| && t == s[|s| - |t|..] && AllTrimmable(s[..|s| - |t|])
    requires |r| <= |t| && r == t[..|r|] && AllTrimmable(t[|r|..])
    ensures SurroundedByTrimmable(s, r, |s| - |t|)
  {
    var i := |s| - |t|;
    assert s[i..][..|r|] == s[i..i + |r|];
    assert s[i..][|r|..] == s[i + |r|..];
  }

  /** Trimming twice is trimming once. */
  lemma TrimIdempotent(s: string)
    ensures Trim(Trim(s)) == Trim(s)
  {
    TrimOfUntrimmable(Trim(s));
  }

  /** A string without trimmable ends is its own trim. */
  lemma {:induction false} TrimOfUntrimmable(s: string)
    requires s == [] || (!IsTrimmable(s[0]) && !IsTrimmable(s[|s| - 1]))
    ensures Trim(s) == s
  {
    assert TrimStart(s) == s;
    assert TrimEnd(s) == s;
  }

  // -------------------------------------------------------------- indexOf

  /** `s.indexOf(c)`: the position of the first `c` in `s`; `None` for -1. */
  function IndexOf(s: string, c: char): (r: Option<nat>)
    ensures r.Some? ==> r.value < |s| && s[r.value] == c && c !in s[..r.value]
    ensures r.None? ==> c !in s
  {
    if s == [] then None
    else if s[0] == c then Some(0)
    else match IndexOf(s[1..], c)
      case None => None
      case Some(k) =>
        assert s[..k + 1] == [s[0]] + s[1..][..k];
        Some(k + 1)
  }

  /** A `c` right after a prefix free of `c` is the first one. */
  lemma {:induction false} IndexOfAfter(prefix: string, c: char, rest: string)
    requires c !in prefix
    ensures IndexOf(prefix + [c] + rest, c) == Some(|prefix|)
  {
    if prefix != [] {
      assert (prefix + [c] + rest)[1..] == prefix[1..] + [c] + rest;
      IndexOfAfter(prefix[1..], c, rest);
    }
  }

  // ---------------------------------------------------- ASCII case folding

  predicate IsUpper(c: char) { 'A' <= c <= 'Z' }

  function LowerChar(c: char): char {
    if IsUpper(c) then (c as int + 32) as char else c
  }

  /** `toLowerCase` on the ASCII letters; every other character is kept. */
  function LowerAscii(s: string): (r: string)
    ensures |r| == |s|
    ensures forall k :: 0 <= k < |r| ==> !IsUpper(r[k])
    ensures forall k :: 0 <= k < |r| ==>
              r[k] == s[k] || (IsUpper(s[k]) && r[k] as int == s[k] as int + 32)
  {
    seq(|s|, k requires 0 <= k < |s| => LowerChar(s[k]))
  }

  /** A string without upper-case letters is its own lower case. */
  lemma LowerAsciiOfLower(s: string)
    requires forall k :: 0 <= k < |s| ==> !IsUpper(s[k])
    ensures LowerAscii(s) == s
  {
  }

  /** `a.equalsIgnoreCase(b)` for ASCII text. */
  predicate EqualsIgnoreCase(a: string, b: string) {
    LowerAscii(a) == LowerAscii(b)
  }

  // ------------------------------------------------------ decimal numbers

  predicate IsDigit(c: char) { '0' <= c <= '9' }

  predicate AllDigits(s: string) {
    forall k :: 0 <= k < |s| ==> IsDigit(s[k])
  }

  function DigitValue(c: char): nat
    requires IsDigit(c)
  {
    c as int - '0' as int
  }

  function DigitChar(d: nat): (c: char)
    requires d < 10
    ensures IsDigit(c) && DigitValue(c) == d
  {
    ('0' as int + d) as char
  }

  /** The value of a string of decimal digits, most significant first. */
  function DigitsValue(s: string): nat
    requires AllDigits(s)
  {
    if s == [] then 0 else DigitsValue(s[..|s| - 1]) * 10 + DigitValue(s[|s| - 1])
  }

  /**
   * The grammar both `Long.parseLong` and `Integer.parseInt` accept: an
   * optional `+` or `-`, then at least one decimal digit, and nothing else
   * (in particular no surrounding white space).
   */
  function ParseSigned(s: string): (r: Option<int>)
    ensures r.Some? <==> |s| > 0 && (if s[0] == '-' || s[0] == '+' then |s| > 1 && AllDigits(s[1..])
                                     else AllDigits(s))
  {
    if |s| == 0 then None
    else
      var digits := if s[0] == '-' || s[0] == '+' then s[1..] else s;
      if |digits| == 0 || !AllDigits(digits) then None
      else
        var v: int := DigitsValue(digits);
        Some(if s[0] == '-' then -v else v)
  }

  /** `Long.valueOf(s)`; `None` is the NumberFormatException. */
  function LongValueOf(s: string): (r: Option<Long>)
    ensures r.Some? <==> ParseSigned(s).Some? && MinLong <= ParseSigned(s).value <= MaxLong
    ensures r.Some? ==> r.value == ParseSigned(s).value
  {
    match ParseSigned(s)
    case Some(v) => if MinLong <= v <= MaxLong then Some(v) else None
    case None => None
  }

  /** `Integer.valueOf(s)`; `None` is the NumberFormatException. */
  function IntegerValueOf(s: string): (r: Option<Int32>)
    ensures r.Some? <==> ParseSigned(s).Some? && MinInt <= ParseSigned(s).value <= MaxInt
    ensures r.Some? ==> r.value == ParseSigned(s).value
  {
    match ParseSigned(s)
    case Some(v) => if MinInt <= v <= MaxInt then Some(v) else None
    case None => None
  }

  /** The decimal digits of `n`, without leading zeros. */
  function NatToDigits(n: nat): string
  {
    if n < 10 then [DigitChar(n)] else NatToDigits(n / 10) + [DigitChar(n % 10)]
  }

  /** `Long.toString(n)` / `Integer.toString(n)`. */
  function IntToString(n: int): string
  {
    if n < 0 then "-" + NatToDigits(-n) else NatToDigits(n)
  }

  lemma {:induction false} NatToDigitsValue(n: nat)
    ensures |NatToDigits(n)| > 0 && AllDigits(NatToDigits(n))
    ensures DigitsValue(NatToDigits(n)) == n
  {
    if n >= 10 {
      NatToDigitsValue(n / 10);
      var s := NatToDigits(n);
      assert s[..|s| - 1] == NatToDigits(n / 10);
    }
  }

  /** Parsing what `toString` printed gives the number back. */
  lemma ParseSignedOfToString(n: int)
    ensures ParseSigned(IntToString(n)) == Some(n)
  {
    NatToDigitsValue(if n < 0 then -n else n);
    if n < 0 {
      assert IntToString(n)[1..] == NatToDigits(-n);
    }
  }

  lemma LongValueOfToString(n: Long)
    ensures LongValueOf(IntToString(n)) == Some(n)
  {
    ParseSignedOfToString(n);
  }

  lemma IntegerValueOfToString(n: Int32)
    ensures IntegerValueOf(IntToString(n)) == Some(n)
  {
    ParseSignedOfToString(n);
  }
}
