/** The string operations of the Kotlin standard library that the screens
    rely on, over `string` = `seq<char>`: decimal rendering and parsing of
    integers, `trim`, `indexOf`, `uppercase`, `removeSurrounding`,
    case-insensitive comparison and `split(" +".toRegex())`.
    Case mapping is modelled for ASCII letters only. */
module Text {
  import opened Numerics
  import opened Wrappers

  // ---------------------------------------------------------------------
  // Decimal digits

  predicate IsDigit(c: char) { '0' <= c <= '9' }

  predicate AllDigits(s: string) { forall i :: 0 <= i < |s| ==> IsDigit(s[i]) }

  function DigitChar(d: nat): (c: char)
    requires d < 10
    ensures IsDigit(c)
  {
    "0123456789"[d]
  }

  function DigitValue(c: char): (d: nat)
    requires IsDigit(c)
    ensures d < 10
  {
    c as int - '0' as int
  }

  lemma DigitRoundTrip(d: nat)
    requires d < 10
    ensures DigitValue(DigitChar(d)) == d
  {
  }

  /** Decimal rendering without leading zeros, as `toString()` on a non-negative number. */
  function NatToString(n: nat): (s: string)
    ensures 1 <= |s| && AllDigits(s)
    ensures s[0] == '0' ==> n == 0
    decreases n
  {
    if n < 10 then [DigitChar(n)] else NatToString(n / 10) + [DigitChar(n % 10)]
  }

  /** Kotlin `Int.toString()` / `Long.toString()` (and string templates `"$n"`). */
  function IntToString(i: int): (s: string)
    ensures 1 <= |s|
    ensures s[0] == '-' <==> i < 0
  {
    if i < 0 then "-" + NatToString(-i) else NatToString(i)
  }

  /** The value of a string of decimal digits, most significant first. */
  function DigitsValue(s: string): nat
    requires AllDigits(s)
  {
    if s == [] then 0 else DigitsValue(s[..|s| - 1]) * 10 + DigitValue(s[|s| - 1])
  }

  lemma {:induction false} DigitsValueOfNatToString(n: nat)
    ensures DigitsValue(NatToString(n)) == n
    decreases n
  {
    var s := NatToString(n);
    if n >= 10 {
      DigitsValueOfNatToString(n / 10);
      assert s[..|s| - 1] == NatToString(n / 10);
      DigitRoundTrip(n % 10);
    } else {
      DigitRoundTrip(n);
    }
  }

  /** Rendering is injective: different numbers have different decimal texts. */
  lemma IntToStringInjective(a: int, b: int)
    requires IntToString(a) == IntToString(b)
    ensures a == b
  {
    if a < 0 {
      NegativeRendering(a);
      NegativeRendering(b);
      NatToStringInjective(-a, -b);
    } else {
      NatToStringInjective(a, b);
    }
  }

  /** A negative number is rendered as '-' and then its magnitude. */
  lemma NegativeRendering(a: int)
    requires a < 0
    ensures IntToString(a)[1..] == NatToString(-a)
  {
    assert IntToString(a) == "-" + NatToString(-a);
  }

  lemma NatToStringInjective(m: nat, n: nat)
    requires NatToString(m) == NatToString(n)
    ensures m == n
  {
    DigitsValueOfNatToString(m);
    DigitsValueOfNatToString(n);
  }

  /** Kotlin `String.toLong()`: an optional `+` or `-`, then at least one
      decimal digit, with a value in the `Long` range; anything else (an
      empty string, a blank, a stray character, an overflow) throws
      `NumberFormatException`, modelled as `None`. */
  function ParseLong(s: string): (r: Option<int>)
    ensures r.Some? ==> IsLong(r.value) && |s| >= 1
    ensures r.Some? ==> forall i :: 1 <= i < |s| ==> IsDigit(s[i])
  {
    if |s| == 0 then None
    else
      var body := if s[0] == '-' || s[0] == '+' then s[1..] else s;
      if |body| == 0 || !AllDigits(body) then None
      else
        var v: int := if s[0] == '-' then 0 - DigitsValue(body) else DigitsValue(body);
        if IsLong(v) then Some(v) else None
  }

  /** Parsing what `toString()` printed gives the number back. */
  lemma ParseLongOfIntToString(n: int)
    requires IsLong(n)
    ensures ParseLong(IntToString(n)) == Some(n)
  {
    var s := IntToString(n);
    if n < 0 {
      assert s[1..] == NatToString(-n);
      DigitsValueOfNatToString(-n);
    } else {
      DigitsValueOfNatToString(n);
    }
  }

  // ---------------------------------------------------------------------
  // Whitespace and trimming

  /** Kotlin `Char.isWhitespace()`: Java's `isWhitespace` or `isSpaceChar`. */
  predicate IsWhitespace(c: char)
  {
    c == ' ' || c == '\t' || c == '\n' || c == '\r' || c == '\U{B}' || c == '\U{C}'
    || ('\U{1C}' <= c <= '\U{1F}') || c == '\U{A0}' || c == '\U{1680}'
    || ('\U{2000}' <= c <= '\U{200A}') || c == '\U{2028}' || c == '\U{2029}'
    || c == '\U{202F}' || c == '\U{205F}' || c == '\U{3000}'
  }

  /** Drops the leading whitespace. */
  function TrimStart(s: string): (t: string)
    ensures |t| <= |s| && t == s[|s| - |t|..]
    ensures forall i :: 0 <= i < |s| - |t| ==> IsWhitespace(s[i])
    ensures t == [] || !IsWhitespace(t[0])
  {
    if s != [] && IsWhitespace(s[0]) then TrimStart(s[1..]) else s
  }

  /** Drops the trailing whitespace. */
  function TrimEnd(s: string): (t: string)
    ensures |t| <= |s| && t == s[..|t|]
    ensures forall i :: |t| <= i < |s| ==> IsWhitespace(s[i])
    ensures t == [] || !IsWhitespace(t[|t| - 1])
  {
    if s != [] && IsWhitespace(s[|s| - 1]) then TrimEnd(s[..|s| - 1]) else s
  }

  /** Kotlin `String.trim()`. */
  function Trim(s: string): (t: string)
    ensures t == [] || (!IsWhitespace(t[0]) && !IsWhitespace(t[|t| - 1]))
  {
    TrimEnd(TrimStart(s))
  }

  // ---------------------------------------------------------------------
  // Searching and slicing

  /** Kotlin `String.indexOf(c)`: the first position of `c`, or -1. */
  function IndexOf(s: string, c: char): (i: int)
    ensures -1 <= i < |s|
    ensures i == -1 <==> c !in s
    ensures 0 <= i ==> s[i] == c && c !in s[..i]
  {
    if s == [] then -1
    else if s[0] == c then 0
    else
      var j := IndexOf(s[1..], c);
      assert s[1..][..if j < 0 then 0 else j] == s[1..1 + if j < 0 then 0 else j];
      if j < 0 then -1 else j + 1
  }

  /** Kotlin `String.removeSurrounding(d)` with a one-character delimiter:
      both ends are removed only when the string starts AND ends with `d`
      and is long enough to hold both. */
  function RemoveSurrounding(s: string, d: char): (r: string)
  {
    if |s| >= 2 && s[0] == d && s[|s| - 1] == d then s[1..|s| - 1] else s
  }

  // ---------------------------------------------------------------------
  // Case

  function UpperChar(c: char): char
  {
    if 'a' <= c <= 'z' then (c as int - 32) as char else c
  }

  function LowerChar(c: char): char
  {
    if 'A' <= c <= 'Z' then (c as int + 32) as char else c
  }

  /** Kotlin `String.uppercase()`. */
  function Upper(s: string): (r: string)
    ensures |r| == |s|
    ensures forall i :: 0 <= i < |s| ==> r[i] == UpperChar(s[i])
  {
    if s == [] then [] else [UpperChar(s[0])] + Upper(s[1..])
  }

  /** Kotlin `Char.equals(other, ignoreCase = true)`. */
  predicate CharEqualsIgnoreCase(a: char, b: char)
  {
    a == b || UpperChar(a) == UpperChar(b) || LowerChar(UpperChar(a)) == LowerChar(UpperChar(b))
  }

  /** Kotlin `String.equals(other, ignoreCase = true)`. */
  predicate EqualsIgnoreCase(a: string, b: string)
  {
    |a| == |b| && forall i :: 0 <= i < |a| ==> CharEqualsIgnoreCase(a[i], b[i])
  }

  /** `s` begins with `q`, ignoring case. */
  predicate StartsWithIgnoreCase(s: string, q: string)
  {
    |q| <= |s| && EqualsIgnoreCase(s[..|q|], q)
  }

  /** Kotlin `String.contains(q, ignoreCase = true)`. */
  predicate ContainsIgnoreCase(s: string, q: string)
    decreases |s|
  {
    StartsWithIgnoreCase(s, q) || (s != [] && ContainsIgnoreCase(s[1..], q))
  }

  /** Every string contains the empty query and itself. */
  lemma ContainsIgnoreCaseTrivial(s: string)
    ensures ContainsIgnoreCase(s, "")
    ensures ContainsIgnoreCase(s, s)
  {
    assert s[..|s|] == s;
  }

  // ---------------------------------------------------------------------
  // Splitting on runs of spaces

  /** The first position at or after `i` that is not a space, or `|s|`. */
  function SkipSpaces(s: string, i: nat): (j: nat)
    requires i <= |s|
    ensures i <= j <= |s|
    ensures forall k :: i <= k < j ==> s[k] == ' '
    ensures j < |s| ==> s[j] != ' '
    decreases |s| - i
  {
    if i < |s| && s[i] == ' ' then SkipSpaces(s, i + 1) else i
  }

  /** Kotlin `split(" +".toRegex())`: the pieces between maximal runs of
      spaces, keeping a leading and a trailing empty piece. */
  function SplitSpaces(s: string): (toks: seq<string>)
    ensures 1 <= |toks|
    ensures forall k :: 0 <= k < |toks| ==> ' ' !in toks[k]
    decreases |s|
  {
    var i := IndexOf(s, ' ');
    if i < 0 then [s]
    else [s[..i]] + SplitSpaces(s[SkipSpaces(s, i)..])
  }

  /** Joins pieces with one space between neighbours. */
  function JoinSpaces(toks: seq<string>): string
  {
    if toks == [] then "" else if |toks| == 1 then toks[0] else toks[0] + " " + JoinSpaces(toks[1..])
  }

  function Spaces(n: nat): (s: string)
    ensures |s| == n && forall k :: 0 <= k < n ==> s[k] == ' '
  {
    if n == 0 then "" else " " + Spaces(n - 1)
  }

  lemma SkipSpacesRun(s: string, i: nat, n: nat)
    requires i + n <= |s|
    requires forall k :: i <= k < i + n ==> s[k] == ' '
    requires i + n < |s| ==> s[i + n] != ' '
    ensures SkipSpaces(s, i) == i + n
    decreases n
  {
    if n > 0 {
      SkipSpacesRun(s, i + 1, n - 1);
    }
  }

  /** A piece without spaces splits into itself. */
  lemma SplitNoSpace(t: string)
    requires ' ' !in t
    ensures SplitSpaces(t) == [t]
  {
  }

  /** A run of spaces after a space-free prefix ends the first piece. */
  lemma SplitAfterRun(a: string, n: nat, b: string)
    requires ' ' !in a && 1 <= n
    requires b == [] || b[0] != ' '
    ensures SplitSpaces(a + Spaces(n) + b) == [a] + SplitSpaces(b)
  {
    var s := a + Spaces(n) + b;
    assert s[..|a|] == a;
    assert s[|a|] == ' ';
    var i := IndexOf(s, ' ');
    assert i == |a|;
    SkipSpacesRun(s, |a|, n);
    assert s[|a| + n..] == b;
  }

  /** Splitting undoes a join of non-empty, space-free pieces. */
  lemma {:induction false} SplitJoin(toks: seq<string>)
    requires 1 <= |toks|
    requires forall k :: 0 <= k < |toks| ==> toks[k] != [] && ' ' !in toks[k]
    ensures SplitSpaces(JoinSpaces(toks)) == toks
    decreases |toks|
  {
    if |toks| == 1 {
      SplitNoSpace(toks[0]);
    } else {
      var rest := JoinSpaces(toks[1..]);
      JoinSpacesStart(toks[1..]);
      assert Spaces(1) == " ";
      assert JoinSpaces(toks) == toks[0] + Spaces(1) + rest;
      SplitAfterRun(toks[0], 1, rest);
      SplitJoin(toks[1..]);
      assert [toks[0]] + toks[1..] == toks;
    }
  }

  /** A join begins with its first piece. */
  lemma JoinSpacesStart(toks: seq<string>)
    requires 1 <= |toks| && toks[0] != []
    ensures JoinSpaces(toks) != [] && JoinSpaces(toks)[0] == toks[0][0]
  {
  }

  // ---------------------------------------------------------------------
  // Hexadecimal

  function HexDigitUpper(d: nat): (c: char)
    requires d < 16
  {
    "0123456789ABCDEF"[d]
  }

  function HexDigitValue(c: char): (r: Option<nat>)
    ensures r.Some? ==> r.value < 16
  {
    if '0' <= c <= '9' then Some(c as int - '0' as int)
    else if 'A' <= c <= 'F' then Some(c as int - 'A' as int + 10)
    else None
  }

  lemma HexDigitRoundTrip(d: nat)
    requires d < 16
    ensures HexDigitValue(HexDigitUpper(d)) == Some(d)
  {
  }
}
