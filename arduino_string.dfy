/**
 * The parts of the Arduino `String` class that the rules interpreter relies on,
 * with the Arduino library's edge cases: `indexOf` answers -1 when the start
 * position is at or past the end, `substring` swaps reversed bounds and clamps
 * them to the length, `replace` substitutes every non-overlapping occurrence,
 * `trim` strips C `isspace` characters and `toLowerCase` folds ASCII only.
 */
module ArduinoString {

  const STX: char := 2 as char   // the mask byte used for '{'
  const ETX: char := 3 as char   // the mask byte used for '}'

  // ---------------------------------------------------------------------------
  // Searching
  // ---------------------------------------------------------------------------

  /** `s.indexOf(c, from)`: the first position at or after `from` holding `c`, or -1. */
  function IndexOfChar(s: string, c: char, from: nat): (r: int)
    ensures -1 <= r < |s|
    ensures r >= 0 ==> from <= r && s[r] == c && forall k :: from <= k < r ==> s[k] != c
    ensures r == -1 ==> forall k :: from <= k < |s| ==> s[k] != c
    decreases |s| - from
  {
    if from >= |s| then -1
    else if s[from] == c then from
    else IndexOfChar(s, c, from + 1)
  }

  /** `pat` occurs in `s` starting at position `k`. */
  predicate OccursAt(s: string, pat: string, k: nat)
  {
    k + |pat| <= |s| && s[k..k + |pat|] == pat
  }

  /** `s.indexOf(pat, from)`: the first occurrence starting at or after `from`, or -1. */
  function IndexOf(s: string, pat: string, from: nat): (r: int)
    ensures -1 <= r < |s|
    ensures r >= 0 ==> from <= r && OccursAt(s, pat, r) && forall k :: from <= k < r ==> !OccursAt(s, pat, k)
    ensures r == -1 ==> forall k :: from <= k < |s| ==> !OccursAt(s, pat, k)
    decreases |s| - from
  {
    if from >= |s| then -1
    else if OccursAt(s, pat, from) then from
    else IndexOf(s, pat, from + 1)
  }

  /** The largest position strictly between `lo` and `hi` holding `c`, or -1 (a backward scan). */
  function LastIndexBetween(s: string, c: char, lo: int, hi: int): (r: int)
    requires hi <= |s|
    ensures r == -1 || (0 <= r && lo < r < hi && s[r] == c)
    ensures r == -1 ==> forall k :: lo < k < hi && 0 <= k ==> s[k] != c
    ensures r != -1 ==> forall k :: r < k < hi ==> s[k] != c
    decreases hi - lo
  {
    if hi - 1 <= lo || hi - 1 < 0 then -1
    else if s[hi - 1] == c then hi - 1
    else LastIndexBetween(s, c, lo, hi - 1)
  }

  // ---------------------------------------------------------------------------
  // Substrings and comparisons
  // ---------------------------------------------------------------------------

  /** `s.substring(left, right)`: reversed bounds are swapped, then clamped to the length. */
  function Substring(s: string, left: nat, right: nat): (r: string)
    ensures left <= right <= |s| ==> r == s[left..right]
    ensures left <= right && left <= |s| < right ==> r == s[left..]
    ensures left >= |s| && right >= |s| ==> r == ""
    ensures |r| <= |s|
  {
    var lo := if left > right then right else left;
    var hi := if left > right then left else right;
    if lo >= |s| then "" else s[lo..if hi > |s| then |s| else hi]
  }

  /** `s.substring(left)`: the tail from `left`, empty when `left` is past the end. */
  function SubstringFrom(s: string, left: nat): (r: string)
    ensures left <= |s| ==> r == s[left..]
    ensures left >= |s| ==> r == ""
  {
    Substring(s, left, |s|)
  }

  /** `s.charAt(i)`: the NUL character when `i` is out of range. */
  function CharAt(s: string, i: nat): (r: char)
    ensures i < |s| ==> r == s[i]
    ensures i >= |s| ==> r == 0 as char
  {
    if i < |s| then s[i] else 0 as char
  }

  /** No occurrence of a prefix of `pat` means no occurrence of `pat`. */
  lemma AbsentPrefixAbsent(s: string, prefix: string, pat: string)
    requires prefix <= pat
    requires forall k :: 0 <= k < |s| ==> !OccursAt(s, prefix, k)
    ensures forall k :: 0 <= k < |s| ==> !OccursAt(s, pat, k)
  {
    forall k | 0 <= k < |s| && OccursAt(s, pat, k)
      ensures false
    {
      assert s[k..k + |prefix|] == pat[..|prefix|];
      assert OccursAt(s, prefix, k);
    }
  }

  /** C `isspace` for the characters the firmware meets. */
  predicate IsSpace(c: char)
  {
    c == ' ' || c == '\t' || c == '\n' || c == '\r' || c as int == 11 || c as int == 12
  }

  function TrimStart(s: string): (r: string)
    ensures |r| <= |s|
  {
    if |s| > 0 && IsSpace(s[0]) then TrimStart(s[1..]) else s
  }

  function TrimEnd(s: string): (r: string)
    ensures |r| <= |s|
  {
    if |s| > 0 && IsSpace(s[|s| - 1]) then TrimEnd(s[..|s| - 1]) else s
  }

  /** `s.trim()`: leading and trailing white space removed. */
  function Trim(s: string): (r: string)
    ensures |r| <= |s|
  {
    TrimEnd(TrimStart(s))
  }

  /** `TrimStart` drops exactly the leading white space: what is left is a suffix that starts with no space. */
  lemma {:induction false} TrimStartStrips(s: string)
    ensures var r := TrimStart(s);
      && r == s[|s| - |r|..]
      && (|r| > 0 ==> !IsSpace(r[0]))
      && forall k :: 0 <= k < |s| - |r| ==> IsSpace(s[k])
    decreases |s|
  {
    if |s| > 0 && IsSpace(s[0]) {
      TrimStartStrips(s[1..]);
      var r := TrimStart(s[1..]);
      assert s[1..][|s| - 1 - |r|..] == s[|s| - |r|..];
      assert forall k :: 1 <= k < |s| - |r| ==> s[k] == s[1..][k - 1];
    }
  }

  /** `TrimEnd` drops exactly the trailing white space: what is left is a prefix that ends with no space. */
  lemma {:induction false} TrimEndStrips(s: string)
    ensures var r := TrimEnd(s);
      && r == s[..|r|]
      && (|r| > 0 ==> !IsSpace(r[|r| - 1]))
      && forall k :: |r| <= k < |s| ==> IsSpace(s[k])
    decreases |s|
  {
    if |s| > 0 && IsSpace(s[|s| - 1]) {
      TrimEndStrips(s[..|s| - 1]);
      var r := TrimEnd(s[..|s| - 1]);
      assert s[..|s| - 1][..|r|] == s[..|r|];
    }
  }

  /**
   * `Trim(s)` is the slice of `s` from its first non-space character (at `i`)
   * on, with white space removed from both ends: neither end of it is a space,
   * and everything cut off is.
   */
  lemma TrimStrips(s: string)
    ensures var r, i := Trim(s), |s| - |TrimStart(s)|;
      && 0 <= i <= |s| - |r| && r == s[i..i + |r|]
      && (forall k :: 0 <= k < i ==> IsSpace(s[k]))
      && (forall k :: i + |r| <= k < |s| ==> IsSpace(s[k]))
    ensures var r := Trim(s); |r| > 0 ==> !IsSpace(r[0]) && !IsSpace(r[|r| - 1])
  {
    var t := TrimStart(s);
    var r := TrimEnd(t);
    var i := |s| - |t|;
    TrimStartStrips(s);
    TrimEndStrips(t);
    assert t == s[i..];
    assert r == t[..|r|];
    assert r == s[i..i + |r|];
    forall k | i + |r| <= k < |s|
      ensures IsSpace(s[k])
    {
      assert s[k] == t[k - i];
    }
    if |r| > 0 {
      assert r[0] == t[0];
    }
  }

  function LowerChar(c: char): char
  {
    if 'A' <= c <= 'Z' then (c as int + 32) as char else c
  }

  /** `s.toLowerCase()`, ASCII letters only. */
  function ToLower(s: string): (r: string)
    ensures |r| == |s|
    ensures forall i :: 0 <= i < |s| ==> r[i] == LowerChar(s[i])
  {
    seq(|s|, i requires 0 <= i < |s| => LowerChar(s[i]))
  }

  /** `a.equalsIgnoreCase(b)`. */
  predicate EqualsIgnoreCase(a: string, b: string)
  {
    |a| == |b| && ToLower(a) == ToLower(b)
  }

  // ---------------------------------------------------------------------------
  // Replacement
  // ---------------------------------------------------------------------------

  /** `s.replace(a, b)` for single characters: every `a` becomes `b`. */
  function ReplaceChar(s: string, a: char, b: char): (r: string)
    ensures |r| == |s|
    ensures forall i :: 0 <= i < |s| ==> r[i] == if s[i] == a then b else s[i]
  {
    seq(|s|, i requires 0 <= i < |s| => if s[i] == a then b else s[i])
  }

  /**
   * `s.replace(pat, rep)`: every non-overlapping occurrence of `pat`, found left
   * to right, is replaced; an empty `s` or an empty `pat` leaves `s` as it is.
   */
  function ReplaceAll(s: string, pat: string, rep: string): (r: string)
    decreases |s|
  {
    if |pat| == 0 || |s| == 0 then s
    else if pat <= s then rep + ReplaceAll(s[|pat|..], pat, rep)
    else [s[0]] + ReplaceAll(s[1..], pat, rep)
  }

  /** The number of occurrences `ReplaceAll` substitutes. */
  function Occurrences(s: string, pat: string): nat
    decreases |s|
  {
    if |pat| == 0 || |s| == 0 then 0
    else if pat <= s then 1 + Occurrences(s[|pat|..], pat)
    else Occurrences(s[1..], pat)
  }

  /** A string without any occurrence of `pat` is left unchanged by `ReplaceAll`. */
  lemma {:induction false} ReplaceAllAbsent(s: string, pat: string, rep: string)
    requires forall k :: 0 <= k < |s| ==> !OccursAt(s, pat, k)
    ensures ReplaceAll(s, pat, rep) == s
    decreases |s|
  {
    if |pat| == 0 || |s| == 0 {
    } else {
      PrefixOccurs(s, pat);
      var t := s[1..];
      forall k | 0 <= k < |t| ensures !OccursAt(t, pat, k) {
        ShiftOccurs(s, pat, k);
      }
      ReplaceAllAbsent(t, pat, rep);
    }
  }

  /** Being a prefix is occurring at position 0. */
  lemma PrefixOccurs(s: string, pat: string)
    ensures pat <= s <==> OccursAt(s, pat, 0)
  {
    if |pat| <= |s| {
      assert s[0..|pat|] == s[..|pat|];
    }
  }

  /** An occurrence in the tail is an occurrence one position later in the whole. */
  lemma ShiftOccurs(s: string, pat: string, k: nat)
    requires |s| > 0
    ensures OccursAt(s[1..], pat, k) <==> OccursAt(s, pat, k + 1)
  {
    if k + |pat| <= |s[1..]| {
      assert s[1..][k..k + |pat|] == s[k + 1..k + 1 + |pat|];
    }
  }

  /** An occurrence anywhere in `s` means at least one substitution. */
  lemma {:induction false} OccursMeansReplaced(s: string, pat: string, k: nat)
    requires |pat| > 0 && OccursAt(s, pat, k)
    ensures Occurrences(s, pat) >= 1
    decreases |s|
  {
    if pat <= s {
    } else {
      PrefixOccurs(s, pat);
      ShiftOccurs(s, pat, k - 1);
      OccursMeansReplaced(s[1..], pat, k - 1);
    }
  }

  // ---------------------------------------------------------------------------
  // Counting characters
  // ---------------------------------------------------------------------------

  function Count(c: char, s: string): nat
  {
    if s == [] then 0 else (if s[0] == c then 1 else 0) + Count(c, s[1..])
  }

  lemma {:induction false} CountAppend(c: char, a: string, b: string)
    ensures Count(c, a + b) == Count(c, a) + Count(c, b)
    decreases |a|
  {
    if a == [] {
      assert a + b == b;
    } else {
      assert (a + b)[1..] == a[1..] + b;
      CountAppend(c, a[1..], b);
    }
  }

  lemma {:induction false} CountZero(c: char, s: string)
    ensures Count(c, s) == 0 <==> c !in s
    decreases |s|
  {
    if s != [] {
      CountZero(c, s[1..]);
      assert s == [s[0]] + s[1..];
    }
  }

  /**
   * Each substituted occurrence trades the `c`s of the pattern for those of the
   * replacement; every other character is kept.
   */
  lemma {:induction false} ReplaceAllCount(c: char, s: string, pat: string, rep: string)
    ensures Count(c, ReplaceAll(s, pat, rep)) + Occurrences(s, pat) * Count(c, pat)
         == Count(c, s) + Occurrences(s, pat) * Count(c, rep)
    decreases |s|
  {
    if |pat| == 0 || |s| == 0 {
    } else if pat <= s {
      var rest := s[|pat|..];
      var n := Occurrences(rest, pat);
      assert s == pat + rest;
      CountAppend(c, pat, rest);
      CountAppend(c, rep, ReplaceAll(rest, pat, rep));
      ReplaceAllCount(c, rest, pat, rep);
      assert (n + 1) * Count(c, pat) == n * Count(c, pat) + Count(c, pat);
      assert (n + 1) * Count(c, rep) == n * Count(c, rep) + Count(c, rep);
    } else {
      assert s == [s[0]] + s[1..];
      CountAppend(c, [s[0]], s[1..]);
      CountAppend(c, [s[0]], ReplaceAll(s[1..], pat, rep));
      ReplaceAllCount(c, s[1..], pat, rep);
    }
  }

  // ---------------------------------------------------------------------------
  // Decimal text
  // ---------------------------------------------------------------------------

  predicate IsDigit(c: char)
  {
    '0' <= c <= '9'
  }

  predicate AllDigits(s: string)
  {
    forall i :: 0 <= i < |s| ==> IsDigit(s[i])
  }

  function DigitChar(d: nat): (c: char)
    requires d < 10
    ensures IsDigit(c) && c as int - '0' as int == d
  {
    ('0' as int + d) as char
  }

  /** `String(n)` for an unsigned value: its decimal digits, no leading zeros. */
  function NatToString(n: nat): (r: string)
    ensures |r| >= 1 && AllDigits(r)
    ensures n >= 10 ==> r[0] != '0'
    decreases n
  {
    if n < 10 then [DigitChar(n)] else NatToString(n / 10) + [DigitChar(n % 10)]
  }

  /** `String(i)` for a signed value. */
  function IntToString(i: int): (r: string)
    ensures |r| >= 1
    ensures i >= 0 ==> r == NatToString(i)
    ensures i < 0 ==> r == "-" + NatToString(-i)
  {
    if i < 0 then "-" + NatToString(-i) else NatToString(i)
  }

  /** The value of a string of decimal digits (empty counts as 0). */
  function DecimalValue(s: string): nat
    requires AllDigits(s)
    decreases |s|
  {
    if s == [] then 0 else 10 * DecimalValue(s[..|s| - 1]) + (s[|s| - 1] as int - '0' as int)
  }

  /** Rendering a number in decimal and reading it back gives the number. */
  lemma {:induction false} DecimalRoundTrip(n: nat)
    ensures DecimalValue(NatToString(n)) == n
    decreases n
  {
    var r := NatToString(n);
    if n >= 10 {
      DecimalRoundTrip(n / 10);
      assert r[..|r| - 1] == NatToString(n / 10);
    }
  }

  /** Decimal digits never contain brackets or the mask bytes. */
  lemma DecimalHasNoBraces(n: nat)
    ensures '}' !in NatToString(n) && '{' !in NatToString(n)
  {
    var r := NatToString(n);
    assert forall i :: 0 <= i < |r| ==> IsDigit(r[i]);
  }
}
