/** The handful of Python string operations the engine relies on:
    `sep.join(parts)`, `str.strip()`, `str.rstrip(c)`, `str(int)` and
    `str.replace('\\', '/')`. */
module Text {

  /** `sep.join(parts)`. */
  function Join(parts: seq<string>, sep: string): string
  {
    if |parts| == 0 then ""
    else if |parts| == 1 then parts[0]
    else parts[0] + sep + Join(parts[1..], sep)
  }

  /** The characters Python's `str.isspace` accepts, which are the ones
      `str.strip()` with no argument removes. */
  predicate IsSpace(c: char)
  {
    var n := c as int;
    (9 <= n <= 13) || (28 <= n <= 32) || n == 0x85 || n == 0xA0 || n == 0x1680
    || (0x2000 <= n <= 0x200A) || n == 0x2028 || n == 0x2029 || n == 0x202F
    || n == 0x205F || n == 0x3000
  }

  /** The first index at or after `i` that does not hold whitespace (`|s|` when none does). */
  function SkipSpaces(s: string, i: nat): (j: nat)
    requires i <= |s|
    ensures i <= j <= |s|
    decreases |s| - i
  {
    if i < |s| && IsSpace(s[i]) then SkipSpaces(s, i + 1) else i
  }

  lemma {:induction false} SkipSpacesShape(s: string, i: nat)
    requires i <= |s|
    ensures var j := SkipSpaces(s, i);
      && (forall k :: i <= k < j ==> IsSpace(s[k]))
      && (j < |s| ==> !IsSpace(s[j]))
    decreases |s| - i
  {
    if i < |s| && IsSpace(s[i]) {
      SkipSpacesShape(s, i + 1);
    }
  }

  /** The end of `s[..j]` once its trailing whitespace is cut away. */
  function TrimEnd(s: string, j: nat): (e: nat)
    requires j <= |s|
    ensures e <= j
  {
    if j > 0 && IsSpace(s[j - 1]) then TrimEnd(s, j - 1) else j
  }

  lemma {:induction false} TrimEndShape(s: string, j: nat)
    requires j <= |s|
    ensures var e := TrimEnd(s, j);
      && (forall k :: e <= k < j ==> IsSpace(s[k]))
      && (e == 0 || !IsSpace(s[e - 1]))
  {
    if j > 0 && IsSpace(s[j - 1]) {
      TrimEndShape(s, j - 1);
    }
  }

  /** Number of leading whitespace characters of `s`. */
  function LeadingSpaces(s: string): nat
  {
    SkipSpaces(s, 0)
  }

  /** `s.strip()`: whitespace removed from both ends. */
  function Strip(s: string): string
  {
    var lo := SkipSpaces(s, 0);
    var hi := TrimEnd(s, |s|);
    if hi <= lo then [] else s[lo..hi]
  }

  /** The stripped string is the slice of `s` that starts after its leading
      whitespace, with only whitespace cut away on the right; it neither
      starts nor ends with whitespace. */
  lemma StripShape(s: string)
    ensures var r := Strip(s);
      && LeadingSpaces(s) + |r| <= |s|
      && r == s[LeadingSpaces(s)..LeadingSpaces(s) + |r|]
      && (forall k :: 0 <= k < LeadingSpaces(s) ==> IsSpace(s[k]))
      && (forall k :: LeadingSpaces(s) + |r| <= k < |s| ==> IsSpace(s[k]))
      && (r == [] || (!IsSpace(r[0]) && !IsSpace(r[|r| - 1])))
  {
    SkipSpacesShape(s, 0);
    TrimEndShape(s, |s|);
  }

  /** `strip` is characterised by its contract: whitespace around a core
      that neither starts nor ends with whitespace is exactly what it removes. */
  lemma StripSurrounded(pre: string, core: string, post: string)
    requires forall k :: 0 <= k < |pre| ==> IsSpace(pre[k])
    requires forall k :: 0 <= k < |post| ==> IsSpace(post[k])
    requires core == [] || (!IsSpace(core[0]) && !IsSpace(core[|core| - 1]))
    ensures Strip(pre + core + post) == core
  {
    var s := pre + core + post;
    StripShape(s);
    if core == [] {
      assert forall k :: 0 <= k < |s| ==> IsSpace(s[k]);
    } else {
      assert s[|pre|] == core[0] && s[|pre| + |core| - 1] == core[|core| - 1];
      assert s[|pre|..|pre| + |core|] == core;
    }
  }

  /** The end of `s[..j]` once its trailing copies of `c` are cut away. */
  function TrailingEnd(s: string, c: char, j: nat): (e: nat)
    requires j <= |s|
    ensures e <= j
  {
    if j > 0 && s[j - 1] == c then TrailingEnd(s, c, j - 1) else j
  }

  lemma {:induction false} TrailingEndShape(s: string, c: char, j: nat)
    requires j <= |s|
    ensures var e := TrailingEnd(s, c, j);
      && (forall k :: e <= k < j ==> s[k] == c)
      && (e == 0 || s[e - 1] != c)
  {
    if j > 0 && s[j - 1] == c {
      TrailingEndShape(s, c, j - 1);
    }
  }

  /** `s.rstrip(c)` for a one-character argument: removes every trailing `c`. */
  function StripTrailing(s: string, c: char): string
  {
    s[..TrailingEnd(s, c, |s|)]
  }

  /** `rstrip(c)` leaves a prefix, removes only copies of `c`, and stops at
      the last character that is not `c`. */
  lemma StripTrailingShape(s: string, c: char)
    ensures var r := StripTrailing(s, c);
      && |r| <= |s| && r == s[..|r|]
      && (forall k :: |r| <= k < |s| ==> s[k] == c)
      && (r == [] || r[|r| - 1] != c)
  {
    TrailingEndShape(s, c, |s|);
  }

  predicate IsDigit(c: char)
  {
    '0' <= c <= '9'
  }

  /** The digit character of a value below ten. */
  function Digit(d: nat): (c: char)
    requires d < 10
    ensures IsDigit(c) && c as int - '0' as int == d
  {
    ('0' as int + d) as char
  }

  /** The decimal digits of a natural number, without leading zeros. */
  function NatToDecimal(n: nat): (r: string)
    ensures |r| > 0 && forall k :: 0 <= k < |r| ==> IsDigit(r[k])
    ensures |r| > 1 ==> r[0] != '0'
  {
    var d := [Digit(n % 10)];
    if n < 10 then d else NatToDecimal(n / 10) + d
  }

  /** `rstrip(c)` removes exactly a final run of `c` from a string that does
      not otherwise end in `c`. */
  lemma StripTrailingRun(core: string, run: string, c: char)
    requires forall k :: 0 <= k < |run| ==> run[k] == c
    requires core == [] || core[|core| - 1] != c
    ensures StripTrailing(core + run, c) == core
  {
    TrailingEndRun(core, run, c, |core + run|);
    assert (core + run)[..|core|] == core;
  }

  /** Cutting copies of `c` back from anywhere in the run stops where `core` ends. */
  lemma {:induction false} TrailingEndRun(core: string, run: string, c: char, j: nat)
    requires forall k :: 0 <= k < |run| ==> run[k] == c
    requires core == [] || core[|core| - 1] != c
    requires |core| <= j <= |core + run|
    ensures TrailingEnd(core + run, c, j) == |core|
  {
    var s := core + run;
    if j > |core| {
      assert s[j - 1] == run[j - 1 - |core|];
      TrailingEndRun(core, run, c, j - 1);
    } else if j > 0 {
      assert s[j - 1] == core[|core| - 1];
    }
  }

  /** The number a string of decimal digits denotes. */
  function DecimalValue(s: string): nat
  {
    if s == [] then 0 else 10 * DecimalValue(s[..|s| - 1]) + ((s[|s| - 1] as int - '0' as int) % 10)
  }

  /** Reading the digits back gives the number: the rendering loses nothing. */
  lemma {:induction false} DecimalRoundTrip(n: nat)
    ensures DecimalValue(NatToDecimal(n)) == n
  {
    var d := [Digit(n % 10)];
    if n >= 10 {
      DecimalRoundTrip(n / 10);
      var s := NatToDecimal(n / 10) + d;
      assert s[..|s| - 1] == NatToDecimal(n / 10);
    }
  }

  /** `str(n)` for a Python `int`. */
  function IntToDecimal(n: int): string
  {
    if n < 0 then "-" + NatToDecimal(-n) else NatToDecimal(n)
  }

  /** A rendering starts with a minus sign exactly when the number is negative. */
  lemma DecimalSign(n: int)
    ensures |IntToDecimal(n)| > 0 && (IntToDecimal(n)[0] == '-' <==> n < 0)
  {
    if n >= 0 {
      assert IsDigit(NatToDecimal(n)[0]);
    }
  }

  /** Different numbers render differently. */
  lemma IntToDecimalInjective(a: int, b: int)
    requires IntToDecimal(a) == IntToDecimal(b)
    ensures a == b
  {
    DecimalSign(a);
    DecimalSign(b);
    if a < 0 {
      var s := IntToDecimal(a);
      assert s[1..] == NatToDecimal(-a);
      assert s[1..] == NatToDecimal(-b);
      DecimalRoundTrip(-a);
      DecimalRoundTrip(-b);
    } else {
      DecimalRoundTrip(a);
      DecimalRoundTrip(b);
    }
  }

  /** `s.replace('\\', '/')`. */
  function Slashes(s: string): (r: string)
    ensures |r| == |s|
    ensures forall k :: 0 <= k < |s| ==> r[k] == (if s[k] == '\\' then '/' else s[k])
  {
    if s == [] then [] else Slashes(s[..|s| - 1]) + [if s[|s| - 1] == '\\' then '/' else s[|s| - 1]]
  }

  predicate StartsWith(s: string, prefix: string)
  {
    |prefix| <= |s| && s[..|prefix|] == prefix
  }

  predicate EndsWith(s: string, suffix: string)
  {
    |suffix| <= |s| && s[|s| - |suffix|..] == suffix
  }
}
