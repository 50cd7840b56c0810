/**
 * The string and byte-string operations the analyzers rely on: the substring
 * test behind Python's `pat in s` and `re.search` of a fixed pattern, the
 * newline rewrite, `str.split(c)[0]`, `str.strip()` and the decimal rendering
 * of an integer inside an f-string.
 */
module Text {

  /** One byte of the UTF-8 encoded source text. */
  type Byte = b: int | 0 <= b < 256

  /** The bytes of an ASCII string literal such as `b".map"`. */
  function AsciiBytes(s: string): (r: seq<Byte>)
    requires forall i | 0 <= i < |s| :: s[i] as int < 128
    ensures |r| == |s|
    ensures forall i | 0 <= i < |s| :: r[i] == s[i] as int
  {
    seq(|s|, i requires 0 <= i < |s| => s[i] as int)
  }

  /** `pat` occurs in `s` starting at offset `i`. */
  predicate OccursAt<T(==)>(s: seq<T>, pat: seq<T>, i: int) {
    0 <= i <= |s| - |pat| && s[i..i + |pat|] == pat
  }

  /** Python's `pat in s`, and `re.search` of a pattern without metacharacters. */
  predicate Contains<T(==)>(s: seq<T>, pat: seq<T>) {
    exists i | 0 <= i <= |s| - |pat| :: OccursAt(s, pat, i)
  }

  /** An occurrence of `pat` that avoids every position where `s` and `t` differ is an occurrence in both. */
  lemma ContainsTransfer<T>(s: seq<T>, t: seq<T>, pat: seq<T>)
    requires |s| == |t|
    requires forall k | 0 <= k < |s| :: s[k] != t[k] ==> s[k] !in pat && t[k] !in pat
    ensures Contains(s, pat) <==> Contains(t, pat)
  {
    forall s1: seq<T>, t1: seq<T> | (s1 == s && t1 == t) || (s1 == t && t1 == s)
      ensures Contains(s1, pat) ==> Contains(t1, pat)
    {
      if Contains(s1, pat) {
        var i :| 0 <= i <= |s1| - |pat| && OccursAt(s1, pat, i);
        forall k | 0 <= k < |pat| ensures t1[i + k] == pat[k] {
          assert s1[i..i + |pat|][k] == s1[i + k];
          assert s1[i + k] in pat;
        }
        assert t1[i..i + |pat|] == pat;
        assert OccursAt(t1, pat, i);
      }
    }
  }

  /** `code.replace('\n', ' ')`. */
  function ReplaceNewlines(code: string): (stream: string)
    ensures |stream| == |code|
    ensures '\n' !in stream
    ensures forall k | 0 <= k < |code| :: stream[k] == if code[k] == '\n' then ' ' else code[k]
  {
    seq(|code|, k requires 0 <= k < |code| => if code[k] == '\n' then ' ' else code[k])
  }

  /** `s.split(sep)[0]`: everything before the first `sep`, or all of `s` when there is none. */
  function PrefixBefore(s: string, sep: char): (r: string)
    ensures |r| <= |s| && r == s[..|r|]
    ensures sep !in r
    ensures |r| < |s| ==> s[|r|] == sep
  {
    if s == [] || s[0] == sep then [] else [s[0]] + PrefixBefore(s[1..], sep)
  }

  /** The text before the first separator is the part up to it. */
  lemma {:induction false} PrefixBeforeFirst(s: string, sep: char, rest: string)
    requires sep !in s
    ensures PrefixBefore(s + [sep] + rest, sep) == s
  {
    if s != [] {
      assert (s + [sep] + rest)[1..] == s[1..] + [sep] + rest;
      PrefixBeforeFirst(s[1..], sep, rest);
    }
  }

  /** Python's `str.isspace` on one character. */
  predicate IsSpace(c: char) {
    var u := c as int;
    (9 <= u <= 13) || (28 <= u <= 32) || u == 0x85 || u == 0xA0 || u == 0x1680
    || (0x2000 <= u <= 0x200A) || u == 0x2028 || u == 0x2029 || u == 0x202F
    || u == 0x205F || u == 0x3000
  }

  /** Where `s.lstrip()` starts, scanning from `i`: the first non-whitespace position, or the end. */
  function FirstNonSpace(s: string, i: nat): (n: nat)
    requires i <= |s|
    ensures i <= n <= |s|
    ensures forall k | i <= k < n :: IsSpace(s[k])
    ensures n < |s| ==> !IsSpace(s[n])
    decreases |s| - i
  {
    if i < |s| && IsSpace(s[i]) then FirstNonSpace(s, i + 1) else i
  }

  /** Where `s.rstrip()` ends, scanning back from `j`: just past the last non-whitespace position, or 0. */
  function EndOfNonSpace(s: string, j: nat): (n: nat)
    requires j <= |s|
    ensures n <= j
    ensures forall k | n <= k < j :: IsSpace(s[k])
    ensures n > 0 ==> !IsSpace(s[n - 1])
  {
    if j > 0 && IsSpace(s[j - 1]) then EndOfNonSpace(s, j - 1) else j
  }

  /**
   * `s.strip()`: the infix of `s` that starts at `lo` and leaves only
   * whitespace on either side, itself neither starting nor ending in whitespace.
   */
  function Strip(s: string): (r: string)
    ensures var lo := FirstNonSpace(s, 0);
      && lo + |r| <= |s|
      && r == s[lo..lo + |r|]
      && (forall k | 0 <= k < lo :: IsSpace(s[k]))
      && (forall k | lo + |r| <= k < |s| :: IsSpace(s[k]))
    ensures r != [] ==> !IsSpace(r[0]) && !IsSpace(r[|r| - 1])
  {
    var lo := FirstNonSpace(s, 0);
    var hi := EndOfNonSpace(s, |s|);
    if hi <= lo then [] else s[lo..hi]
  }

  /** A string with no whitespace strips to itself. */
  lemma StripNoSpace(s: string)
    requires forall k | 0 <= k < |s| :: !IsSpace(s[k])
    ensures Strip(s) == s
  {
  }

  predicate IsDigit(c: char) {
    '0' as int <= c as int <= '9' as int
  }

  function DigitChar(d: nat): (c: char)
    requires d < 10
    ensures IsDigit(c) && c as int - '0' as int == d
  {
    (('0' as int) + d) as char
  }

  /** The decimal text of `n`, as Python's `str(n)` and `f"{n}"` render it. */
  function NatToString(n: nat): (r: string)
    ensures |r| >= 1
    ensures forall k | 0 <= k < |r| :: IsDigit(r[k])
    ensures |r| > 1 ==> r[0] != '0'
  {
    if n < 10 then [DigitChar(n)] else NatToString(n / 10) + [DigitChar(n % 10)]
  }

  /** The number a string of decimal digits denotes. */
  function DecimalValue(s: string): nat
    requires forall k | 0 <= k < |s| :: IsDigit(s[k])
  {
    if s == [] then 0
    else
      assert IsDigit(s[|s| - 1]);
      10 * DecimalValue(s[..|s| - 1]) + (s[|s| - 1] as int - '0' as int)
  }

  /** Reading the rendered digits back gives the number. */
  lemma {:induction false} DecimalRoundTrip(n: nat)
    ensures DecimalValue(NatToString(n)) == n
  {
    var r := NatToString(n);
    if n >= 10 {
      DecimalRoundTrip(n / 10);
      assert r[..|r| - 1] == NatToString(n / 10);
    }
  }

  /** Distinct numbers render to distinct texts. */
  lemma NatToStringInjective(a: nat, b: nat)
    requires NatToString(a) == NatToString(b)
    ensures a == b
  {
    DecimalRoundTrip(a);
    DecimalRoundTrip(b);
  }
}
