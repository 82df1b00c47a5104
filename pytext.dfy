/**
 * The Python string built-ins the application relies on, written out so that
 * their behaviour can be reasoned about: str.find, str.strip, str.lower (on
 * ASCII letters), str.replace of one character, f"{n}" for a non-negative int,
 * str.join, and the slice s[:n].
 * Strings are sequences of Unicode code points, as Python's str is.
 */
module PyText {

  function Min(a: int, b: int): int
  {
    if a < b then a else b
  }

  // ---------------------------------------------------------------------------
  // str.find

  /** `pat` occurs in `s` starting at index `i`. */
  predicate OccursAt(s: string, pat: string, i: int)
  {
    0 <= i && i + |pat| <= |s| && s[i..i + |pat|] == pat
  }

  /** `pat` occurs nowhere in `s`. */
  predicate Absent(s: string, pat: string)
  {
    forall i :: 0 <= i <= |s| ==> !OccursAt(s, pat, i)
  }

  /** `i` is the least index at which `pat` occurs in `s`. */
  predicate IsFirstOccurrence(s: string, pat: string, i: int)
  {
    OccursAt(s, pat, i) && forall k :: 0 <= k < i ==> !OccursAt(s, pat, k)
  }

  /** The search behind str.find, started at index `from`. */
  function FindFrom(s: string, pat: string, from: nat): (r: int)
    requires from <= |s|
    decreases |s| - from
    ensures r == -1 || (from <= r <= |s| && OccursAt(s, pat, r))
    ensures r != -1 ==> forall k :: from <= k < r ==> !OccursAt(s, pat, k)
    ensures r == -1 ==> forall k :: from <= k <= |s| ==> !OccursAt(s, pat, k)
  {
    if OccursAt(s, pat, from) then from
    else if from == |s| then -1
    else FindFrom(s, pat, from + 1)
  }

  /** Python's s.find(pat): the least index of an occurrence, or -1 when there is none. */
  function Find(s: string, pat: string): (r: int)
    ensures r == -1 <==> Absent(s, pat)
    ensures r != -1 ==> 0 <= r <= |s| && IsFirstOccurrence(s, pat, r)
  {
    FindFrom(s, pat, 0)
  }

  // ---------------------------------------------------------------------------
  // str.strip

  /** The characters for which Python's str.isspace() holds. */
  predicate IsSpace(c: char)
  {
    var n := c as int;
    (9 <= n <= 13) || (28 <= n <= 32) || n == 0x85 || n == 0xA0 || n == 0x1680
    || (0x2000 <= n <= 0x200A) || n == 0x2028 || n == 0x2029 || n == 0x202F
    || n == 0x205F || n == 0x3000
  }

  /** The first index at or after `i` that does not hold whitespace, or |s|. */
  function SkipSpaces(s: string, i: nat): (r: nat)
    requires i <= |s|
    decreases |s| - i
    ensures i <= r <= |s|
  {
    if i < |s| && IsSpace(s[i]) then SkipSpaces(s, i + 1) else i
  }

  /** Everything SkipSpaces passes over is whitespace. */
  lemma {:induction false} SkipSpacesSkipsSpace(s: string, i: nat)
    requires i <= |s|
    decreases |s| - i
    ensures forall k :: i <= k < SkipSpaces(s, i) ==> IsSpace(s[k])
    ensures SkipSpaces(s, i) == |s| || !IsSpace(s[SkipSpaces(s, i)])
  {
    if i < |s| && IsSpace(s[i]) {
      SkipSpacesSkipsSpace(s, i + 1);
    }
  }

  /** The end of s[lo..hi] once trailing whitespace is dropped. */
  function TrimEnd(s: string, lo: nat, hi: nat): (r: nat)
    requires lo <= hi <= |s|
    decreases hi
    ensures lo <= r <= hi
  {
    if lo < hi && IsSpace(s[hi - 1]) then TrimEnd(s, lo, hi - 1) else hi
  }

  /** Everything TrimEnd cuts off is whitespace. */
  lemma {:induction false} TrimEndTrimsSpace(s: string, lo: nat, hi: nat)
    requires lo <= hi <= |s|
    decreases hi
    ensures forall k :: TrimEnd(s, lo, hi) <= k < hi ==> IsSpace(s[k])
    ensures TrimEnd(s, lo, hi) == lo || !IsSpace(s[TrimEnd(s, lo, hi) - 1])
  {
    if lo < hi && IsSpace(s[hi - 1]) {
      TrimEndTrimsSpace(s, lo, hi - 1);
    }
  }

  /** Where s.strip() begins inside s. */
  function StripStart(s: string): nat
  {
    SkipSpaces(s, 0)
  }

  /** Where s.strip() ends inside s. */
  function StripEnd(s: string): (r: nat)
    ensures StripStart(s) <= r <= |s|
  {
    TrimEnd(s, StripStart(s), |s|)
  }

  /** Python's s.strip(): s without its leading and trailing whitespace. */
  function Strip(s: string): (r: string)
    ensures |r| <= |s|
  {
    s[StripStart(s)..StripEnd(s)]
  }

  /** What strip removes is whitespace and nothing else. */
  lemma StripRemovesOnlySpace(s: string)
    ensures s == s[..StripStart(s)] + Strip(s) + s[StripEnd(s)..]
    ensures forall k :: 0 <= k < StripStart(s) ==> IsSpace(s[k])
    ensures forall k :: StripEnd(s) <= k < |s| ==> IsSpace(s[k])
    ensures Strip(s) == [] || (!IsSpace(Strip(s)[0]) && !IsSpace(Strip(s)[|Strip(s)| - 1]))
  {
    SkipSpacesSkipsSpace(s, 0);
    TrimEndTrimsSpace(s, StripStart(s), |s|);
    assert s == s[..StripStart(s)] + s[StripStart(s)..StripEnd(s)] + s[StripEnd(s)..];
  }

  // ---------------------------------------------------------------------------
  // str.lower and str.replace

  /** str.lower on one character; only ASCII letters are mapped. */
  function LowerChar(c: char): char
  {
    if 'A' <= c <= 'Z' then (c as int + 32) as char else c
  }

  /** str.lower on strings of ASCII letters (all the strings the application lowers). */
  function Lower(s: string): (r: string)
    ensures |r| == |s|
  {
    if s == [] then [] else [LowerChar(s[0])] + Lower(s[1..])
  }

  /** Lower maps every character with LowerChar. */
  lemma {:induction false} LowerPointwise(s: string)
    ensures forall i :: 0 <= i < |s| ==> Lower(s)[i] == LowerChar(s[i])
  {
    if s != [] {
      LowerPointwise(s[1..]);
    }
  }

  /** s.replace(from, to) for one-character `from` and `to`. */
  function ReplaceChar(s: string, from: char, to: char): (r: string)
    ensures |r| == |s|
  {
    if s == [] then [] else [if s[0] == from then to else s[0]] + ReplaceChar(s[1..], from, to)
  }

  /** ReplaceChar puts `to` exactly where `from` was and keeps every other character. */
  lemma {:induction false} ReplaceCharPointwise(s: string, from: char, to: char)
    ensures forall i :: 0 <= i < |s| ==> ReplaceChar(s, from, to)[i] == if s[i] == from then to else s[i]
  {
    if s != [] {
      ReplaceCharPointwise(s[1..], from, to);
    }
  }

  // ---------------------------------------------------------------------------
  // f"{n}" for a non-negative integer, and its inverse

  predicate IsDigit(c: char)
  {
    '0' <= c <= '9'
  }

  function DigitChar(d: nat): (c: char)
    requires d < 10
    ensures IsDigit(c)
  {
    (d + '0' as int) as char
  }

  function DigitValue(c: char): (d: nat)
    requires IsDigit(c)
    ensures d < 10
  {
    c as int - '0' as int
  }

  /** The decimal rendering of n, as f"{n}" and str(n) give it. */
  function Decimal(n: nat): (r: string)
    ensures |r| > 0
  {
    if n < 10 then [DigitChar(n)] else Decimal(n / 10) + [DigitChar(n % 10)]
  }

  /** f"{n}" consists of decimal digits only. */
  lemma {:induction false} DecimalDigits(n: nat)
    ensures forall i :: 0 <= i < |Decimal(n)| ==> IsDigit(Decimal(n)[i])
  {
    if n >= 10 {
      DecimalDigits(n / 10);
    }
  }

  /** Reads back a string of decimal digits. */
  function ParseDecimal(s: string): nat
    requires forall i :: 0 <= i < |s| ==> IsDigit(s[i])
  {
    if s == [] then 0 else ParseDecimal(s[..|s| - 1]) * 10 + DigitValue(s[|s| - 1])
  }

  lemma {:induction false} DecimalRoundTrip(n: nat)
    ensures forall i :: 0 <= i < |Decimal(n)| ==> IsDigit(Decimal(n)[i])
    ensures ParseDecimal(Decimal(n)) == n
  {
    DecimalDigits(n);
    if n >= 10 {
      DecimalRoundTrip(n / 10);
      var r := Decimal(n);
      assert r[..|r| - 1] == Decimal(n / 10);
    }
  }

  /** Different numbers have different renderings. */
  lemma DecimalInjective(m: nat, n: nat)
    requires Decimal(m) == Decimal(n)
    ensures m == n
  {
    DecimalRoundTrip(m);
    DecimalRoundTrip(n);
  }

  // ---------------------------------------------------------------------------
  // slicing and str.join

  /** Python's s[a:b] for 0 <= a, b <= |s|: empty when b comes before a. */
  function Slice(s: string, a: nat, b: nat): string
    requires a <= |s| && b <= |s|
  {
    if b < a then [] else s[a..b]
  }

  /** Python's s[:n] for n >= 0. */
  function Prefix(s: string, n: nat): (r: string)
    ensures |r| == Min(n, |s|)
    ensures r <= s
  {
    s[..Min(n, |s|)]
  }

  /** Python's sep.join(parts). */
  function Join(parts: seq<string>, sep: string): string
  {
    if |parts| == 0 then ""
    else if |parts| == 1 then parts[0]
    else parts[0] + sep + Join(parts[1..], sep)
  }

  /** Joining one more part adds the separator and that part at the end. */
  lemma {:induction false} JoinAppend(parts: seq<string>, p: string, sep: string)
    requires parts != []
    ensures Join(parts + [p], sep) == Join(parts, sep) + sep + p
  {
    if |parts| > 1 {
      assert (parts + [p])[1..] == parts[1..] + [p];
      JoinAppend(parts[1..], p, sep);
    } else {
      assert (parts + [p])[1..] == [p];
    }
  }
}
