/**
 * The few string operations of Rust's standard library that the indexers rely on:
 * `str::ends_with`, `str::split_once` and the decimal rendering and parsing of `u64`.
 */
module Text {
  import opened Wrappers

  /** Largest value of Rust's `u64` (`BlockHeight`). */
  const MaxU64: nat := 0xFFFF_FFFF_FFFF_FFFF

  /** `s.ends_with(suffix)` */
  predicate EndsWith(s: string, suffix: string) {
    |suffix| <= |s| && s[|s| - |suffix|..] == suffix
  }

  /**
   * `s.split_once(c)`: the text before and after the FIRST occurrence of `c`,
   * or `None` when `c` does not occur.
   */
  function SplitOnce(s: string, c: char): (r: Option<(string, string)>)
    ensures r.None? <==> c !in s
    ensures r.Some? ==> s == r.value.0 + [c] + r.value.1 && c !in r.value.0
    decreases |s|
  {
    if |s| == 0 then None
    else if s[0] == c then Some(([], s[1..]))
    else match SplitOnce(s[1..], c)
      case None => None
      case Some((before, after)) => Some(([s[0]] + before, after))
  }

  /** Splitting a joined string at the separator gives back its two halves when the first has no separator. */
  lemma {:induction false} SplitOnceJoin(before: string, c: char, after: string)
    requires c !in before
    ensures SplitOnce(before + [c] + after, c) == Some((before, after))
    decreases |before|
  {
    var s := before + [c] + after;
    if |before| == 0 {
      assert s == [c] + after;
    } else {
      assert s[0] == before[0];
      assert s[1..] == before[1..] + [c] + after;
      SplitOnceJoin(before[1..], c, after);
      assert [s[0]] + before[1..] == before;
    }
  }

  predicate IsDigit(ch: char) {
    '0' <= ch <= '9'
  }

  predicate AllDigits(s: string) {
    forall i :: 0 <= i < |s| ==> IsDigit(s[i])
  }

  function DigitValue(ch: char): (d: nat)
    requires IsDigit(ch)
    ensures d < 10
  {
    ch as int - '0' as int
  }

  function DigitChar(d: nat): (ch: char)
    requires d < 10
    ensures IsDigit(ch) && DigitValue(ch) == d
  {
    ('0' as int + d) as char
  }

  /** The number that a string of decimal digits denotes (leading zeros allowed). */
  function DigitsValue(s: string): nat
    requires AllDigits(s)
    decreases |s|
  {
    if |s| == 0 then 0 else DigitsValue(s[..|s| - 1]) * 10 + DigitValue(s[|s| - 1])
  }

  /** `format!("{}", n)`: the canonical decimal rendering, without sign or leading zeros. */
  function NatToString(n: nat): (s: string)
    ensures |s| > 0 && AllDigits(s)
    ensures DigitsValue(s) == n
    ensures |s| > 1 ==> s[0] != '0'
    decreases n
  {
    if n < 10 then [DigitChar(n)]
    else
      var prefix := NatToString(n / 10);
      var s := prefix + [DigitChar(n % 10)];
      assert s[..|s| - 1] == prefix;
      s
  }

  /** The text of a number without its optional leading `+`. */
  function Unsigned(s: string): string {
    if |s| > 0 && s[0] == '+' then s[1..] else s
  }

  /**
   * `s.parse::<u64>()`: an optional leading `+`, then at least one decimal digit and nothing
   * else; values above `u64::MAX` are rejected.
   */
  function ParseU64(s: string): (r: Option<nat>)
    ensures r.Some? ==> r.value <= MaxU64
    ensures r.Some? ==> |s| > 0 && (IsDigit(s[0]) || s[0] == '+')
  {
    var digits := Unsigned(s);
    if |digits| > 0 && AllDigits(digits) && DigitsValue(digits) <= MaxU64
    then Some(DigitsValue(digits))
    else None
  }

  /** Parsing a rendered `u64` gives the number back. */
  lemma ParseRendered(n: nat)
    requires n <= MaxU64
    ensures ParseU64(NatToString(n)) == Some(n)
  {
    var s := NatToString(n);
    assert IsDigit(s[0]);
  }

  /** A rendered number never contains a character that is not a digit, such as a separator. */
  lemma RenderedHasNo(n: nat, c: char)
    requires !IsDigit(c)
    ensures c !in NatToString(n)
  {
  }

  /** `k` zero digits. */
  function Zeros(k: nat): (z: string)
    ensures |z| == k && AllDigits(z)
  {
    seq(k, _ => '0')
  }

  /** Leading zeros add nothing to a number's value. */
  lemma {:induction false} ZerosValue(k: nat, d: string)
    requires AllDigits(d)
    ensures AllDigits(Zeros(k) + d) && DigitsValue(Zeros(k) + d) == DigitsValue(d)
    decreases |d|
  {
    var z := Zeros(k) + d;
    if |d| == 0 {
      assert z == Zeros(k);
      ZerosOnlyValue(k);
    } else {
      ZerosValue(k, d[..|d| - 1]);
      assert z[..|z| - 1] == Zeros(k) + d[..|d| - 1];
    }
  }

  lemma {:induction false} ZerosOnlyValue(k: nat)
    ensures DigitsValue(Zeros(k)) == 0
    decreases k
  {
    if k > 0 {
      ZerosOnlyValue(k - 1);
      assert Zeros(k)[..k - 1] == Zeros(k - 1);
    }
  }

  /** A digit string that starts with a digit other than 0 denotes a positive number. */
  lemma {:induction false} LeadingDigitPositive(d: string)
    requires |d| > 0 && AllDigits(d) && d[0] != '0'
    ensures DigitsValue(d) > 0
    decreases |d|
  {
    if |d| > 1 {
      LeadingDigitPositive(d[..|d| - 1]);
    }
  }

  /** A digit string without leading zeros is the rendering of its own value. */
  lemma {:induction false} CanonicalRendered(d: string)
    requires |d| > 0 && AllDigits(d) && (|d| > 1 ==> d[0] != '0')
    ensures NatToString(DigitsValue(d)) == d
    decreases |d|
  {
    var init, last := d[..|d| - 1], d[|d| - 1];
    var v := DigitsValue(d);
    if |d| == 1 {
      assert init == [] && DigitsValue(init) == 0;
      assert v == DigitsValue(init) * 10 + DigitValue(last);
      assert [DigitChar(v)] == d;
    } else {
      LeadingDigitPositive(init);
      CanonicalRendered(init);
      assert v / 10 == DigitsValue(init) && v % 10 == DigitValue(last);
      assert d == init + [last];
    }
  }

  /** Every digit string is some number of zeros followed by the rendering of its value. */
  lemma {:induction false} PaddedRendering(d: string)
    requires |d| > 0 && AllDigits(d)
    ensures exists k: nat :: d == Zeros(k) + NatToString(DigitsValue(d))
    decreases |d|
  {
    if |d| == 1 || d[0] != '0' {
      CanonicalRendered(d);
      assert d == Zeros(0) + NatToString(DigitsValue(d));
    } else {
      var rest := d[1..];
      PaddedRendering(rest);
      var k: nat :| rest == Zeros(k) + NatToString(DigitsValue(rest));
      OneMoreZero(d, k, NatToString(DigitsValue(rest)));
      LeadingZeroValue(d);
    }
  }

  lemma OneMoreZero(d: string, k: nat, r: string)
    requires |d| > 0 && d[0] == '0' && d[1..] == Zeros(k) + r
    ensures d == Zeros(k + 1) + r
  {
    assert Zeros(k + 1) == ['0'] + Zeros(k);
    assert d == ['0'] + d[1..];
  }

  lemma LeadingZeroValue(d: string)
    requires |d| > 0 && d[0] == '0' && AllDigits(d)
    ensures DigitsValue(d) == DigitsValue(d[1..])
  {
    assert d == Zeros(1) + d[1..];
    ZerosValue(1, d[1..]);
  }

  /** Whatever `ParseU64` accepts is an optional `+`, zeros, and the rendering of the value it returns. */
  lemma ParseU64Accepted(s: string, n: nat)
    requires ParseU64(s) == Some(n)
    ensures n <= MaxU64
    ensures exists k: nat :: Unsigned(s) == Zeros(k) + NatToString(n)
  {
    PaddedRendering(Unsigned(s));
  }

  /** `ParseU64` accepts every `u64` written with an optional `+` and any number of leading zeros. */
  lemma ParseU64Padded(plus: bool, k: nat, n: nat)
    requires n <= MaxU64
    ensures ParseU64((if plus then "+" else "") + Zeros(k) + NatToString(n)) == Some(n)
  {
    var sign := if plus then "+" else "";
    var d := Zeros(k) + NatToString(n);
    var s := sign + Zeros(k) + NatToString(n);
    ZerosValue(k, NatToString(n));
    assert s == sign + d;
    assert |d| > 0 && IsDigit(d[0]);
    if plus {
      assert s[1..] == d;
    } else {
      assert s == d;
    }
    assert Unsigned(s) == d;
  }
}
