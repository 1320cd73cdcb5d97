/**
 * The string operations the core uses: `str.lower()`, `'%d'` and `'%02d'`
 * formatting, and `str.split(sep)` with its first two fields.
 */
module Text {
  import opened Values

  function LowerChar(c: char): char {
    if 'A' <= c <= 'Z' then (c as int + 32) as char else c
  }

  function UpperChar(c: char): char {
    if 'a' <= c <= 'z' then (c as int - 32) as char else c
  }

  /** `s.lower()`, folding the ASCII letters. */
  function Lower(s: string): (r: string)
    ensures |r| == |s|
    ensures forall i :: 0 <= i < |s| ==> r[i] == LowerChar(s[i])
  {
    if s == [] then [] else [LowerChar(s[0])] + Lower(s[1..])
  }

  /** `s.upper()`, folding the ASCII letters. */
  function Upper(s: string): (r: string)
    ensures |r| == |s|
    ensures forall i :: 0 <= i < |s| ==> r[i] == UpperChar(s[i])
  {
    if s == [] then [] else [UpperChar(s[0])] + Upper(s[1..])
  }

  /** Lowering forgets the letter case: a string and its upper-case form lower alike. */
  lemma LowerIgnoresCase(s: string)
    ensures Lower(Upper(s)) == Lower(s)
    ensures Lower(Lower(s)) == Lower(s)
  {
    assert forall i :: 0 <= i < |s| ==> Lower(Upper(s))[i] == Lower(s)[i];
    assert forall i :: 0 <= i < |s| ==> Lower(Lower(s))[i] == Lower(s)[i];
  }

  predicate IsDigit(c: char) {
    '0' <= c <= '9'
  }

  predicate AllDigits(s: string) {
    forall i :: 0 <= i < |s| ==> IsDigit(s[i])
  }

  function Digit(d: nat): char
    requires d < 10
  {
    ('0' as int + d) as char
  }

  /** `'%d' % n` for a non-negative `n`: its decimal digits, most significant first. */
  function DecimalString(n: nat): (s: string)
    ensures |s| >= 1 && AllDigits(s)
    ensures ':' !in s
    decreases n
  {
    if n < 10 then [Digit(n)] else DecimalString(n / 10) + [Digit(n % 10)]
  }

  /** The number a string of decimal digits denotes (leading zeros allowed). */
  function DigitsValue(s: string): nat
    requires AllDigits(s)
  {
    if s == [] then 0 else 10 * DigitsValue(s[..|s| - 1]) + (s[|s| - 1] as int - '0' as int)
  }

  /** `int(s)` restricted to non-empty digit strings; None where Python would raise. */
  function ParseDecimal(s: string): Option<nat> {
    if s != [] && AllDigits(s) then Some(DigitsValue(s)) else None
  }

  lemma {:induction false} DigitsValueOfDecimal(n: nat)
    ensures DigitsValue(DecimalString(n)) == n
    decreases n
  {
    var s := DecimalString(n);
    if n >= 10 {
      DigitsValueOfDecimal(n / 10);
      assert s[..|s| - 1] == DecimalString(n / 10);
    }
  }

  /** Reading back what `'%d'` wrote gives the number again. */
  lemma DecimalRoundTrip(n: nat)
    ensures ParseDecimal(DecimalString(n)) == Some(n)
  {
    DigitsValueOfDecimal(n);
  }

  function Pow10(w: nat): (p: nat)
    ensures p >= 1
  {
    if w == 0 then 1 else 10 * Pow10(w - 1)
  }

  /** A number below 10^w has at most w digits, and one of at least 10^(w-1) at least w. */
  lemma {:induction false} DecimalLength(n: nat, w: nat)
    requires w >= 1
    ensures n < Pow10(w) ==> |DecimalString(n)| <= w
    ensures Pow10(w - 1) <= n ==> |DecimalString(n)| >= w
    decreases w
  {
    if w > 1 {
      if n >= 10 {
        assert n / 10 < Pow10(w - 1) <== n < Pow10(w);
        assert Pow10(w - 2) <= n / 10 <== Pow10(w - 1) <= n;
        DecimalLength(n / 10, w - 1);
      } else {
        assert Pow10(w - 1) >= 10 by { assert Pow10(w - 1) == 10 * Pow10(w - 2); }
      }
    }
  }

  function Zeros(k: nat): (z: string)
    ensures |z| == k && AllDigits(z) && ':' !in z
  {
    seq(k, _ => '0')
  }

  /** `'%0*d' % (w, n)`: the decimal digits of n, left-padded with zeros to width w. */
  function Pad(n: nat, w: nat): (s: string)
    ensures AllDigits(s) && ':' !in s
  {
    var d := DecimalString(n);
    (if |d| < w then Zeros(w - |d|) else []) + d
  }

  lemma PadLength(n: nat, w: nat)
    requires w >= 1 && n < Pow10(w)
    ensures |Pad(n, w)| == w
  {
    DecimalLength(n, w);
  }

  /**
   * Cut `s` at the first occurrence of `c`: the text before it and the text
   * after it, or None when `c` does not occur.
   */
  function SplitFirst(s: string, c: char): (r: Option<(string, string)>)
    ensures r.None? <==> c !in s
    ensures r.Some? ==> c !in r.value.0 && s == r.value.0 + [c] + r.value.1
  {
    if s == [] then None
    else if s[0] == c then Some(([], s[1..]))
    else match SplitFirst(s[1..], c)
      case None => None
      case Some((a, b)) => Some(([s[0]] + a, b))
  }

  /** Splitting finds exactly the separator that was put after a separator-free prefix. */
  lemma {:induction false} SplitFirstAt(a: string, c: char, b: string)
    requires c !in a
    ensures SplitFirst(a + [c] + b, c) == Some((a, b))
  {
    if a != [] {
      SplitFirstAt(a[1..], c, b);
      var s := a + [c] + b;
      assert s[0] == a[0] != c;
      assert s[1..] == a[1..] + [c] + b;
      assert [a[0]] + a[1..] == a;
    }
  }

  /** `s.split(c)[0]`. */
  function FirstField(s: string, c: char): (f: string)
    ensures c !in f
    ensures c !in s ==> f == s
    ensures c in s ==> |f| < |s| && s[..|f|] == f && s[|f|] == c
  {
    match SplitFirst(s, c)
    case None => s
    case Some((a, _)) => a
  }

  /** `s.split(c)[1]`, or None where Python raises IndexError (no `c` in `s`). */
  function SecondField(s: string, c: char): (f: Option<string>)
    ensures f.None? <==> c !in s
  {
    match SplitFirst(s, c)
    case None => None
    case Some((_, rest)) => Some(FirstField(rest, c))
  }
}
