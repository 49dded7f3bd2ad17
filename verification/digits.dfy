/**
 * Decimal rendering of a non-negative integer clock reading and the
 * "last k characters" cut the order form uses to build identifiers
 * (`Date.now().toString().slice(-6)`).
 */
module Digits {

  function Pow10(k: nat): (r: nat)
    ensures r >= 1
  {
    if k == 0 then 1 else 10 * Pow10(k - 1)
  }

  function DigitChar(d: nat): (c: char)
    requires d < 10
    ensures '0' <= c <= '9'
  {
    ('0' as int + d) as char
  }

  predicate IsDigit(c: char) {
    '0' <= c <= '9'
  }

  function DigitValue(c: char): (d: nat)
    requires IsDigit(c)
    ensures d < 10
  {
    c as int - '0' as int
  }

  /** `n.toString()` for a non-negative integer: most significant digit first, no leading zeros. */
  function Decimal(n: nat): (r: string)
    ensures |r| >= 1
    ensures forall i :: 0 <= i < |r| ==> IsDigit(r[i])
  {
    if n < 10 then [DigitChar(n)] else Decimal(n / 10) + [DigitChar(n % 10)]
  }

  /** `s.slice(-k)` for `k > 0`: the last `k` characters, or all of `s` when it is shorter. */
  function SliceLast(s: string, k: nat): (r: string)
    ensures |r| == if |s| <= k then |s| else k
    ensures r == s[|s| - |r|..]
  {
    if |s| <= k then s else s[|s| - k..]
  }

  /** The value of a string of decimal digits. */
  function Value(s: string): nat
    requires forall i :: 0 <= i < |s| ==> IsDigit(s[i])
  {
    if |s| == 0 then 0 else Value(s[..|s| - 1]) * 10 + DigitValue(s[|s| - 1])
  }

  /** The last `k` decimal digits of `v`, zero-padded to exactly `k` characters. */
  function Padded(v: nat, k: nat): (r: string)
    ensures |r| == k
    ensures forall i :: 0 <= i < |r| ==> IsDigit(r[i])
  {
    if k == 0 then [] else Padded(v / 10, k - 1) + [DigitChar(v % 10)]
  }

  // ------------------------------------------------------------- arithmetic

  lemma MulAtLeast(d: int, x: int)
    requires d > 0 && x >= 1
    ensures d * x >= d
  {
  }

  lemma MulSub(d: int, a: int, b: int)
    ensures d * a - d * b == d * (a - b)
  {
  }

  lemma DivModUnique(n: int, d: int, q: int, r: int)
    requires d > 0 && 0 <= r < d && n == d * q + r
    ensures n / d == q && n % d == r
  {
    var q' := n / d;
    var r' := n % d;
    assert n == d * q' + r';
    if q' < q {
      MulSub(d, q, q');
      MulAtLeast(d, q - q');
    } else if q' > q {
      MulSub(d, q', q);
      MulAtLeast(d, q' - q);
    }
  }

  /** Dropping the last digit commutes with taking the remainder by a power of ten. */
  lemma ModSplit(v: nat, k: nat)
    requires k >= 1
    ensures v % Pow10(k) == 10 * ((v / 10) % Pow10(k - 1)) + v % 10
    ensures (v % Pow10(k)) % 10 == v % 10
    ensures (v % Pow10(k)) / 10 == (v / 10) % Pow10(k - 1)
  {
    var q := Pow10(k - 1);
    var a := v / 10;
    var b := v % 10;
    var c := a / q;
    var e := a % q;
    assert v == 10 * a + b;
    assert a == q * c + e;
    assert v == (10 * q) * c + (10 * e + b);
    DivModUnique(v, 10 * q, c, 10 * e + b);
    DivModUnique(10 * e + b, 10, e, b);
  }

  // ------------------------------------------------------------------ lemmas

  /** From two digits on, a rendering has at least `k` digits exactly when the value is at least `10^(k-1)`. */
  lemma {:induction false} DecimalLength(n: nat, k: nat)
    requires k >= 2
    ensures |Decimal(n)| >= k <==> n >= Pow10(k - 1)
  {
    if n >= 10 && k > 2 {
      DecimalLength(n / 10, k - 1);
      assert Pow10(k - 1) == 10 * Pow10(k - 2);
    }
  }

  /** A rendering reads back as the number it renders. */
  lemma {:induction false} DecimalValue(n: nat)
    ensures Value(Decimal(n)) == n
  {
    if n >= 10 {
      var s := Decimal(n);
      assert s[..|s| - 1] == Decimal(n / 10);
      DecimalValue(n / 10);
    }
  }

  /** The padded form depends only on the remainder by `10^k`. */
  lemma {:induction false} PaddedMod(v: nat, k: nat)
    ensures Padded(v, k) == Padded(v % Pow10(k), k)
  {
    if k > 0 {
      var w := v % Pow10(k);
      ModSplit(v, k);
      PaddedMod(v / 10, k - 1);
      assert Padded(w, k) == Padded(w / 10, k - 1) + [DigitChar(w % 10)];
      assert w / 10 == (v / 10) % Pow10(k - 1);
    }
  }

  /** Reading the padded form back gives the remainder by `10^k`. */
  lemma {:induction false} PaddedValue(v: nat, k: nat)
    ensures Value(Padded(v, k)) == v % Pow10(k)
  {
    if k > 0 {
      var p := Padded(v, k);
      assert p[..k - 1] == Padded(v / 10, k - 1);
      PaddedValue(v / 10, k - 1);
      ModSplit(v, k);
    }
  }

  /** Cutting the last `k` characters of a long enough rendering keeps the last `k` digits, zero-padded. */
  lemma {:induction false} SliceLastOfDecimal(n: nat, k: nat)
    requires |Decimal(n)| >= k
    ensures SliceLast(Decimal(n), k) == Padded(n, k)
  {
    var s := Decimal(n);
    if k == 0 {
    } else if n < 10 {
      assert k == 1;
      assert n / 10 == 0;
    } else {
      var t := Decimal(n / 10);
      assert s == t + [DigitChar(n % 10)];
      SliceLastOfDecimal(n / 10, k - 1);
      if |t| <= k - 1 {
        assert SliceLast(s, k) == s;
      } else {
        assert s[|s| - k..] == t[|t| - (k - 1)..] + [DigitChar(n % 10)];
      }
    }
  }

  /** For a long enough rendering, the last `k` characters read back as the value modulo `10^k`. */
  lemma LastDigitsValue(n: nat, k: nat)
    requires |Decimal(n)| >= k
    ensures Value(SliceLast(Decimal(n), k)) == n % Pow10(k)
  {
    SliceLastOfDecimal(n, k);
    PaddedValue(n, k);
  }

  /**
   * Two readings whose renderings have at least `k` digits give the same last
   * `k` characters exactly when they agree modulo `10^k`.
   */
  lemma LastDigitsAgree(n: nat, m: nat, k: nat)
    requires |Decimal(n)| >= k && |Decimal(m)| >= k
    ensures SliceLast(Decimal(n), k) == SliceLast(Decimal(m), k) <==> n % Pow10(k) == m % Pow10(k)
  {
    SliceLastOfDecimal(n, k);
    SliceLastOfDecimal(m, k);
    PaddedValue(n, k);
    PaddedValue(m, k);
    if n % Pow10(k) == m % Pow10(k) {
      PaddedMod(n, k);
      PaddedMod(m, k);
    }
  }
}
