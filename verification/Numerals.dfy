/** Positional numerals, most significant digit first: the arithmetic that the base58 codecs
    share. */
module Numerals {

  predicate InBase(base: int, ds: seq<int>) {
    forall i :: 0 <= i < |ds| ==> 0 <= ds[i] < base
  }

  function Value(base: int, ds: seq<int>): int {
    if ds == [] then 0 else Value(base, ds[..|ds| - 1]) * base + ds[|ds| - 1]
  }

  /** The numeral of `n` without leading zeros; zero has no digits. */
  function Digits(base: int, n: int): (ds: seq<int>)
    requires base >= 2 && n >= 0
    ensures InBase(base, ds)
    ensures ds == [] <==> n == 0
    ensures ds != [] ==> ds[0] != 0
    decreases n
  {
    if n == 0 then []
    else
      Shrinks(base, n);
      Digits(base, n / base) + [n % base]
  }

  /** The numeral of `n` on exactly `k` places. */
  function Fixed(base: int, k: nat, n: int): (ds: seq<int>)
    requires base >= 2 && n >= 0
    ensures |ds| == k && InBase(base, ds)
  {
    if k == 0 then []
    else
      Shrinks(base, n);
      Fixed(base, k - 1, n / base) + [n % base]
  }

  function Zeros(k: nat): (ds: seq<int>)
    ensures |ds| == k && forall i :: 0 <= i < k ==> ds[i] == 0
  {
    seq(k, _ => 0)
  }

  function LeadingZeros(ds: seq<int>): (k: nat)
    ensures k <= |ds| && (k < |ds| ==> ds[k] != 0)
    ensures forall i :: 0 <= i < k ==> ds[i] == 0
  {
    if ds == [] || ds[0] != 0 then 0 else 1 + LeadingZeros(ds[1..])
  }

  function Pow(base: int, k: nat): int {
    if k == 0 then 1 else Pow(base, k - 1) * base
  }

  // ---------------------------------------------------------------------
  // Division
  // ---------------------------------------------------------------------

  lemma Shrinks(base: int, n: int)
    requires base >= 2 && n >= 0
    ensures 0 <= n / base <= n && (n > 0 ==> n / base < n)
  {
  }

  lemma DivMod(base: int, q: int, r: int)
    requires base >= 2 && 0 <= r < base
    ensures (q * base + r) / base == q && (q * base + r) % base == r
  {
    var n := q * base + r;
    var q', r' := n / base, n % base;
    assert (q - q') * base == r' - r;
    if q > q' {
      assert (q - q') * base >= base by { MulMono(1, q - q', base); }
      assert false;
    }
    if q < q' {
      assert (q' - q) * base >= base by { MulMono(1, q' - q, base); }
      assert false;
    }
  }

  lemma Recompose(base: int, n: int)
    requires base >= 2
    ensures n == (n / base) * base + n % base && 0 <= n % base < base
  {
  }

  lemma QuotientBelow(base: int, n: int, p: int)
    requires base >= 2
    ensures n < p * base <==> n / base < p
  {
    Recompose(base, n);
    var q := n / base;
    if q < p { MulMono(q + 1, p, base); } else { MulMono(p, q, base); }
  }

  lemma MulMono(x: int, y: int, b: int)
    requires x <= y && b >= 0
    ensures x * b <= y * b
  {
  }

  // ---------------------------------------------------------------------
  // Value and digits
  // ---------------------------------------------------------------------

  lemma {:induction false} ValueNat(base: int, ds: seq<int>)
    requires base >= 2 && InBase(base, ds)
    ensures Value(base, ds) >= 0
  {
    if ds != [] {
      ValueNat(base, ds[..|ds| - 1]);
      MulMono(0, Value(base, ds[..|ds| - 1]), base);
    }
  }

  lemma ValueSnoc(base: int, ds: seq<int>, d: int)
    ensures Value(base, ds + [d]) == Value(base, ds) * base + d
  {
    assert (ds + [d])[..|ds|] == ds;
  }

  lemma {:induction false} ValueOfDigits(base: int, n: int)
    requires base >= 2 && n >= 0
    ensures Value(base, Digits(base, n)) == n
    decreases n
  {
    if n > 0 {
      Shrinks(base, n);
      ValueOfDigits(base, n / base);
      ValueSnoc(base, Digits(base, n / base), n % base);
      Recompose(base, n);
    }
  }

  lemma {:induction false} DigitsOfValue(base: int, ds: seq<int>)
    requires base >= 2 && InBase(base, ds) && (ds != [] ==> ds[0] != 0)
    ensures Value(base, ds) >= 0 && Digits(base, Value(base, ds)) == ds
    decreases |ds|
  {
    ValueNat(base, ds);
    if ds != [] {
      var front, last := ds[..|ds| - 1], ds[|ds| - 1];
      DigitsOfValue(base, front);
      DivMod(base, Value(base, front), last);
      assert ds == front + [last];
      if front != [] {
        assert Value(base, front) > 0;
        MulMono(1, Value(base, front), base);
      }
    }
  }

  lemma {:induction false} FixedOfValue(base: int, ds: seq<int>)
    requires base >= 2 && InBase(base, ds)
    ensures Value(base, ds) >= 0 && Fixed(base, |ds|, Value(base, ds)) == ds
    decreases |ds|
  {
    ValueNat(base, ds);
    if ds != [] {
      var front, last := ds[..|ds| - 1], ds[|ds| - 1];
      FixedOfValue(base, front);
      DivMod(base, Value(base, front), last);
      assert ds == front + [last];
    }
  }

  lemma {:induction false} ValueConcat(base: int, xs: seq<int>, ys: seq<int>)
    ensures Value(base, xs + ys) == Value(base, xs) * Pow(base, |ys|) + Value(base, ys)
    decreases |ys|
  {
    if ys == [] {
      assert xs + ys == xs;
    } else {
      var front, last := ys[..|ys| - 1], ys[|ys| - 1];
      assert (xs + ys)[..|xs + ys| - 1] == xs + front;
      ValueConcat(base, xs, front);
      Spread(Value(base, xs), Pow(base, |front|), Value(base, front), base);
    }
  }

  lemma Spread(x: int, p: int, f: int, b: int)
    ensures (x * p + f) * b == x * (p * b) + f * b
  {
  }

  lemma {:induction false} ValueOfZeros(base: int, k: nat)
    ensures Value(base, Zeros(k)) == 0
  {
    if k > 0 {
      assert Zeros(k)[..k - 1] == Zeros(k - 1);
      ValueOfZeros(base, k - 1);
    }
  }

  lemma ValueSkipsZeros(base: int, k: nat, ds: seq<int>)
    ensures Value(base, Zeros(k) + ds) == Value(base, ds)
  {
    ValueConcat(base, Zeros(k), ds);
    ValueOfZeros(base, k);
  }

  // ---------------------------------------------------------------------
  // Length
  // ---------------------------------------------------------------------

  lemma {:induction false} PowPositive(base: int, k: nat)
    requires base >= 2
    ensures Pow(base, k) >= 1
  {
    if k > 0 { PowPositive(base, k - 1); }
  }

  lemma RoomForOne(base: int, v: int, p: int, d: int)
    requires base >= 2 && v < p && d < base
    ensures v * base + d < p * base
  {
    MulMono(v + 1, p, base);
  }

  lemma {:induction false} ValueBound(base: int, ds: seq<int>)
    requires base >= 2 && InBase(base, ds)
    ensures Value(base, ds) < Pow(base, |ds|)
  {
    if ds != [] {
      var front := ds[..|ds| - 1];
      ValueBound(base, front);
      RoomForOne(base, Value(base, front), Pow(base, |front|), ds[|ds| - 1]);
    }
  }

  /** A number fits on k places exactly when it is below base^k. */
  lemma {:induction false} DigitsFit(base: int, n: int, k: nat)
    requires base >= 2 && n >= 0
    ensures |Digits(base, n)| <= k <==> n < Pow(base, k)
    decreases n
  {
    if n == 0 {
      PowPositive(base, k);
    } else if k > 0 {
      Shrinks(base, n);
      DigitsFit(base, n / base, k - 1);
      QuotientBelow(base, n, Pow(base, k - 1));
    }
  }

  /** Padding the numeral to k places gives the k-place numeral. */
  lemma {:induction false} Padded(base: int, n: int, k: nat)
    requires base >= 2 && n >= 0 && |Digits(base, n)| <= k
    ensures Zeros(k - |Digits(base, n)|) + Digits(base, n) == Fixed(base, k, n)
    decreases k
  {
    if k > 0 {
      Shrinks(base, n);
      if n == 0 {
        Padded(base, 0, k - 1);
        assert 0 / base == 0 && 0 % base == 0;
        assert Zeros(k) + [] == (Zeros(k - 1) + []) + [0];
      } else {
        var ds := Digits(base, n / base);
        Padded(base, n / base, k - 1);
        assert Zeros(k - 1 - |ds|) + (ds + [n % base]) == (Zeros(k - 1 - |ds|) + ds) + [n % base];
      }
    }
  }

  // ---------------------------------------------------------------------
  // Zero-preserving conversion
  // ---------------------------------------------------------------------

  /** Change of base that keeps one zero digit per leading zero digit. */
  function Convert(from: int, to: int, ds: seq<int>): (r: seq<int>)
    requires from >= 2 && to >= 2 && InBase(from, ds)
    ensures InBase(to, r)
  {
    var z := LeadingZeros(ds);
    ValueNat(from, ds[z..]);
    Zeros(z) + Digits(to, Value(from, ds[z..]))
  }

  lemma {:induction false} LeadingZerosOf(z: nat, ds: seq<int>)
    requires ds != [] ==> ds[0] != 0
    ensures LeadingZeros(Zeros(z) + ds) == z
  {
    if z > 0 {
      assert (Zeros(z) + ds)[1..] == Zeros(z - 1) + ds;
      LeadingZerosOf(z - 1, ds);
    } else {
      assert Zeros(0) + ds == ds;
    }
  }

  /** Converting there and back is the identity on every digit string, of any length. */
  lemma ConvertBack(from: int, to: int, ds: seq<int>)
    requires from >= 2 && to >= 2 && InBase(from, ds)
    ensures Convert(to, from, Convert(from, to, ds)) == ds
  {
    var z := LeadingZeros(ds);
    var rest := ds[z..];
    DigitsOfValue(from, rest);
    var n := Value(from, rest);
    var out := Digits(to, n);
    LeadingZerosOf(z, out);
    ValueOfDigits(to, n);
    assert (Zeros(z) + out)[z..] == out;
    assert ds == Zeros(z) + rest;
  }
}
