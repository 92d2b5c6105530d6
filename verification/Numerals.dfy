/** Positional numerals: Python's decimal printing of naturals and the base-36 printer share them. */
module Numerals {
  const ALPHABET := "0123456789ABCDEFGHIJKLMNOPQRSTUVWXYZ"

  predicate Base(base: nat) {
    2 <= base <= 36
  }

  function Numeral(n: nat, base: nat): string
    requires Base(base)
  {
    if n < base then [ALPHABET[n]] else Numeral(n / base, base) + [ALPHABET[n % base]]
  }

  function DigitValue(c: char): nat {
    if '0' <= c <= '9' then (c - '0') as nat
    else if 'A' <= c <= 'Z' then (c - 'A') as nat + 10
    else 36
  }

  predicate IsNumeral(s: string, base: nat) {
    forall i :: 0 <= i < |s| ==> DigitValue(s[i]) < base
  }

  function Value(s: string, base: nat): nat {
    if s == "" then 0 else Value(s[..|s| - 1], base) * base + DigitValue(s[|s| - 1])
  }

  lemma AlphabetDigit(d: nat)
    requires d < 36
    ensures DigitValue(ALPHABET[d]) == d
  {
  }

  // ---------------------------------------------------------------- small arithmetic steps

  lemma DivMod(n: nat, b: nat)
    requires b >= 1
    ensures (n / b) * b + n % b == n
    ensures n >= b ==> n / b >= 1
  {
    assert n < b || (n / b) * b + n % b >= b;
  }

  lemma QuotientPositive(n: nat, b: nat)
    requires n >= b >= 1
    ensures n / b >= 1
  {
    DivMod(n, b);
  }

  lemma QuotientSmaller(n: nat, b: nat)
    requires n >= b >= 2
    ensures 1 <= n / b < n
  {
    var q := n / b;
    DivMod(n, b);
    assert q * b >= q * 2;
  }

  lemma Distribute(x: nat, p: nat, y: nat, b: nat, d: nat)
    ensures (x * p + y) * b + d == x * (p * b) + (y * b + d)
  {
    assert (x * p) * b == x * (p * b);
  }

  lemma DigitBound(v: nat, p: nat, b: nat, d: nat)
    requires v < p && d < b
    ensures v * b + d < p * b
  {
    assert (v + 1) * b <= p * b;
  }

  lemma UniqueDivMod(x: nat, y: nat, b: nat, d: nat, e: nat)
    requires d < b && e < b && x * b + d == y * b + e
    ensures x == y && d == e
  {
    if x < y { DigitBound(x, y, b, d); }
    if y < x { DigitBound(y, x, b, e); }
  }

  // ---------------------------------------------------------------- printing and reading

  lemma ValueAppend(s: string, c: char, base: nat)
    ensures Value(s + [c], base) == Value(s, base) * base + DigitValue(c)
  {
    assert (s + [c])[..|s|] == s;
  }

  lemma OneDigit(n: nat, base: nat)
    requires Base(base) && n < base
    ensures Value([ALPHABET[n]], base) == n
  {
    AlphabetDigit(n);
    ValueAppend("", ALPHABET[n], base);
    assert "" + [ALPHABET[n]] == [ALPHABET[n]];
  }

  lemma OneMoreDigit(s: string, q: nat, n: nat, base: nat)
    requires Base(base) && q == n / base && Value(s, base) == q
    ensures Value(s + [ALPHABET[n % base]], base) == n
  {
    var d := n % base;
    AlphabetDigit(d);
    ValueAppend(s, ALPHABET[d], base);
    DivMod(n, base);
  }

  /** Reading a printed number gives it back. */
  lemma {:induction false} NumeralRoundTrip(n: nat, base: nat)
    requires Base(base)
    ensures Value(Numeral(n, base), base) == n
  {
    if n < base {
      OneDigit(n, base);
    } else {
      var q := n / base;
      QuotientSmaller(n, base);
      NumeralRoundTrip(q, base);
      OneMoreDigit(Numeral(q, base), q, n, base);
    }
  }

  /** A number is printed with digits of the base and, but for "0" itself, without a leading zero. */
  lemma {:induction false} NumeralForm(n: nat, base: nat)
    requires Base(base)
    ensures var s := Numeral(n, base);
            s != "" && IsNumeral(s, base) && (s[0] == '0' ==> n == 0 && s == "0")
  {
    if n < base {
      AlphabetDigit(n);
    } else {
      NumeralForm(n / base, base);
      AlphabetDigit(n % base);
      QuotientPositive(n, base);
    }
  }

  lemma NumeralInjective(m: nat, n: nat, base: nat)
    requires Base(base) && Numeral(m, base) == Numeral(n, base)
    ensures m == n
  {
    NumeralRoundTrip(m, base);
    NumeralRoundTrip(n, base);
  }

  function Zeros(k: nat): string {
    if k == 0 then "" else Zeros(k - 1) + "0"
  }

  /** rjust(width, "0"). */
  function RightJustify(s: string, width: int): string {
    if |s| >= width then s else Zeros(width - |s|) + s
  }

  function Pow(base: nat, k: nat): nat {
    if k == 0 then 1 else Pow(base, k - 1) * base
  }

  lemma {:induction false} ZerosLength(k: nat, base: nat)
    requires base >= 1
    ensures |Zeros(k)| == k && Value(Zeros(k), base) == 0 && IsNumeral(Zeros(k), base)
  {
    if k > 0 {
      ZerosLength(k - 1, base);
      assert Zeros(k)[..k - 1] == Zeros(k - 1);
    }
  }

  lemma {:induction false} ValueConcat(a: string, b: string, base: nat)
    ensures Value(a + b, base) == Value(a, base) * Pow(base, |b|) + Value(b, base)
  {
    if b == "" {
      assert a + b == a;
    } else {
      var c := b[..|b| - 1];
      var last := b[|b| - 1];
      ValueConcat(a, c, base);
      assert a + b == (a + c) + [last];
      ValueAppend(a + c, last, base);
      Distribute(Value(a, base), Pow(base, |c|), Value(c, base), base, DigitValue(last));
    }
  }

  lemma {:induction false} ValueBound(s: string, base: nat)
    requires IsNumeral(s, base)
    ensures Value(s, base) < Pow(base, |s|)
  {
    if s != "" {
      ValueBound(s[..|s| - 1], base);
      DigitBound(Value(s[..|s| - 1], base), Pow(base, |s| - 1), base, DigitValue(s[|s| - 1]));
    }
  }

  lemma {:induction false} EqualDigits(c: char, d: char)
    requires DigitValue(c) == DigitValue(d) < 36
    ensures c == d
  {
  }

  /** Numerals of one length are determined by their value. */
  lemma {:induction false} ValueInjective(a: string, b: string, base: nat)
    requires Base(base) && |a| == |b| && IsNumeral(a, base) && IsNumeral(b, base)
    requires Value(a, base) == Value(b, base)
    ensures a == b
  {
    if a != "" {
      var n := |a| - 1;
      UniqueDivMod(Value(a[..n], base), Value(b[..n], base), base, DigitValue(a[n]), DigitValue(b[n]));
      EqualDigits(a[n], b[n]);
      ValueInjective(a[..n], b[..n], base);
      assert a == a[..n] + [a[n]] && b == b[..n] + [b[n]];
    }
  }

  lemma {:induction false} PowGrows(base: nat, j: nat, k: nat)
    requires base >= 1 && j <= k
    ensures 1 <= Pow(base, j) <= Pow(base, k)
  {
    if k > 0 {
      PowGrows(base, if j < k then j else k - 1, k - 1);
      assert Pow(base, k - 1) <= Pow(base, k - 1) * base;
    }
  }

  lemma RemainderIs(z: nat, q: nat, m: nat, r: nat)
    requires r < m && z == q * m + r
    ensures z % m == r
  {
    DivMod(z, m);
    UniqueDivMod(q, z / m, m, r, z % m);
  }

  lemma SmallRemainder(z: nat, m: nat)
    requires z < m
    ensures z % m == z
  {
  }

  lemma RemainderOfNext(z: nat, q: nat, m: nat, r: nat)
    requires r < m && z == q * m + r
    ensures (z + 1) % m == (r + 1) % m
  {
    if r + 1 < m {
      RemainderIs(z + 1, q, m, r + 1);
      SmallRemainder(r + 1, m);
    } else {
      assert (q + 1) * m == q * m + m;
      RemainderIs(z + 1, q + 1, m, 0);
      RemainderIs(m, 1, m, 0);
    }
  }

  lemma ZerosInFront(k: nat, s: string, base: nat)
    requires base >= 1 && IsNumeral(s, base)
    ensures IsNumeral(Zeros(k) + s, base) && Value(Zeros(k) + s, base) == Value(s, base)
  {
    ZerosLength(k, base);
    ValueConcat(Zeros(k), s, base);
    assert 0 * Pow(base, |s|) == 0;
  }

  /** A number printed and padded with zeros still reads as that number. */
  lemma JustifiedValue(n: nat, base: nat, width: int)
    requires Base(base)
    ensures Value(RightJustify(Numeral(n, base), width), base) == n
  {
    var s := Numeral(n, base);
    NumeralRoundTrip(n, base);
    NumeralForm(n, base);
    if |s| < width { ZerosInFront(width - |s|, s, base); }
  }
}
