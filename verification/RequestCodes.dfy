/** Request codes: a number printed in base 36, cut or padded to a fixed-width suffix. */
module RequestCodes {
  import opened Numerals

  method ToBase36(number: nat) returns (text: string)
    ensures text == Numeral(number, 36)
  {
    if number == 0 {
      return "0";
    }
    var value: nat := number;
    var chars: seq<char> := [];
    while value != 0
      invariant value == 0 ==> Reversed(chars) == Numeral(number, 36)
      invariant value > 0 ==> Numeral(value, 36) + Reversed(chars) == Numeral(number, 36)
      decreases value
    {
      chars := chars + [ALPHABET[value % 36]];
      value := value / 36;
    }
    text := Reversed(chars);
  }

  function Reversed(s: string): string {
    if s == "" then "" else [s[|s| - 1]] + Reversed(s[..|s| - 1])
  }

  /** Python's s[-n:], for n of any sign. */
  function LastPart(s: string, n: int): string {
    if n > 0 then (if |s| <= n then s else s[|s| - n..])
    else (if |s| <= -n then "" else s[-n..])
  }

  function Suffix(number: nat, length: int): string {
    RightJustify(LastPart(Numeral(number, 36), length), length)
  }

  function RequestCode(prefix: string, number: nat, length: int): string {
    prefix + "-" + Suffix(number, length)
  }

  /** A code for the usual suffix length is the prefix, a dash and six characters. */
  lemma CodeForm(prefix: string, number: nat)
    ensures var code := RequestCode(prefix, number, 6);
            && |code| == |prefix| + 7 && code[..|prefix|] == prefix && code[|prefix|] == '-'
            && IsNumeral(code[|prefix| + 1..], 36)
  {
    SuffixLengthIff(number, 6);
    SuffixValue(number, 6);
    assert RequestCode(prefix, number, 6)[|prefix| + 1..] == Suffix(number, 6);
  }

  /** The suffix has the requested length exactly when that length is at least 1. */
  lemma SuffixLengthIff(number: nat, length: int)
    ensures |Suffix(number, length)| == length <==> length >= 1
  {
    NumeralForm(number, 36);
    var part := LastPart(Numeral(number, 36), length);
    if |part| < length { ZerosLength(length - |part|, 36); }
  }

  /** Asked for no characters, or fewer, the suffix is the number without its first ones. */
  lemma SuffixOfNoLength(number: nat, length: int)
    requires length <= 0
    ensures var text, suffix := Numeral(number, 36), Suffix(number, length);
            && |suffix| == (if |text| + length > 0 then |text| + length else 0)
            && suffix == text[|text| - |suffix|..]
  {
  }

  /** A suffix of length L >= 1 is a base-36 numeral that reads as the number modulo 36^L. */
  lemma {:induction false} SuffixValue(number: nat, length: nat)
    requires length >= 1
    ensures IsNumeral(Suffix(number, length), 36)
    ensures Pow(36, length) > 0 && Value(Suffix(number, length), 36) == number % Pow(36, length)
  {
    var s := Numeral(number, 36);
    NumeralRoundTrip(number, 36);
    NumeralForm(number, 36);
    PowGrows(36, 0, length);
    if |s| > length { CutValue(s, length, 36); } else { PaddedValue(s, length, 36); }
  }

  lemma CutValue(s: string, length: nat, base: nat)
    requires Base(base) && 1 <= length < |s| && IsNumeral(s, base) && Pow(base, length) > 0
    ensures IsNumeral(s[|s| - length..], base)
    ensures Value(s[|s| - length..], base) == Value(s, base) % Pow(base, length)
  {
    var a, b := s[..|s| - length], s[|s| - length..];
    assert s == a + b;
    ValueConcat(a, b, base);
    ValueBound(b, base);
    RemainderIs(Value(s, base), Value(a, base), Pow(base, length), Value(b, base));
  }

  lemma PaddedReads(s: string, length: nat, base: nat)
    requires Base(base) && |s| <= length && IsNumeral(s, base)
    ensures IsNumeral(RightJustify(s, length), base) && Value(RightJustify(s, length), base) == Value(s, base)
  {
    if |s| < length {
      var zeros := length - |s|;
      assert RightJustify(s, length) == Zeros(zeros) + s;
      ZerosInFront(zeros, s, base);
    }
  }

  lemma PaddedValue(s: string, length: nat, base: nat)
    requires Base(base) && |s| <= length && IsNumeral(s, base) && Pow(base, length) > 0
    ensures IsNumeral(RightJustify(s, length), base)
    ensures Value(RightJustify(s, length), base) == Value(s, base) % Pow(base, length)
  {
    var v, p := Value(s, base), Pow(base, length);
    PaddedReads(s, length, base);
    ValueBound(s, base);
    PowGrows(base, |s|, length);
    SmallRemainder(v, p);
  }

  /** Two numbers get the same code under one prefix exactly when they agree modulo 36^L. */
  lemma CodesCollideIff(prefix: string, m: nat, n: nat, length: nat)
    requires length >= 1
    ensures Pow(36, length) > 0
    ensures RequestCode(prefix, m, length) == RequestCode(prefix, n, length)
       <==> m % Pow(36, length) == n % Pow(36, length)
  {
    SuffixValue(m, length);
    SuffixValue(n, length);
    SuffixLengthIff(m, length);
    SuffixLengthIff(n, length);
    var a, b := RequestCode(prefix, m, length), RequestCode(prefix, n, length);
    assert a[|prefix| + 1..] == Suffix(m, length) && b[|prefix| + 1..] == Suffix(n, length);
    if Value(Suffix(m, length), 36) == Value(Suffix(n, length), 36) {
      ValueInjective(Suffix(m, length), Suffix(n, length), 36);
    }
  }
}
