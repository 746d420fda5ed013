/** Decimal numerals: printing, reading back, and padding to a fixed width. */
module Decimal {
  import opened JsText

  predicate IsDigit(u: Unit) { 48 <= u <= 57 }
  predicate AllDigits(s: Text) { forall i :: 0 <= i < |s| ==> IsDigit(s[i]) }

  function Digits(n: nat): (s: Text)
    ensures s != [] && AllDigits(s)
    decreases n
  {
    if n < 10 then [48 + n] else Digits(n / 10) + [48 + n % 10]
  }

  /** `String(n)` of an integer. */
  function Print(n: int): Text { if n < 0 then [45] + Digits(-n) else Digits(n) }

  function Value(s: Text): nat
    requires AllDigits(s)
  {
    if s == [] then 0 else 10 * Value(s[..|s| - 1]) + (s[|s| - 1] - 48)
  }

  lemma {:induction false} PrintThenRead(n: nat)
    ensures Value(Digits(n)) == n
    decreases n
  {
    if n >= 10 {
      PrintThenRead(n / 10);
      assert Digits(n)[..|Digits(n)| - 1] == Digits(n / 10);
    }
  }

  lemma {:induction false} NoLeadingZero(n: nat)
    requires n > 0
    ensures Digits(n)[0] != 48
    decreases n
  {
    if n >= 10 { NoLeadingZero(n / 10); }
  }

  /** `s` is the decimal numeral of `n`: a minus sign if it is negative, and no leading zero. */
  ghost predicate Numeral(s: Text, n: int)
    decreases |s|
  {
    if n < 0 then s != [] && s[0] == 45 && Numeral(s[1..], -n)
    else s != [] && AllDigits(s) && Value(s) == n && (s[0] == 48 ==> |s| == 1)
  }

  lemma PrintIsNumeral(n: int)
    ensures Numeral(Print(n), n)
  {
    var m := if n < 0 then -n else n;
    PrintThenRead(m);
    if m > 0 { NoLeadingZero(m); }
    if n < 0 { assert Print(n)[1..] == Digits(m); }
  }

  function Pow10(k: nat): nat { if k == 0 then 1 else 10 * Pow10(k - 1) }

  /** A number prints in at most `k` digits exactly when it is below 10^k. */
  lemma {:induction false} DigitCount(n: nat, k: nat)
    requires k > 0
    ensures |Digits(n)| <= k <==> n < Pow10(k)
    decreases k
  {
    if k == 1 {
      assert Pow10(1) == 10 * Pow10(0);
    } else if n >= 10 {
      DigitCount(n / 10, k - 1);
    } else {
      PowPositive(k - 1);
    }
  }

  lemma {:induction false} PowPositive(k: nat)
    ensures Pow10(k) >= 1
  {
    if k > 0 { PowPositive(k - 1); }
  }

  function Zeros(k: nat): (s: Text)
    ensures |s| == k && AllDigits(s)
  {
    seq(k, _ => 48)
  }

  /** `String(n).padStart(width, '0')`. */
  function Padded(n: nat, width: nat): (s: Text)
    ensures AllDigits(s)
  {
    if |Digits(n)| < width then Zeros(width - |Digits(n)|) + Digits(n) else Digits(n)
  }

  lemma {:induction false} LeadingZeros(k: nat, s: Text)
    requires AllDigits(s)
    ensures Value(Zeros(k) + s) == Value(s)
    decreases |s|, k
  {
    if s == [] {
      if k > 0 {
        assert (Zeros(k) + s)[..k - 1] == Zeros(k - 1) + s;
        LeadingZeros(k - 1, s);
      }
    } else {
      assert (Zeros(k) + s)[..k + |s| - 1] == Zeros(k) + s[..|s| - 1];
      LeadingZeros(k, s[..|s| - 1]);
    }
  }

  /** Padding keeps the value, and gives exactly the width when the number fits. */
  lemma PaddedReads(n: nat, width: nat)
    requires width > 0
    ensures Value(Padded(n, width)) == n
    ensures |Padded(n, width)| == width <==> n < Pow10(width)
  {
    hide Digits, Value, Pow10, AllDigits;
    PrintThenRead(n);
    DigitCount(n, width);
    if |Digits(n)| < width { LeadingZeros(width - |Digits(n)|, Digits(n)); }
  }

  lemma {:induction false} ValueFits(s: Text)
    requires AllDigits(s)
    ensures Value(s) < Pow10(|s|)
  {
    if s != [] { ValueFits(s[..|s| - 1]); }
  }

  /** Of the numerals of one length, each number has one. */
  lemma {:induction false} OneNumeral(a: Text, b: Text)
    requires AllDigits(a) && AllDigits(b) && |a| == |b| && Value(a) == Value(b)
    ensures a == b
  {
    if a != [] {
      var (x, y) := (a[..|a| - 1], b[..|b| - 1]);
      OneNumeral(x, y);
      assert a == x + [a[|a| - 1]] && b == y + [b[|b| - 1]];
    }
  }

  /** A digit string is its number padded to its length. */
  lemma PaddedBack(s: Text)
    requires AllDigits(s) && s != []
    ensures Padded(Value(s), |s|) == s
  {
    ValueFits(s);
    PaddedReads(Value(s), |s|);
    OneNumeral(Padded(Value(s), |s|), s);
  }
}
