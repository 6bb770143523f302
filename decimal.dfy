/** Decimal text of natural numbers: the digit strings the parsers read (through std::stoi and
    std::stoul) and the text the engine writes for a number (through operator<<), with the
    two-character zero padding of std::setw(2) << std::setfill('0'). */
module Decimal {

  predicate IsDigit(c: char) {
    '0' <= c <= '9'
  }

  predicate AllDigits(s: string) {
    forall i | 0 <= i < |s| :: IsDigit(s[i])
  }

  function DigitValue(c: char): nat
    requires IsDigit(c)
  {
    c as int - '0' as int
  }

  function DigitChar(d: nat): (c: char)
    requires d < 10
    ensures IsDigit(c) && DigitValue(c) == d
  {
    ('0' as int + d) as char
  }

  /** The value of a digit string, most significant digit first; leading zeros are allowed. */
  function Value(s: string): nat
    requires AllDigits(s)
    decreases |s|
  {
    if s == [] then 0 else Value(s[..|s| - 1]) * 10 + DigitValue(s[|s| - 1])
  }

  /** The decimal rendering of n: at least one digit and no leading zero. */
  function NatText(n: nat): (s: string)
    ensures |s| >= 1 && AllDigits(s)
    ensures s[0] == '0' ==> n == 0
    ensures |s| == 1 <==> n < 10
  {
    if n < 10 then [DigitChar(n)] else NatText(n / 10) + [DigitChar(n % 10)]
  }

  /** A string padded on the left with '0' to at least two characters. */
  function Pad2(s: string): (p: string)
  {
    if |s| >= 2 then s else seq(2 - |s|, _ => '0') + s
  }

  /** Reading back the rendering of n gives n. */
  lemma {:induction false} ValueOfNatText(n: nat)
    ensures Value(NatText(n)) == n
  {
    if n >= 10 {
      var s := NatText(n);
      ValueOfNatText(n / 10);
      assert s[..|s| - 1] == NatText(n / 10);
    }
  }

  /** A digit string whose first digit is not '0' has a positive value. */
  lemma {:induction false} PositiveValue(s: string)
    requires |s| >= 1 && AllDigits(s) && s[0] != '0'
    ensures Value(s) >= 1
  {
    if |s| > 1 {
      PositiveValue(s[..|s| - 1]);
    }
  }

  /** A digit string without a leading zero is the rendering of its own value. */
  lemma {:induction false} NatTextOfValue(s: string)
    requires |s| >= 1 && AllDigits(s) && s[0] != '0'
    ensures NatText(Value(s)) == s
  {
    var n := |s|;
    var last := DigitValue(s[n - 1]);
    if n == 1 {
      assert Value(s) == last;
    } else {
      var front := s[..n - 1];
      PositiveValue(front);
      NatTextOfValue(front);
      var v := Value(s);
      assert v == Value(front) * 10 + last;
      assert v / 10 == Value(front) && v % 10 == last;
      assert NatText(v) == NatText(v / 10) + [DigitChar(v % 10)];
      assert s == front + [s[n - 1]];
    }
  }

  /** A number below 100 is written with exactly two digits once padded. */
  lemma TwoDigitText(n: nat)
    requires n < 100
    ensures Pad2(NatText(n)) == [DigitChar(n / 10), DigitChar(n % 10)]
  {
    if n >= 10 {
      assert NatText(n / 10) == [DigitChar(n / 10)];
    }
  }

  /** The value of a two-digit string. */
  lemma TwoDigitValue(s: string)
    requires |s| == 2 && AllDigits(s)
    ensures Value(s) == DigitValue(s[0]) * 10 + DigitValue(s[1])
    ensures Value(s) < 100
  {
    var front := s[..1];
    assert front[..0] == [];
    assert Value(front) == DigitValue(s[0]);
    assert s[..|s| - 1] == front;
  }

  /** Two digits are the padded rendering of their value. */
  lemma PaddedTwoDigits(s: string)
    requires |s| == 2 && AllDigits(s)
    ensures Pad2(NatText(Value(s))) == s
  {
    TwoDigitValue(s);
    var hi, lo := DigitValue(s[0]), DigitValue(s[1]);
    var v := Value(s);
    TwoDigitText(v);
    DivMod10(hi, lo);
    assert DigitChar(hi) == s[0] && DigitChar(lo) == s[1];
  }

  lemma DivMod10(hi: nat, lo: nat)
    requires lo < 10
    ensures (hi * 10 + lo) / 10 == hi && (hi * 10 + lo) % 10 == lo
  {
  }
}
