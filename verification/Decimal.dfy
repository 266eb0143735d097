/** Numbers as text: what itoa prints, atoi reads. */
module Decimal {
  import opened Bytes

  const ZERO: int := 48
  const MINUS: Byte := 45
  const PLUS: Byte := 43

  function Digits(n: nat): (s: seq<Byte>)
    ensures |s| > 0 && forall i :: 0 <= i < |s| ==> IsDigit(s[i])
  {
    if n < 10 then [ZERO + n] else Digits(n / 10) + [ZERO + n % 10]
  }

  function Itoa(n: int): (s: seq<Byte>)
    ensures 0 !in s && s != []
  {
    if n < 0 then [MINUS] + Digits(-n) else Digits(n)
  }

  predicate IsDigit(c: Byte) {
    48 <= c <= 57
  }

  predicate IsSpace(c: Byte) {
    c == 32 || 9 <= c <= 13
  }

  /** The digits at the front, behind `acc` already read. */
  function ReadDigits(s: seq<Byte>, acc: nat): nat {
    if s == [] || !IsDigit(s[0]) then acc else ReadDigits(s[1..], acc * 10 + (s[0] - ZERO))
  }

  function Atoi(s: seq<Byte>): int {
    if s != [] && IsSpace(s[0]) then Atoi(s[1..])
    else if s != [] && s[0] == MINUS then -(ReadDigits(s[1..], 0) as int)
    else if s != [] && s[0] == PLUS then ReadDigits(s[1..], 0)
    else ReadDigits(s, 0)
  }

  lemma {:induction false} DigitsRead(n: nat, rest: seq<Byte>)
    ensures ReadDigits(Digits(n) + rest, 0) == ReadDigits(rest, n)
  {
    if n >= 10 {
      var last := [(ZERO + n % 10) as Byte];
      assert Digits(n) + rest == Digits(n / 10) + (last + rest);
      DigitsRead(n / 10, last + rest);
      assert (last + rest)[1..] == rest;
    } else {
      assert (Digits(n) + rest)[1..] == rest;
    }
  }

  /** A minus exactly for negative numbers, then digits, the first of them 0 only in "0". */
  lemma ItoaShape(n: int)
    ensures n < 0 ==> |Itoa(n)| > 1 && Itoa(n)[0] == MINUS
    ensures var digits := if n < 0 then Itoa(n)[1..] else Itoa(n);
            && digits != [] && (forall i :: 0 <= i < |digits| ==> IsDigit(digits[i]))
            && (digits[0] == 48 ==> n == 0 && digits == [48])
  {
    NoLeadingZero(if n < 0 then -n else n);
    if n < 0 {
      assert Itoa(n)[1..] == Digits(-n);
    }
  }

  lemma {:induction false} NoLeadingZero(n: nat)
    ensures Digits(n)[0] == 48 ==> n == 0 && Digits(n) == [48]
  {
    if n >= 10 {
      NoLeadingZero(n / 10);
    }
  }

  lemma AtoiItoa(n: int)
    ensures Atoi(Itoa(n)) == n
  {
    var m := if n < 0 then -n else n;
    DigitsRead(m, []);
    assert Digits(m) + [] == Digits(m);
    if n < 0 {
      assert Itoa(n)[1..] == Digits(m);
    }
  }
}
