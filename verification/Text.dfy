/** Splitting strings the way the address parsers do: searches, counts, decimal numbers. */
module Text {
  import opened Options
  import opened Naming

  /** First index of `c`, or -1. */
  function FirstIndex(s: string, c: char): (i: int)
    ensures -1 <= i < |s|
    ensures i >= 0 ==> s[i] == c
    ensures forall k | 0 <= k < (if i >= 0 then i else |s|) :: s[k] != c
  {
    if s == "" then -1
    else if s[0] == c then 0
    else
      var i := FirstIndex(s[1..], c);
      if i < 0 then -1 else i + 1
  }

  /** Last index of `c`, or -1. */
  function LastIndex(s: string, c: char): (i: int)
    ensures -1 <= i < |s|
    ensures i >= 0 ==> s[i] == c
    ensures forall k | i < k < |s| :: s[k] != c
  {
    if s == "" then -1
    else if s[|s| - 1] == c then |s| - 1
    else LastIndex(s[..|s| - 1], c)
  }

  function Count(s: string, c: char): nat {
    if s == "" then 0 else (if s[0] == c then 1 else 0) + Count(s[1..], c)
  }

  lemma {:induction false} CountAppend(a: string, b: string, c: char)
    ensures Count(a + b, c) == Count(a, c) + Count(b, c)
  {
    if a == "" {
      assert a + b == b;
    } else {
      assert (a + b)[1..] == a[1..] + b;
      CountAppend(a[1..], b, c);
    }
  }

  lemma {:induction false} CountZero(s: string, c: char)
    ensures Count(s, c) == 0 <==> c !in s
  {
    if s != "" {
      CountZero(s[1..], c);
      assert s == [s[0]] + s[1..];
    }
  }

  predicate AllDigits(s: string) {
    forall i | 0 <= i < |s| :: '0' <= s[i] <= '9'
  }

  function Value(s: string): nat
    requires AllDigits(s)
  {
    if s == "" then 0 else Value(s[..|s| - 1]) * 10 + (s[|s| - 1] - '0') as int
  }

  lemma DigitValue(d: nat)
    requires d < 10
    ensures '0' <= HEX[d] <= '9' && (HEX[d] - '0') as int == d
  {
    assert HEX[0] == '0' && HEX[1] == '1' && HEX[2] == '2' && HEX[3] == '3' && HEX[4] == '4';
    assert HEX[5] == '5' && HEX[6] == '6' && HEX[7] == '7' && HEX[8] == '8' && HEX[9] == '9';
  }

  lemma {:induction false} ValueOfDecimal(n: nat)
    ensures AllDigits(Decimal(n)) && Value(Decimal(n)) == n
  {
    DecimalDigits(n);
    DigitValue(n % 10);
    if n >= 10 {
      ValueOfDecimal(n / 10);
      var s := Decimal(n);
      assert s[..|s| - 1] == Decimal(n / 10) && s[|s| - 1] == HEX[n % 10];
    } else {
      assert Decimal(n)[..0] == "";
    }
  }

  /** `str::parse::<u16>`: an optional plus sign, digits, no overflow. */
  function ParseU16(s: string): Option<nat> {
    var body := if |s| >= 2 && s[0] == '+' then s[1..] else s;
    if body != "" && AllDigits(body) && Value(body) <= 0xFFFF then Some(Value(body)) else None
  }

  lemma ParseDecimal(n: nat)
    requires n <= 0xFFFF
    ensures ParseU16(Decimal(n)) == Some(n)
  {
    DecimalDigits(n);
    ValueOfDecimal(n);
    assert Decimal(n)[0] in Decimal(n);
  }

  /** Exactly the digit strings, with or without one plus sign, that denote a 16-bit number. */
  lemma ParseU16Exactly(s: string, n: nat)
    ensures ParseU16(s) == Some(n) <==>
            exists d: string :: (s == d || s == "+" + d) && d != "" && AllDigits(d) && Value(d) == n && n <= 0xFFFF
  {
    if ParseU16(s) == Some(n) {
      var d := if |s| >= 2 && s[0] == '+' then s[1..] else s;
      assert s == d || s == "+" + d;
    }
    forall d: string | (s == d || s == "+" + d) && d != "" && AllDigits(d) && Value(d) == n && n <= 0xFFFF
      ensures ParseU16(s) == Some(n)
    {
      if s == d {
        assert s[0] != '+';
      } else {
        assert s[0] == '+' && s[1..] == d;
      }
    }
  }
}
