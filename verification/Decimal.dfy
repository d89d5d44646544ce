/** Decimal text of integers, as strconv.Itoa (and the %d verb) writes it and strconv.Atoi reads it. */
module Decimal {
  import opened Arithmetic
  import opened Options

  const MAX_INT: int := 0x7fff_ffff_ffff_ffff

  predicate IsDigit(c: char) {
    '0' <= c <= '9'
  }

  function DigitChar(d: nat): (c: char)
    requires d < 10
    ensures IsDigit(c) && c as int - '0' as int == d
  {
    ('0' as int + d) as char
  }

  function Digits(n: nat): (s: string)
    ensures |s| > 0
    ensures forall i :: 0 <= i < |s| ==> IsDigit(s[i])
  {
    if n < 10 then [DigitChar(n)] else Digits(n / 10) + [DigitChar(n % 10)]
  }

  function Itoa(n: int): string {
    if n < 0 then "-" + Digits(-n) else Digits(n)
  }

  predicate AllDigits(s: string) {
    forall i :: 0 <= i < |s| ==> IsDigit(s[i])
  }

  function DigitsValue(s: string): nat
    requires AllDigits(s)
  {
    if s == [] then 0
    else 10 * DigitsValue(s[..|s| - 1]) + (s[|s| - 1] as int - '0' as int)
  }

  /** An optional sign, then at least one digit, and a value that fits 64 bits. */
  function Atoi(s: string): Option<int> {
    var negative := s != [] && s[0] == '-';
    var body := if s != [] && (s[0] == '-' || s[0] == '+') then s[1..] else s;
    if body == [] || !AllDigits(body) then None
    else
      var n: int := if negative then -(DigitsValue(body) as int) else DigitsValue(body);
      if -MAX_INT - 1 <= n <= MAX_INT then Some(n) else None
  }

  lemma {:induction false} DigitsRoundTrip(n: nat)
    ensures DigitsValue(Digits(n)) == n
  {
    if n >= 10 {
      DigitsRoundTrip(n / 10);
      assert Digits(n)[..|Digits(n)| - 1] == Digits(n / 10);
    } else {
      assert Digits(n)[..0] == [];
    }
  }

  function Pow10(k: nat): nat {
    if k == 0 then 1 else 10 * Pow10(k - 1)
  }

  lemma {:induction false} PowPositive(k: nat)
    ensures Pow10(k) > 0
  {
    if k > 0 {
      PowPositive(k - 1);
    }
  }

  /** Digit i from the right counts the multiples of 10 to the i, and the first digit is no leading zero. */
  lemma {:induction false} DigitsExact(n: nat, i: nat)
    ensures Pow10(i) > 0
    ensures i < |Digits(n)| ==> Digits(n)[|Digits(n)| - 1 - i] as int == '0' as int + n / Pow10(i) % 10
    ensures |Digits(n)| > 1 ==> Digits(n)[0] != '0'
  {
    PowPositive(i);
    if n >= 10 {
      DigitsExact(n / 10, if i == 0 then 0 else i - 1);
      var front := Digits(n / 10);
      assert Digits(n) == front + [DigitChar(n % 10)];
      if i > 0 {
        DivDiv(n, 10, Pow10(i - 1));
      }
      if n / 10 < 10 {
        assert front == [DigitChar(n / 10)];
      } else {
        assert |front| > 1;
      }
    }
  }

  /** The text of an integer: a minus sign if it is negative, and its decimal digits. */
  lemma ItoaExact(n: int, i: nat)
    ensures n < 0 <==> Itoa(n)[..1] == "-"
    ensures var (digits, m) := (if n < 0 then Itoa(n)[1..] else Itoa(n), if n < 0 then -n else n);
            && digits != "" && Pow10(i) > 0
            && (i < |digits| ==> digits[|digits| - 1 - i] as int == '0' as int + m / Pow10(i) % 10)
            && (|digits| > 1 ==> digits[0] != '0')
  {
    hide Digits;
    var m := if n < 0 then -n else n;
    DigitsExact(m, i);
    assert IsDigit(Digits(m)[0]);
    assert n >= 0 ==> Itoa(n)[..1][0] == Digits(m)[0];
    assert n < 0 ==> Itoa(n)[1..] == Digits(m) && Itoa(n)[..1] == "-";
  }

  /** Reading back what was written gives the number again, for every 64-bit number. */
  lemma AtoiItoa(n: int)
    requires -MAX_INT - 1 <= n <= MAX_INT
    ensures Atoi(Itoa(n)) == Some(n)
  {
    hide DigitsValue, Digits;
    if n < 0 {
      DigitsRoundTrip(-n);
      assert Itoa(n)[1..] == Digits(-n);
    } else {
      DigitsRoundTrip(n);
      assert IsDigit(Digits(n)[0]);
    }
  }

  // ---------- Which texts are numbers ----------

  function Zeros(z: nat): (s: string)
    ensures |s| == z
  {
    if z == 0 then "" else "0" + Zeros(z - 1)
  }

  lemma {:induction false} ZerosMore(z: nat)
    ensures Zeros(z + 1) == Zeros(z) + "0"
  {
    if z > 0 {
      ZerosMore(z - 1);
    } else {
      assert Zeros(1) == "0" + Zeros(0);
    }
  }

  /** Any digits are some zeros and then the text of a number. */
  lemma {:induction false} DigitsText(body: string) returns (z: nat)
    requires body != "" && AllDigits(body)
    ensures body == Zeros(z) + Digits(DigitsValue(body))
  {
    var n := |body| - 1;
    var front, last := body[..n], body[n];
    assert body == front + [last];
    var d := last as int - '0' as int;
    assert [DigitChar(d)] == [last];
    if front == "" {
      z := 0;
      assert DigitsValue(front) == 0;
      assert body == [last] == Zeros(0) + Digits(d);
    } else {
      var y := DigitsText(front);
      var v := DigitsValue(front);
      if v == 0 {
        z := y + 1;
        assert Digits(0) == "0";
        ZerosMore(y);
        assert body == (Zeros(y) + "0") + [last];
      } else {
        z := y;
        assert (10 * v + d) / 10 == v && (10 * v + d) % 10 == d;
        assert body == Zeros(y) + (Digits(v) + [last]);
      }
    }
  }

  lemma {:induction false} ZerosValue(z: nat, n: nat)
    ensures AllDigits(Zeros(z) + Digits(n)) && DigitsValue(Zeros(z) + Digits(n)) == n
    decreases z, n
  {
    var body := Zeros(z) + Digits(n);
    ZerosDigits(z);
    var front := body[..|body| - 1];
    if n >= 10 {
      ZerosValue(z, n / 10);
      assert front == Zeros(z) + Digits(n / 10);
    } else if z > 0 {
      ZerosValue(z - 1, 0);
      ZerosMore(z - 1);
      assert front == Zeros(z) == Zeros(z - 1) + Digits(0);
    } else {
      assert front == "";
    }
  }

  lemma {:induction false} ZerosDigits(z: nat)
    ensures AllDigits(Zeros(z))
  {
    if z > 0 {
      ZerosDigits(z - 1);
    }
  }

  /** s is the text of n, perhaps with a plus sign, and perhaps with zeros in front; a minus sign makes it negative or 0. */
  ghost predicate Writes(s: string, n: int, sign: string, z: nat) {
    && s == sign + (Zeros(z) + Digits(if n < 0 then -n else n))
    && ((sign == "-" && n <= 0) || (sign in {"", "+"} && n >= 0))
  }

  /** A text is read as a number if and only if it is a text of that number and the number fits 64 bits. */
  lemma AtoiIff(s: string, n: int)
    ensures Atoi(s) == Some(n) <==> -MAX_INT - 1 <= n <= MAX_INT && exists sign, z :: Writes(s, n, sign, z)
  {
    hide Digits, DigitsValue;
    if Atoi(s) == Some(n) {
      var sign := if s[0] == '-' || s[0] == '+' then s[..1] else "";
      var body := s[|sign|..];
      var z := DigitsText(body);
      assert s == sign + body;
      assert body == if s[0] == '-' || s[0] == '+' then s[1..] else s;
      assert DigitsValue(body) == if n < 0 then -n else n;
      assert s[0] != '-' && s[0] != '+' ==> sign == "";
      assert s[0] == '-' ==> sign == "-";
      assert s[0] == '+' ==> sign == "+";
      assert Writes(s, n, sign, z);
    }
    if sign, z :| Writes(s, n, sign, z) {
      var m := if n < 0 then -n else n;
      ZerosValue(z, m);
      var body := Zeros(z) + Digits(m);
      assert IsDigit(body[0]);
      assert sign != "" ==> s[1..] == body;
      assert sign == "" ==> s == body;
    }
  }

  /** Distinct integers have distinct texts, of any size. */
  lemma ItoaInjective(m: int, n: int)
    requires Itoa(m) == Itoa(n)
    ensures m == n
  {
    var s := Itoa(m);
    var p, q := Digits(if m < 0 then -m else m), Digits(if n < 0 then -n else n);
    assert s[0] == '-' <==> m < 0;
    assert s[0] == '-' <==> n < 0;
    assert m < 0 ==> s[1..] == p;
    assert n < 0 ==> s[1..] == q;
    DigitsRoundTrip(if m < 0 then -m else m);
    DigitsRoundTrip(if n < 0 then -n else n);
  }

  /** The text of an integer never holds a colon, so it can follow one as a separator. */
  lemma ItoaHasNoColon(n: int)
    ensures ':' !in Itoa(n)
  {
    var d := if n < 0 then Digits(-n) else Digits(n);
    assert forall i :: 0 <= i < |d| ==> IsDigit(d[i]);
  }
}
