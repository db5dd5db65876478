/** Signed 64-bit integers and their decimal text, as Go's `strconv` reads and writes them. */
module Numbers {
  import opened ByteStrings

  const TWO_63: int := 0x8000_0000_0000_0000
  const TWO_64: int := 0x1_0000_0000_0000_0000
  const MAX_INT64: int := TWO_63 - 1
  const MIN_INT64: int := -TWO_63

  predicate FitsInt64(n: int) {
    MIN_INT64 <= n <= MAX_INT64
  }

  /** Two's complement wrap-around of an exact result to 64 bits. */
  function Wrap64(n: int): (r: int)
    ensures FitsInt64(r)
    ensures FitsInt64(n) ==> r == n
  {
    (n + TWO_63) % TWO_64 - TWO_63
  }

  predicate IsDigit(c: byte) {
    '0' <= c <= '9'
  }

  predicate AllDigits(s: Bytes) {
    forall i :: 0 <= i < |s| ==> IsDigit(s[i])
  }

  function DigitsValue(s: Bytes): nat
    requires AllDigits(s)
  {
    if s == [] then 0
    else 10 * DigitsValue(s[..|s| - 1]) + (s[|s| - 1] as int - 48)
  }

  /** `strconv.ParseInt(s, 10, 64)`; `strconv.Atoi` agrees with it on a 64-bit machine. */
  function ParseInt(s: Bytes): (r: Option<int>)
    ensures r.Some? ==> FitsInt64(r.value)
  {
    var digits := if s != [] && (s[0] == '-' || s[0] == '+') then s[1..] else s;
    if digits == [] || !AllDigits(digits) then None
    else
      var magnitude: int := DigitsValue(digits);
      var n: int := if s[0] == '-' then -magnitude else magnitude;
      if FitsInt64(n) then Some(n) else None
  }

  function FormatNat(n: nat): (s: Bytes)
    ensures s != [] && AllDigits(s)
  {
    var digit: byte := (n % 10 + 48) as char;
    if n < 10 then [digit] else FormatNat(n / 10) + [digit]
  }

  /** `strconv.FormatInt(n, 10)`. */
  function FormatInt(n: int): Bytes {
    if n < 0 then "-" + FormatNat(-n) else FormatNat(n)
  }

  lemma {:induction false} FormatNatValue(n: nat)
    ensures DigitsValue(FormatNat(n)) == n
  {
    if n < 10 {
      assert FormatNat(n)[..0] == [];
    } else {
      FormatNatValue(n / 10);
      var s := FormatNat(n);
      assert s[..|s| - 1] == FormatNat(n / 10);
    }
  }

  /** Reading back a written integer gives it back, or fails when it does not fit in 64 bits. */
  lemma ParseFormatAny(n: int)
    ensures ParseInt(FormatInt(n)) == if FitsInt64(n) then Some(n) else None
  {
    var magnitude: nat := if n < 0 then -n else n;
    FormatNatValue(magnitude);
    if n < 0 {
      assert FormatInt(n)[1..] == FormatNat(magnitude);
    } else {
      assert IsDigit(FormatInt(n)[0]);
    }
  }

  /** Every 64-bit integer survives being written and read back. */
  lemma ParseFormat(n: int)
    requires FitsInt64(n)
    ensures ParseInt(FormatInt(n)) == Some(n)
  {
    ParseFormatAny(n);
  }

  function Pow10(k: nat): nat {
    if k == 0 then 1 else 10 * Pow10(k - 1)
  }

  lemma {:induction false} FormatNatLength(n: nat, k: nat)
    requires 1 <= k && n < Pow10(k)
    ensures |FormatNat(n)| <= k
    decreases k
  {
    if n >= 10 {
      FormatNatLength(n / 10, k - 1);
    }
  }

  /** The text of a 64-bit integer never exceeds 20 bytes. */
  lemma FormatIntLength(n: int)
    requires FitsInt64(n)
    ensures |FormatInt(n)| <= 20
  {
    assert Pow10(5) == 100_000 && Pow10(10) == 100_000 * Pow10(5) && Pow10(15) == 100_000 * Pow10(10);
    assert Pow10(19) == 10_000 * Pow10(15);
    FormatNatLength(if n < 0 then -n else n, 19);
  }

  /** No decimal text contains a line terminator, so a length line ends where it should. */
  lemma FormatIntClean(n: int)
    ensures forall i :: 0 <= i < |FormatInt(n)| ==> FormatInt(n)[i] != CR && FormatInt(n)[i] != LF
  {
    var magnitude: nat := if n < 0 then -n else n;
    assert AllDigits(FormatNat(magnitude));
  }

  /** A wrapped number differs from the exact one by a multiple of 2^64. */
  lemma WrapsAround(n: int)
    ensures (Wrap64(n) - n) % 0x1_0000_0000_0000_0000 == 0
    ensures Wrap64(n) == n <==> -0x8000_0000_0000_0000 <= n <= 0x7FFF_FFFF_FFFF_FFFF
  {
  }

  lemma AtLeastOnce(d: nat, m: int)
    requires m >= 1
    ensures d * m >= d
  {
  }

  lemma QuotientIs(n: int, d: int, q: int, r: int)
    requires n == d * q + r && 0 <= r < d
    ensures n / d == q
  {
    var q', r' := n / d, n % d;
    assert d * (q - q') == r' - r by {
      assert d * (q - q') == d * q - d * q';
    }
    if q > q' {
      AtLeastOnce(d, q - q');
    } else if q < q' {
      assert d * (q' - q) == r - r';
      AtLeastOnce(d, q' - q);
    }
  }

  lemma DivideByProduct(n: nat, b: nat, p: nat)
    requires b > 0 && p > 0
    ensures b * p > 0 && n / b / p == n / (b * p)
  {
    var q, r, s := n / b / p, n / b % p, n % b;
    AtLeastOnce(b, p);
    assert n == b * (n / b) + s && n / b == p * q + r;
    assert b * (p * q + r) == (b * p) * q + b * r;
    assert b * r + s < b * p by {
      assert b * p == b * r + b * (p - r);
      AtLeastOnce(b, p - r);
    }
    assert b * r >= 0;
    QuotientIs(n, b * p, q, b * r + s);
  }

  lemma {:induction false} Pow10Positive(k: nat)
    ensures Pow10(k) > 0
  {
    if k > 0 {
      Pow10Positive(k - 1);
    }
  }

  /** The decimal text of a number: its digit for 10^k stands k places from the end, with no leading zero. */
  lemma {:induction false} DigitAt(n: nat, k: nat)
    requires k < |FormatInt(n)|
    ensures Pow10(k) > 0 && FormatInt(n)[|FormatInt(n)| - 1 - k] as int == 48 + n / Pow10(k) % 10
    ensures n > 0 ==> FormatInt(n)[0] as int != 48
    decreases n
  {
    Pow10Positive(k);
    if n >= 10 {
      var front := FormatInt(n / 10);
      assert FormatInt(n)[0] == front[0];
      if k > 0 {
        DigitAt(n / 10, k - 1);
        Pow10Positive(k - 1);
        DivideByProduct(n, 10, Pow10(k - 1));
        assert FormatInt(n)[|FormatInt(n)| - 1 - k] == front[|front| - 1 - (k - 1)];
      } else {
        DigitAt(n / 10, 0);
      }
    }
  }

  function Zeros(k: nat): Bytes {
    if k == 0 then [] else Zeros(k - 1) + [48 as char]
  }

  lemma {:induction false} ValueOfConcat(a: Bytes, b: Bytes)
    requires AllDigits(a) && AllDigits(b) && DigitsValue(a) == 0
    ensures AllDigits(a + b) && DigitsValue(a + b) == DigitsValue(b)
    decreases |b|
  {
    if b == [] {
      assert a + b == a;
    } else {
      ValueOfConcat(a, b[..|b| - 1]);
      assert (a + b)[..|a + b| - 1] == a + b[..|b| - 1];
    }
  }

  lemma {:induction false} ZerosAreNothing(k: nat)
    ensures AllDigits(Zeros(k)) && DigitsValue(Zeros(k)) == 0
  {
    if k > 0 {
      ZerosAreNothing(k - 1);
      assert Zeros(k)[..|Zeros(k)| - 1] == Zeros(k - 1);
    }
  }

  lemma SignsRead(text: Bytes)
    requires text != [] && AllDigits(text)
    ensures var v: int := DigitsValue(text);
            ParseInt(text) == (if FitsInt64(v) then Some(v) else None) &&
            ParseInt("+" + text) == ParseInt(text) &&
            ParseInt("-" + text) == (if FitsInt64(-v) then Some(-v) else None)
  {
    hide DigitsValue;
    assert IsDigit(text[0]);
    assert ("+" + text)[1..] == text && ("-" + text)[1..] == text;
  }

  /** A number may be written with any zeros before it and with either sign; it is read when it fits in 64 bits. */
  lemma ParseReads(k: nat, n: int)
    requires n >= 0
    ensures var text := Zeros(k) + FormatInt(n);
            ParseInt(text) == (if n <= 9_223_372_036_854_775_807 then Some(n) else None) &&
            ParseInt("+" + text) == ParseInt(text) &&
            ParseInt("-" + text) == (if n <= 9_223_372_036_854_775_808 then Some(-n) else None)
  {
    hide ParseInt, Zeros, FormatNat, DigitsValue;
    ZerosAreNothing(k);
    FormatNatValue(n);
    ValueOfConcat(Zeros(k), FormatInt(n));
    SignsRead(Zeros(k) + FormatInt(n));
  }

  lemma OneDigitMore(n: nat, d: nat)
    requires n > 0 && d < 10
    ensures FormatInt(10 * n + d) == FormatInt(n) + [(48 + d) as char]
  {
    assert (10 * n + d) / 10 == n && (10 * n + d) % 10 == d;
  }

  /** Every text of digits is a number with zeros before it. */
  lemma {:induction false} DigitsAreNumber(s: Bytes) returns (k: nat)
    requires s != [] && AllDigits(s)
    ensures s == Zeros(k) + FormatInt(DigitsValue(s))
    decreases |s|
  {
    hide FormatInt;
    var front, last := s[..|s| - 1], s[|s| - 1];
    var d := last as int - 48;
    assert s == front + [last];
    SmallNumber(d);
    if front == [] {
      k := 0;
      assert DigitsValue(front) == 0;
    } else {
      k := DigitsAreNumber(front);
      var n := DigitsValue(front);
      if n == 0 {
        SmallNumber(0);
        assert front == Zeros(k + 1);
        k := k + 1;
      } else {
        OneDigitMore(n, d);
        assert s == Zeros(k) + (FormatInt(n) + [last]);
      }
    }
  }

  lemma SmallNumber(d: nat)
    requires d < 10
    ensures FormatInt(d) == [(48 + d) as char]
  {
  }

  /** Nothing else is read: a text that is read is a sign or none, zeros, and the digits of the number's magnitude. */
  lemma ParseOnly(s: Bytes) returns (k: nat)
    requires ParseInt(s).Some?
    ensures var n := ParseInt(s).value;
            var text := Zeros(k) + FormatInt(if n < 0 then -n else n);
            s == "-" + text || (n >= 0 && (s == text || s == "+" + text))
  {
    if s[0] == '-' || s[0] == '+' {
      k := DigitsAreNumber(s[1..]);
      assert s == [s[0]] + s[1..];
    } else {
      k := DigitsAreNumber(s);
    }
  }
}
