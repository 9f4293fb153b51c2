/** Exact decimal printing: amounts in ether and the fixed-buffer integer printers. */
module Decimal {
  import opened Results
  import opened Int64
  import opened Text

  // ---- Digits ----

  predicate IsDigit(c: char) {
    '0' <= c <= '9'
  }

  function Digit(d: nat): (c: char)
    requires d < 10
    ensures IsDigit(c)
  {
    '0' + d as char
  }

  ghost predicate Numeral(s: string) {
    forall i :: 0 <= i < |s| ==> IsDigit(s[i])
  }

  function Pow10(n: nat): (r: nat)
    ensures r > 0
  {
    if n == 0 then 1 else 10 * Pow10(n - 1)
  }

  /** The shortest decimal numeral, as big.Int.String prints it. */
  function Digits(n: nat): (s: string)
    ensures s != [] && Numeral(s)
  {
    if n < 10 then [Digit(n)] else Digits(n / 10) + [Digit(n % 10)]
  }

  /** The number a numeral denotes, read independently of how it was printed. */
  ghost function Value(s: string): nat
    requires Numeral(s)
  {
    if s == [] then 0 else Value(s[..|s| - 1]) * 10 + (s[|s| - 1] - '0') as int
  }

  lemma ValueSnoc(s: string, d: nat)
    requires Numeral(s) && d < 10
    ensures Numeral(s + [Digit(d)]) && Value(s + [Digit(d)]) == Value(s) * 10 + d
  {
    assert (s + [Digit(d)])[..|s|] == s;
  }

  /** Printing and reading are inverse, and only zero starts with a zero. */
  lemma {:induction false} DigitsReadBack(n: nat)
    ensures Value(Digits(n)) == n
    ensures Digits(n)[0] == '0' <==> n == 0
  {
    if n < 10 {
      assert Digits(n)[..0] == [];
    } else {
      DigitsReadBack(n / 10);
      ValueSnoc(Digits(n / 10), n % 10);
    }
  }

  lemma PowersOfTen()
    ensures Pow10(18) == 1_000_000_000_000_000_000
    ensures Pow10(19) == 10_000_000_000_000_000_000
    ensures Pow10(20) == 100_000_000_000_000_000_000
  {
    assert Pow10(6) == 1_000_000;
    assert Pow10(12) == 1_000_000_000_000;
  }

  lemma {:induction false} DigitCount(n: nat, k: nat)
    requires k > 0 && n < Pow10(k)
    ensures |Digits(n)| <= k
  {
    if n >= 10 {
      DigitCount(n / 10, k - 1);
    }
  }

  // ---- Wei.Ether ----

  const ETHER_DIGITS: nat := 18
  const ETHER: nat := 1_000_000_000_000_000_000

  function Zeros(n: nat): (s: string)
    ensures |s| == n && Numeral(s)
  {
    seq(n, _ => '0')
  }

  /** %018s: padded on the left with zeros. */
  function Pad(s: string): string {
    if |s| < ETHER_DIGITS then Zeros(ETHER_DIGITS - |s|) + s else s
  }

  function TrimZeros(s: string): (r: string)
    ensures |r| <= |s|
  {
    if s != [] && s[|s| - 1] == '0' then TrimZeros(s[..|s| - 1]) else s
  }

  function TrimPoint(s: string): string {
    if s != [] && s[|s| - 1] == '.' then s[..|s| - 1] else s
  }

  /** The display form of an amount of wei. */
  function Ether(wei: nat): string {
    TrimPoint(TrimZeros(Digits(wei / ETHER) + ['.'] + Pad(Digits(wei % ETHER))))
  }

  /** Reads a decimal amount of ether as wei; more than eighteen decimals are refused. */
  ghost function ReadEther(s: string): Option<nat>
  {
    var (whole, frac) := Cut(s, '.');
    if !Numeral(whole) || !Numeral(frac) || |frac| > ETHER_DIGITS then None
    else Some(Value(whole) * ETHER + Value(frac) * Pow10(ETHER_DIGITS - |frac|))
  }

  lemma {:induction false} LeadingZeros(k: nat, s: string)
    requires Numeral(s)
    ensures Numeral(Zeros(k) + s) && Value(Zeros(k) + s) == Value(s)
    decreases |s|, k
  {
    if s == [] {
      assert Zeros(k) + s == Zeros(k);
      if k > 0 {
        assert Zeros(k)[..k - 1] == Zeros(k - 1) + [];
        LeadingZeros(k - 1, []);
      }
    } else {
      var n := |s| - 1;
      assert (Zeros(k) + s)[..k + n] == Zeros(k) + s[..n];
      LeadingZeros(k, s[..n]);
    }
  }

  /** Dropping trailing zeros divides a numeral by that power of ten. */
  lemma {:induction false} TrimScales(s: string)
    requires Numeral(s)
    ensures Numeral(TrimZeros(s)) && Value(s) == Value(TrimZeros(s)) * Pow10(|s| - |TrimZeros(s)|)
    ensures TrimZeros(s) != [] ==> TrimZeros(s)[|TrimZeros(s)| - 1] != '0'
  {
    if s != [] && s[|s| - 1] == '0' {
      var t := s[..|s| - 1];
      TrimScales(t);
      var v, k := Value(TrimZeros(s)), |t| - |TrimZeros(s)|;
      assert Pow10(k + 1) == 10 * Pow10(k);
      assert v * (10 * Pow10(k)) == (v * Pow10(k)) * 10;
    } else {
      assert Pow10(0) == 1;
    }
  }

  /** The point stops the trimming. */
  lemma {:induction false} TrimStopsAtPoint(a: string, s: string)
    ensures TrimZeros(a + ['.'] + s) == a + ['.'] + TrimZeros(s)
  {
    var x := a + ['.'] + s;
    if s == [] {
      assert x[|x| - 1] == '.';
    } else {
      assert x[|x| - 1] == s[|s| - 1];
      assert x[..|x| - 1] == a + ['.'] + s[..|s| - 1];
      if s[|s| - 1] == '0' {
        TrimStopsAtPoint(a, s[..|s| - 1]);
      }
    }
  }

  lemma CutNumeral(a: string)
    requires Numeral(a)
    ensures Cut(a, '.') == (a, [])
  {
    if a != [] {
      CutNumeral(a[1..]);
      assert a == [a[0]] + a[1..];
    }
  }

  lemma PaddedFraction(rest: nat)
    requires rest < ETHER
    ensures var padded := Pad(Digits(rest)); |padded| == ETHER_DIGITS && Numeral(padded) && Value(padded) == rest
  {
    hide Digits, Value, Pow10;
    PowersOfTen();
    DigitCount(rest, 18);
    DigitsReadBack(rest);
    LeadingZeros(ETHER_DIGITS - |Digits(rest)|, Digits(rest));
  }

  lemma TrimPointOf(whole: string, frac: string)
    requires Numeral(frac)
    ensures TrimPoint(whole + ['.'] + frac) == (if frac == [] then whole else whole + ['.'] + frac)
  {
    var text := whole + ['.'] + frac;
    if frac == [] {
      assert text == whole + ['.'];
    } else {
      assert text[|text| - 1] == frac[|frac| - 1];
    }
  }

  /** The fraction printed: eighteen digits of the remainder, without trailing zeros. */
  lemma EtherParts(wei: nat)
    ensures var whole, frac := Digits(wei / ETHER), TrimZeros(Pad(Digits(wei % ETHER)));
            && Numeral(frac) && |frac| <= ETHER_DIGITS
            && Value(frac) * Pow10(ETHER_DIGITS - |frac|) == wei % ETHER
            && (frac != [] ==> frac[|frac| - 1] != '0')
            && Ether(wei) == (if frac == [] then whole else whole + ['.'] + frac)
  {
    hide Digits, Value, Pow10, Pad, TrimZeros, TrimPoint;
    var whole, padded := Digits(wei / ETHER), Pad(Digits(wei % ETHER));
    PaddedFraction(wei % ETHER);
    TrimScales(padded);
    TrimStopsAtPoint(whole, padded);
    TrimPointOf(whole, TrimZeros(padded));
  }

  /** No wei is lost in display: the text, read as a decimal and scaled, is the amount. */
  lemma EtherReadsBack(wei: nat)
    ensures ReadEther(Ether(wei)) == Some(wei)
  {
    hide Ether, Digits, TrimZeros, Pad, Value, Pow10, Cut;
    EtherParts(wei);
    DigitsReadBack(wei / ETHER);
    var whole, frac := Digits(wei / ETHER), TrimZeros(Pad(Digits(wei % ETHER)));
    assert '.' !in whole by {
      assert forall i :: 0 <= i < |whole| ==> IsDigit(whole[i]);
    }
    if frac == [] {
      CutNumeral(whole);
    } else {
      CutAtFirst(whole, '.', frac);
    }
    assert wei == (wei / ETHER) * ETHER + wei % ETHER;
  }

  lemma EtherIsInjective(a: nat, b: nat)
    requires Ether(a) == Ether(b)
    ensures a == b
  {
    EtherReadsBack(a);
    EtherReadsBack(b);
  }

  /** The text never ends in a point, nor in a zero behind a point. */
  lemma EtherIsTidy(wei: nat)
    ensures var s := Ether(wei);
            && s != [] && s[|s| - 1] != '.'
            && ('.' in s ==> s[|s| - 1] != '0')
  {
    hide Ether, TrimZeros, Pad, Pow10, Value;
    EtherParts(wei);
    var whole, frac := Digits(wei / ETHER), TrimZeros(Pad(Digits(wei % ETHER)));
    assert forall i :: 0 <= i < |whole| ==> IsDigit(whole[i]);
    assert forall i :: 0 <= i < |frac| ==> IsDigit(frac[i]);
  }

  /** It starts with a digit, and with a zero only for less than one ether, a point behind it unless it is all. */
  lemma EtherStartsTidily(wei: nat)
    ensures var s := Ether(wei);
            && s != [] && IsDigit(s[0])
            && (s[0] == '0' ==> wei < 1_000_000_000_000_000_000 && (|s| == 1 || s[1] == '.'))
  {
    hide Ether, TrimZeros, Pad, Pow10, Value;
    EtherParts(wei);
    DigitsReadBack(wei / ETHER);
    var whole := Digits(wei / ETHER);
    assert IsDigit(whole[0]);
    assert wei / ETHER == 0 ==> |whole| == 1;
  }

  // ---- Integers into a 20-byte buffer ----

  /** A positive number that fits leaves room for all its digits: the index never runs below zero. */
  method Itoa(value: nat) returns (s: string)
    requires value < 0x1_0000_0000_0000_0000
    ensures s == Digits(value)
  {
    if value == 0 {
      return "0";
    }
    var buf := new char[20];
    PowersOfTen();
    var i := FillDigits(buf, value, 20);
    s := buf[i..];
  }

  /** The shared loop: writes the digits of a positive number backwards from the end of the buffer. */
  method FillDigits(buf: array<char>, value: nat, ghost room: nat) returns (i: nat)
    requires buf.Length == 20 && 0 < value && room <= 20 && value < Pow10(room)
    modifies buf
    ensures 20 - room <= i < 20 && buf[i..] == Digits(value)
  {
    var v: nat := value;
    i := buf.Length;
    while v > 0
      invariant 20 - room <= i <= 20 && (i == 20 ==> v == value)
      invariant v < Pow10(i - (20 - room))
      invariant v == 0 ==> buf[i..] == Digits(value)
      invariant v > 0 ==> Digits(v) + buf[i..] == Digits(value)
    {
      assert i > 20 - room;
      ghost var tail := buf[i..];
      i := i - 1;
      buf[i] := '0' + (v % 10) as char;
      assert buf[i..] == [Digit(v % 10)] + tail;
      assert v >= 10 ==> Digits(v) + tail == Digits(v / 10) + buf[i..];
      v := v / 10;
    }
  }

  function Signed(v: int): string {
    if v < 0 then ['-'] + Digits(-v) else Digits(v)
  }

  ghost function ReadSigned(s: string): Option<int>
  {
    if s != [] && s[0] == '-' then
      if s[1..] != [] && Numeral(s[1..]) then Some(-(Value(s[1..]) as int)) else None
    else if s != [] && Numeral(s) then Some(Value(s) as int) else None
  }

  /** What itoa64 prints: negating the least value wraps around to itself, and only its sign is left. */
  function Printed(v: int): string {
    if v == MIN_INT64 then "-" else Signed(v)
  }

  method Itoa64(value: int) returns (s: string)
    requires MIN_INT64 <= value <= MAX_INT64
    ensures s == Printed(value)
  {
    if value == 0 {
      return "0";
    }
    var neg := value < 0;
    var v := value;
    if neg {
      v := Wrap(-v);
    }
    var buf := new char[20];
    var i := buf.Length;
    if v > 0 {
      PowersOfTen();
      i := FillDigits(buf, v, 19);
    }
    ghost var digits := buf[i..];
    if neg {
      i := i - 1;
      buf[i] := '-';
      assert buf[i..] == ['-'] + digits;
    }
    s := buf[i..];
  }

  /** itoa64 prints a readable numeral exactly for the values other than the least one. */
  lemma PrintedReadsBack(v: int)
    requires MIN_INT64 <= v <= MAX_INT64
    ensures ReadSigned(Printed(v)) == Some(v) <==> v != MIN_INT64
  {
    if v == MIN_INT64 {
      assert "-"[1..] == [];
    } else if v < 0 {
      DigitsReadBack(-v);
      assert (['-'] + Digits(-v))[1..] == Digits(-v);
    } else {
      DigitsReadBack(v);
    }
  }
}
