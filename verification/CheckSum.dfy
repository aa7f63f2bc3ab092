/** The FIX checksum: what the sender appends and what the receiver accepts. */
module CheckSum {
  import opened Core
  import opened FixText
  import opened Modulo

  // ---- Sums of chars ----

  /** char is signed where the program runs. */
  function Signed(b: Byte): int { if b < 128 then b else b - 256 }

  function Sum(s: seq<Byte>): int {
    if s == [] then 0 else Signed(s[0]) + Sum(s[1..])
  }

  lemma {:induction false} SumAppend(a: seq<Byte>, b: seq<Byte>)
    ensures Sum(a + b) == Sum(a) + Sum(b)
  {
    if a == [] {
      assert a + b == b;
    } else {
      assert (a + b)[1..] == a[1..] + b;
      SumAppend(a[1..], b);
    }
  }

  lemma SumOne(b: Byte)
    ensures Sum([b]) == Signed(b)
  {
    assert [b][1..] == [];
  }

  lemma SumPrefix(s: seq<Byte>, i: nat)
    requires i < |s|
    ensures Sum(s[..i + 1]) == Sum(s[..i]) + Signed(s[i])
  {
    assert s[..i + 1] == s[..i] + [s[i]];
    SumAppend(s[..i], [s[i]]);
    SumOne(s[i]);
  }

  /** A 32-bit accumulator loses nothing modulo 256. */
  lemma Byte32(x: int)
    ensures (x % W32) % 256 == x % 256
  {
    var q := x / W32;
    assert x == q * 0x1_0000_0000 + x % W32;
    Shift256(x % W32, q * 0x100_0000);
  }

  lemma Shift256(r: int, k: int)
    ensures (r + k * 256) % 256 == r % 256
  {
  }

  /** CountCheckSum: the sum of a token and of the separator after it. */
  method CountCheckSum(data: seq<Byte>) returns (count: nat)
    ensures count == (Sum(data) + 1) % W32
  {
    count := 0;
    for i := 0 to |data|
      invariant count == Sum(data[..i]) % W32
    {
      SumPrefix(data, i);
      Accumulate(Sum(data[..i]), Signed(data[i]));
      count := (count + Signed(data[i])) % W32;
    }
    assert data[..|data|] == data;
    Accumulate(Sum(data), 1);
    count := (count + 1) % W32;
  }

  // ---- What the sender appends ----

  const ZERO: Byte := 48

  function Digit(n: nat): Byte
    requires n < 10
  {
    ZERO + n
  }

  predicate IsDigit(b: Byte) { ZERO <= b < ZERO + 10 }

  function Decimal(n: nat): seq<Byte> {
    if n < 10 then [Digit(n)] else Decimal(n / 10) + [Digit(n % 10)]
  }

  const TEN: seq<Byte> := [49, 48]

  function Trailer(msg: seq<Byte>): seq<Byte> {
    TEN + [EQ] + Decimal(Sum(msg) % 256) + [SOH]
  }

  method AddCheckSum(msg: seq<Byte>) returns (data: seq<Byte>)
    ensures data == msg + Trailer(msg)
  {
    var checksum := 0;
    for i := 0 to |msg|
      invariant checksum == Sum(msg[..i]) % W32
    {
      SumPrefix(msg, i);
      Accumulate(Sum(msg[..i]), Signed(msg[i]));
      checksum := (checksum + Signed(msg[i])) % W32;
    }
    assert msg[..|msg|] == msg;
    Byte32(Sum(msg));
    data := msg + (TEN + [EQ] + Decimal(checksum % 256) + [SOH]);
  }

  // ---- Reading an unsigned byte ----

  datatype Number = Value(n: nat) | BadFormat | OutOfRange

  function DigitRun(s: seq<Byte>): (n: nat)
    ensures n <= |s|
  {
    if s == [] || !IsDigit(s[0]) then 0 else 1 + DigitRun(s[1..])
  }

  function ValueOf(s: seq<Byte>): nat
    requires forall i :: 0 <= i < |s| ==> IsDigit(s[i])
  {
    if s == [] then 0
    else
      assert IsDigit(s[|s| - 1]);
      10 * ValueOf(s[..|s| - 1]) + (s[|s| - 1] - ZERO)
  }

  lemma {:induction false} RunIsDigits(s: seq<Byte>)
    ensures forall i :: 0 <= i < DigitRun(s) ==> IsDigit(s[i])
  {
    if s != [] && IsDigit(s[0]) {
      RunIsDigits(s[1..]);
      forall i | 0 <= i < DigitRun(s) ensures IsDigit(s[i]) {
        if i > 0 { assert s[i] == s[1..][i - 1]; }
      }
    }
  }

  /** from_chars into a uint8_t: the longest run of digits must fit, and must be all there is. */
  function FromChars(s: seq<Byte>): Number {
    var run := DigitRun(s);
    RunIsDigits(s);
    if run == 0 then BadFormat
    else if ValueOf(s[..run]) > 255 then OutOfRange
    else if run < |s| then BadFormat
    else Value(ValueOf(s))
  }

  lemma {:induction false} DecimalDigits(n: nat)
    ensures forall i :: 0 <= i < |Decimal(n)| ==> IsDigit(Decimal(n)[i])
    ensures Decimal(n) != [] && ValueOf(Decimal(n)) == n
  {
    if n < 10 {
      assert Decimal(n)[..0] == [];
    } else {
      DecimalDigits(n / 10);
      var d := Decimal(n);
      assert d[..|d| - 1] == Decimal(n / 10);
    }
  }

  lemma {:induction false} AllDigitsRun(s: seq<Byte>)
    requires forall i :: 0 <= i < |s| ==> IsDigit(s[i])
    ensures DigitRun(s) == |s|
  {
    if s != [] { AllDigitsRun(s[1..]); }
  }

  /** Reading what to_string wrote. */
  lemma FromDecimal(n: nat)
    requires n < 256
    ensures FromChars(Decimal(n)) == Value(n)
  {
    DecimalDigits(n);
    AllDigitsRun(Decimal(n));
    assert Decimal(n)[..|Decimal(n)|] == Decimal(n);
  }

  // ---- The bytes on the wire ----

  /** The sum of the bytes as they are, without signs and without wrapping. */
  function Plain(s: seq<Byte>): nat { if s == [] then 0 else s[0] + Plain(s[1..]) }

  lemma {:induction false} SumIsPlain(s: seq<Byte>)
    ensures Sum(s) % 256 == Plain(s) % 256
  {
    if s != [] {
      SumIsPlain(s[1..]);
      SameByte(Signed(s[0]), s[0], Sum(s[1..]), Plain(s[1..]));
    }
  }

  lemma SameByte(x: int, y: int, a: int, b: int)
    requires (x == y || x == y - 256) && a % 256 == b % 256
    ensures (x + a) % 256 == (y + b) % 256
  {
    var k := a / 256 - b / 256 - if x == y then 0 else 1;
    assert x + a == y + b + k * 256;
    Shift256(y + b, k);
  }

  lemma DecimalText(n: nat)
    requires n < 256
    ensures Decimal(n) ==
      if n < 10 then [48 + n] else if n < 100 then [48 + n / 10, 48 + n % 10]
      else [48 + n / 100, 48 + n / 10 % 10, 48 + n % 10]
  {
    if n >= 100 { assert n / 10 / 10 == n / 100; }
  }

  /** What the sender appends, byte by byte: "10=", the sum of all bytes modulo 256 in decimal, and SOH. */
  lemma TrailerBytes(msg: seq<Byte>)
    ensures var n := Plain(msg) % 256;
      Trailer(msg) == [49, 48, 61] +
        (if n < 10 then [48 + n] else if n < 100 then [48 + n / 10, 48 + n % 10]
         else [48 + n / 100, 48 + n / 10 % 10, 48 + n % 10]) + [1]
  {
    SumIsPlain(msg);
    DecimalText(Plain(msg) % 256);
    assert TEN + [EQ] == [49, 48, 61];
  }

  lemma {:induction false} RunStops(s: seq<Byte>)
    ensures DigitRun(s) < |s| ==> !IsDigit(s[DigitRun(s)])
  {
    if s != [] && IsDigit(s[0]) { RunStops(s[1..]); }
  }

  /** A number in decimal, with or without leading zeros. */
  predicate Writes(s: seq<Byte>, n: nat) {
    s != [] && (forall i :: 0 <= i < |s| ==> 48 <= s[i] <= 57) && ValueOf(s) == n
  }

  /** Exactly the texts of one or more digits and nothing else are read, if their value fits a byte. */
  lemma FromCharsMeans(s: seq<Byte>, n: nat)
    ensures FromChars(s) == Value(n) <==> Writes(s, n) && n < 256
  {
    RunIsDigits(s);
    RunStops(s);
    if forall i :: 0 <= i < |s| ==> 48 <= s[i] <= 57 {
      AllDigitsRun(s);
      assert s[..|s|] == s;
    }
  }
}
