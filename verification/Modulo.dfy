/** Arithmetic of machine words: what wrapping at 2^32 and 2^64 keeps. */
module Modulo {
  import opened Core

  lemma Shift(x: int, q: int)
    ensures (x + q * W32) % W32 == x % W32
  {
  }

  /** One step of a 32-bit accumulator. */
  lemma Accumulate(x: int, d: int)
    ensures (x % W32 + d) % W32 == (x + d) % W32
  {
    assert x == (x / W32) * W32 + x % W32;
    Shift(x % W32 + d, x / W32);
  }

  /** One step of a 64-bit counter. */
  lemma Next64(x: int)
    ensures (x % W64 + 1) % W64 == (x + 1) % W64
  {
    assert x % W64 == x - (x / W64) * W64;
  }

  /** A 64-bit counter stamped into 32 bits. */
  lemma Narrow(x: int)
    ensures (x % W64) % W32 == x % W32
  {
    var q := x / W64;
    assert x % W64 == x - q * W64;
    assert q * W64 == (q * W32) * W32;
  }

  lemma ModPlus(a: int, b: int, c: int, d: int)
    requires a % W32 == b % W32 && c % W32 == d % W32
    ensures (a + c) % W32 == (b + d) % W32
  {
    assert a == b + (a / W32 - b / W32) * W32;
    assert c == d + (c / W32 - d / W32) * W32;
    Shift(b + d, (a / W32 - b / W32) + (c / W32 - d / W32));
  }

  lemma Difference(x: int, y: int)
    ensures x % W32 == y % W32 <==> (x - y) % W32 == 0
  {
    if (x - y) % W32 == 0 {
      assert x == y + ((x - y) / W32) * W32;
      Shift(y, (x - y) / W32);
    }
  }

  /** A small difference is none at all modulo 2^32 only if it is none. */
  lemma Small(d: int)
    requires 0 - W32 < d < W32
    ensures d % W32 == 0 <==> d == 0
  {
  }
}
