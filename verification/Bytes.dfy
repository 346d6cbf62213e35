/** Repeated application of a step function. */
module Iteration {

  function Iterate<T>(f: T -> T, x: T, n: nat): T
  {
    if n == 0 then x else f(Iterate(f, x, n - 1))
  }

  lemma {:induction false} IterateAdds<T>(f: T -> T, x: T, m: nat, n: nat)
    ensures Iterate(f, x, m + n) == Iterate(f, Iterate(f, x, m), n)
  {
    if n > 0 {
      IterateAdds(f, x, m, n - 1);
    }
  }
}

/** Bytes, fixed-width integer layouts and the exclusive-or of the stream cipher. */
module Bytes {

  type byte = x: int | 0 <= x < 256

  type bytes = seq<byte>

  /** What 32 bits can count. */
  const WORD := 0x1_0000_0000

  /** Exclusive-or of the `k` low bits: the sum of two bits modulo two, bit by bit. */
  function XorBits(a: nat, b: nat, k: nat): nat
  {
    if k == 0 then 0 else (a + b) % 2 + 2 * XorBits(a / 2, b / 2, k - 1)
  }

  function Pow2(k: nat): nat {
    if k == 0 then 1 else 2 * Pow2(k - 1)
  }

  lemma {:induction false} XorBitsBound(a: nat, b: nat, k: nat)
    ensures XorBits(a, b, k) < Pow2(k)
  {
    if k > 0 {
      XorBitsBound(a / 2, b / 2, k - 1);
    }
  }

  lemma ParityTwice(a: nat, b: nat, y: nat)
    ensures ((a + b) % 2 + 2 * y + b) % 2 == a % 2
    ensures ((a + b) % 2 + 2 * y) / 2 == y
  {
  }

  lemma {:induction false} XorBitsTwice(a: nat, b: nat, k: nat)
    requires a < Pow2(k)
    ensures XorBits(XorBits(a, b, k), b, k) == a
  {
    if k > 0 {
      var y := XorBits(a / 2, b / 2, k - 1);
      ParityTwice(a, b, y);
      XorBitsTwice(a / 2, b / 2, k - 1);
      assert XorBits(XorBits(a, b, k), b, k) == a % 2 + 2 * XorBits(y, b / 2, k - 1);
    }
  }

  lemma Pow2Of8()
    ensures Pow2(8) == 256
  {
    assert Pow2(4) == 16;
    assert Pow2(6) == 64;
  }

  function Xor(a: byte, b: byte): byte
  {
    XorBitsBound(a, b, 8);
    Pow2Of8();
    XorBits(a, b, 8)
  }

  lemma XorTwice(a: byte, b: byte)
    ensures Xor(Xor(a, b), b) == a
  {
    Pow2Of8();
    XorBitsTwice(a, b, 8);
  }

  // ----- single-bit masks of an unsigned word (mask is the weight of one bit) -----

  predicate HasBit(word: nat, mask: nat)
    requires mask > 0
  {
    (word / mask) % 2 == 1
  }

  /** `word | mask` for a one-bit mask. */
  function SetBit(word: nat, mask: nat): nat
    requires mask > 0
  {
    if HasBit(word, mask) then word else word + mask
  }

  /** `word & !mask` for a one-bit mask. */
  function ClearBit(word: nat, mask: nat): nat
    requires mask > 0
  {
    if HasBit(word, mask) then word - mask else word
  }

  // ----- little- and big-endian words -----

  function Pow256(k: nat): (r: nat)
    ensures r > 0
  {
    if k == 0 then 1 else 256 * Pow256(k - 1)
  }

  /** The low `k` bytes of `n`, least significant first. */
  function ToLe(n: nat, k: nat): (b: bytes)
    ensures |b| == k
  {
    if k == 0 then [] else [n % 256] + ToLe(n / 256, k - 1)
  }

  /** The number a little-endian byte string denotes. */
  function FromLe(b: bytes): nat
  {
    if b == [] then 0 else b[0] as int + 256 * FromLe(b[1..])
  }

  /** The low `k` bytes of `n`, most significant first. */
  function ToBe(n: nat, k: nat): (b: bytes)
    ensures |b| == k
  {
    if k == 0 then [] else ToBe(n / 256, k - 1) + [n % 256]
  }

  /** The number a big-endian byte string denotes. */
  function FromBe(b: bytes): nat
  {
    if b == [] then 0 else 256 * FromBe(b[..|b| - 1]) + b[|b| - 1] as int
  }

  lemma {:induction false} DigitRest(n: nat, m: nat)
    requires m > 0
    ensures n % 256 + 256 * ((n / 256) % m) == n % (256 * m)
  {
    var q, r := n / 256, n % 256;
    var u, v := q / m, q % m;
    assert n == 256 * q + r;
    assert q == m * u + v;
    assert n == (256 * m) * u + (256 * v + r) by {
      assert 256 * (m * u) == (256 * m) * u;
    }
    assert 256 * v + r < 256 * m;
    ModUnique(n, 256 * m, u, 256 * v + r);
  }

  lemma AtLeastOnce(d: int, x: int)
    requires d > 0
    ensures x >= 1 ==> d * x >= d
    ensures x <= -1 ==> d * x <= -d
  {
    if x >= 1 {
      assert d * x == d + d * (x - 1);
    } else if x <= -1 {
      assert d * x == -d + d * (x + 1);
    }
  }

  lemma {:induction false} ModUnique(n: nat, d: nat, q: nat, r: nat)
    requires d > 0 && r < d && n == d * q + r
    ensures n % d == r && n / d == q
  {
    var q', r' := n / d, n % d;
    assert d * (q - q') == r' - r;
    AtLeastOnce(d, q - q');
  }

  /** `k` bytes keep exactly the low `8k` bits. */
  lemma {:induction false} LeRoundTrip(n: nat, k: nat)
    ensures FromLe(ToLe(n, k)) == n % Pow256(k)
  {
    if k > 0 {
      LeRoundTrip(n / 256, k - 1);
      assert ToLe(n, k)[1..] == ToLe(n / 256, k - 1);
      DigitRest(n, Pow256(k - 1));
    }
  }

  lemma {:induction false} BeRoundTrip(n: nat, k: nat)
    ensures FromBe(ToBe(n, k)) == n % Pow256(k)
  {
    if k > 0 {
      BeRoundTrip(n / 256, k - 1);
      assert ToBe(n, k)[..k - 1] == ToBe(n / 256, k - 1);
      DigitRest(n, Pow256(k - 1));
    }
  }

  lemma Pow256Values()
    ensures Pow256(1) == 0x100 && Pow256(2) == 0x1_0000 && Pow256(4) == 0x1_0000_0000
  {
    assert Pow256(2) == 0x1_0000;
    assert Pow256(3) == 0x100_0000;
  }

  function Le16(n: nat): bytes { ToLe(n, 2) }

  function Le32(n: nat): bytes { ToLe(n, 4) }

  function Be32(n: nat): bytes { ToBe(n, 4) }

  // ----- parts -----

  function Flatten(parts: seq<bytes>): bytes
  {
    if parts == [] then [] else parts[0] + Flatten(parts[1..])
  }

  lemma {:induction false} FlattenAppend(parts: seq<bytes>, last: bytes)
    ensures Flatten(parts + [last]) == Flatten(parts) + last
  {
    if parts != [] {
      FlattenAppend(parts[1..], last);
      assert (parts + [last])[1..] == parts[1..] + [last];
    }
  }
}
