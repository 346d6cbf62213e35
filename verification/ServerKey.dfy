/** The server's proprietary certificate and the raw RSA operation on the client random. */
module ServerKey {
  import opened Results
  import opened Bytes

  const RSA1: bytes := [0x52, 0x53, 0x41, 0x31]

  datatype PublicKey = PublicKey(modulus: nat, exponent: nat, modulusLen: nat)

  function U32(cert: bytes, at: nat): nat
    requires at + 4 <= |cert|
  {
    FromLe(cert[at..at + 4])
  }

  function SaturatingPred(n: nat): nat {
    if n == 0 then 0 else n - 1
  }

  function Parse(cert: bytes): (r: Result<PublicKey>)
    ensures r.Ok? ==> r.value.modulusLen > 0 && r.value.modulus < Pow256(r.value.modulusLen)
  {
    if |cert| < 36 then Err
    else if U32(cert, 0) != 1 then Err
    else if U32(cert, 4) != 1 || U32(cert, 8) != 1 then Err
    else if FromLe(cert[12..14]) != 0x0006 then Err
    else if cert[16..20] != RSA1 then Err
    else
      var keyLen, bitLen, dataLen := U32(cert, 20), U32(cert, 24), U32(cert, 28);
      if keyLen <= 8 || keyLen != bitLen / 8 + 8 then Err
      else if dataLen != SaturatingPred(bitLen / 8) then Err
      else
        var modulusLen := keyLen - 8;
        var modulusEnd := 36 + modulusLen;
        if |cert| < modulusEnd + 8 then Err
        else
          FromLeBound(cert[36..modulusEnd]);
          Ok(PublicKey(FromLe(cert[36..modulusEnd]), FromLe(cert[32..36]), modulusLen))
  }

  lemma {:induction false} FromLeBound(b: bytes)
    ensures FromLe(b) < Pow256(|b|)
  {
    if b != [] {
      FromLeBound(b[1..]);
    }
  }

  // ----- the layout, read the other way: building a certificate -----

  /** The fields a certificate is free to choose. */
  datatype Fields = Fields(blobLen: bytes, bitRest: nat, exponent: bytes, modulus: bytes, tail: bytes)

  predicate ValidFields(f: Fields)
  {
    && |f.blobLen| == 2 && f.bitRest < 8 && |f.exponent| == 4 && |f.tail| >= 8
    && 0 < |f.modulus| && 8 * |f.modulus| + f.bitRest < 0x1_0000_0000
  }

  function Header(f: Fields): (b: bytes)
    requires ValidFields(f)
    ensures |b| == 32
  {
    Le32(1) + Le32(1) + Le32(1) + Le16(6) + f.blobLen + RSA1
    + Le32(|f.modulus| + 8) + Le32(8 * |f.modulus| + f.bitRest) + Le32(|f.modulus| - 1)
  }

  function Build(f: Fields): bytes
    requires ValidFields(f)
  {
    Header(f) + f.exponent + f.modulus + f.tail
  }

  lemma WordHolds(n: nat)
    requires n < 0x1_0000_0000
    ensures FromLe(Le32(n)) == n
  {
    LeRoundTrip(n, 4);
    Pow256Values();
  }

  lemma HeaderWords(f: Fields)
    requires ValidFields(f)
    ensures var h := Header(f);
            && U32(h, 0) == 1 && U32(h, 4) == 1 && U32(h, 8) == 1 && FromLe(h[12..14]) == 6
            && h[14..16] == f.blobLen && h[16..20] == RSA1
            && U32(h, 20) == |f.modulus| + 8 && U32(h, 24) == 8 * |f.modulus| + f.bitRest
            && U32(h, 28) == |f.modulus| - 1
  {
    hide ToLe, FromLe;
    var h := Header(f);
    WordHolds(1);
    WordHolds(|f.modulus| + 8);
    WordHolds(8 * |f.modulus| + f.bitRest);
    WordHolds(|f.modulus| - 1);
    LeRoundTrip(6, 2);
    Pow256Values();
    assert h[0..4] == Le32(1) && h[4..8] == Le32(1) && h[8..12] == Le32(1) && h[12..14] == Le16(6);
    assert h[14..16] == f.blobLen && h[16..20] == RSA1;
    assert h[20..24] == Le32(|f.modulus| + 8);
    assert h[24..28] == Le32(8 * |f.modulus| + f.bitRest);
    assert h[28..] == Le32(|f.modulus| - 1) && h[28..32] == h[28..];
  }

  lemma HeaderOfBuild(f: Fields, at: nat, len: nat)
    requires ValidFields(f) && at + len <= 32
    ensures Build(f)[at..at + len] == Header(f)[at..at + len]
  {
  }

  /** A certificate built from any fields parses to exactly its exponent and modulus. */
  lemma ParseBuilt(f: Fields)
    requires ValidFields(f)
    ensures Parse(Build(f)) == Ok(PublicKey(FromLe(f.modulus), FromLe(f.exponent), |f.modulus|))
  {
    hide Header, FromLe;
    var cert := Build(f);
    HeaderWords(f);
    HeaderOfBuild(f, 0, 4);
    HeaderOfBuild(f, 4, 4);
    HeaderOfBuild(f, 8, 4);
    HeaderOfBuild(f, 12, 2);
    HeaderOfBuild(f, 16, 4);
    HeaderOfBuild(f, 20, 4);
    HeaderOfBuild(f, 24, 4);
    HeaderOfBuild(f, 28, 4);
    assert cert[32..36] == f.exponent && cert[36..36 + |f.modulus|] == f.modulus;
  }

  /** The fields of an accepted certificate. */
  function FieldsOf(cert: bytes): Fields
    requires Parse(cert).Ok?
  {
    var modulusEnd := 36 + (U32(cert, 20) - 8);
    Fields(cert[14..16], U32(cert, 24) % 8, cert[32..36], cert[36..modulusEnd], cert[modulusEnd..])
  }

  lemma WordIs(b: bytes, n: nat)
    requires |b| == 4 && FromLe(b) == n
    ensures b == Le32(n) && n < 0x1_0000_0000
  {
    FromLeBound(b);
    Pow256Values();
    ToLeOfFromLe(b);
  }

  lemma {:induction false} ToLeOfFromLe(b: bytes)
    ensures ToLe(FromLe(b), |b|) == b
  {
    if b != [] {
      ToLeOfFromLe(b[1..]);
      assert FromLe(b) % 256 == b[0] && FromLe(b) / 256 == FromLe(b[1..]);
    }
  }

  /** Nothing else is accepted: an accepted certificate is the one built from its own fields. */
  lemma AcceptedIsBuilt(cert: bytes)
    requires Parse(cert).Ok?
    ensures ValidFields(FieldsOf(cert)) && Build(FieldsOf(cert)) == cert
  {
    hide FromLe, ToLe;
    var f := FieldsOf(cert);
    WordIs(cert[0..4], 1);
    WordIs(cert[4..8], 1);
    WordIs(cert[8..12], 1);
    ToLeOfFromLe(cert[12..14]);
    WordIs(cert[20..24], |f.modulus| + 8);
    WordIs(cert[24..28], 8 * |f.modulus| + f.bitRest);
    WordIs(cert[28..32], |f.modulus| - 1);
    assert cert[..32] == Header(f) by {
      assert cert[..32] == cert[0..4] + cert[4..8] + cert[8..12] + cert[12..14] + cert[14..16] + cert[16..20]
                           + cert[20..24] + cert[24..28] + cert[28..32];
    }
    assert cert == cert[..32] + cert[32..36] + cert[36..36 + |f.modulus|] + cert[36 + |f.modulus|..];
  }

  // ----- the RSA operation -----

  function Power(m: nat, e: nat): nat
  {
    if e == 0 then 1 else m * Power(m, e - 1)
  }

  /** Little-endian bytes without redundant zeros; one byte for zero. */
  function ToBytesLe(n: nat): bytes
  {
    if n < 256 then [n] else [n % 256] + ToBytesLe(n / 256)
  }

  /** `Vec::resize` with zeros, which truncates a longer vector. */
  function Resize(b: bytes, len: nat): (r: bytes)
    ensures |r| == len
  {
    if |b| >= len then b[..len] else b + seq(len - |b|, _ => 0)
  }

  lemma {:induction false} ToBytesLeValue(n: nat)
    ensures FromLe(ToBytesLe(n)) == n
  {
    if n < 256 {
      assert FromLe([n]) == n + 256 * FromLe([]) by { assert [n][1..] == []; }
    } else {
      ToBytesLeValue(n / 256);
      assert ToBytesLe(n)[1..] == ToBytesLe(n / 256);
    }
  }

  lemma {:induction false} ToBytesLeFits(n: nat, k: nat)
    requires k > 0 && n < Pow256(k)
    ensures |ToBytesLe(n)| <= k
  {
    if n >= 256 {
      assert k > 1 by {
        Pow256Values();
      }
      ToBytesLeFits(n / 256, k - 1);
    }
  }

  lemma {:induction false} PaddingKeepsValue(b: bytes, zeros: nat)
    ensures FromLe(b + seq(zeros, _ => 0)) == FromLe(b)
  {
    var z: bytes := seq(zeros, _ => 0);
    if b != [] {
      PaddingKeepsValue(b[1..], zeros);
      assert (b + z)[1..] == b[1..] + z;
    } else {
      assert b + z == z;
      ZerosAreZero(z);
    }
  }

  lemma {:induction false} ZerosAreZero(z: bytes)
    requires forall k :: 0 <= k < |z| ==> z[k] == 0
    ensures FromLe(z) == 0
  {
    if z != [] {
      ZerosAreZero(z[1..]);
    }
  }

  /** `n` in exactly `k` bytes: when `n` fits, the resize only ever pads. */
  function LeResized(n: nat, k: nat): (out: bytes)
    requires k > 0 && n < Pow256(k)
    ensures |out| == k && FromLe(out) == n
  {
    ToBytesLeValue(n);
    ToBytesLeFits(n, k);
    PaddingKeepsValue(ToBytesLe(n), k - |ToBytesLe(n)|);
    assert ToBytesLe(n) + [] == ToBytesLe(n);
    Resize(ToBytesLe(n), k)
  }

  /** The residue of the message: `m^e mod n`. */
  function ModPow(m: nat, e: nat, n: nat): (r: nat)
    requires n > 0
    ensures r < n
  {
    Power(m, e) % n
  }

  /** With a parsed key the result has the length of the modulus and is `m^e mod n`. */
  function Encrypt(key: PublicKey, message: bytes): (out: bytes)
    requires key.modulus > 0 && key.modulusLen > 0 && key.modulus < Pow256(key.modulusLen)
    ensures |out| == key.modulusLen
    ensures FromLe(out) == ModPow(FromLe(message), key.exponent, key.modulus)
  {
    LeResized(ModPow(FromLe(message), key.exponent, key.modulus), key.modulusLen)
  }
}
