/** `struct RdpSecurity`: the object the session loop encrypts and decrypts with. Every method is
    proved against the functions of `RdpKeys` and `RdpFraming`. */
module RdpSecurity {
  import opened Results
  import opened Bytes
  import opened RdpKeys
  import opened RdpFraming

  method CopyToArray(b: bytes) returns (a: array<byte>)
    ensures fresh(a) && a[..] == b
  {
    a := new byte[|b|](k requires 0 <= k < |b| => b[k]);
  }

  /** The loop of `encrypt_slow_path` at `offset`: the answer is `out` and then whatever the rest
      of the frame gives from state `s`. */
  ghost predicate Remains(c: Codec, s0: Security, frame: bytes, strip: bool, s: Security, out: bytes, offset: nat)
    requires ValidSecurity(s0) && ValidSecurity(s) && offset <= |frame|
  {
    var (t, rest) := SealSlowPath(c, s, frame[offset..], strip);
    SealSlowPath(c, s0, frame, strip) == (t, Prepend(out, rest))
  }

  lemma RemainsAtStart(c: Codec, s0: Security, frame: bytes, strip: bool)
    requires ValidSecurity(s0)
    ensures Remains(c, s0, frame, strip, s0, [], 0)
  {
    hide SealSlowPath, ValidSecurity;
    assert frame[0..] == frame;
    PrependTwice([], [], SealSlowPath(c, s0, frame, strip).1);
  }

  lemma {:induction false} RemainsStep(c: Codec, s0: Security, frame: bytes, strip: bool, s: Security, out: bytes, offset: nat)
    requires ValidSecurity(s0) && ValidSecurity(s) && offset <= |frame|
    requires Remains(c, s0, frame, strip, s, out, offset)
    ensures var length := TpktLength(frame[offset..]);
            match length
            case None => SealSlowPath(c, s0, frame, strip) == (s, Ok(out + frame[offset..]))
            case Some(n) =>
              var (s', one) := SealOne(c, s, frame[offset..offset + n], strip);
              && ValidSecurity(s')
              && (one.Err? ==> SealSlowPath(c, s0, frame, strip) == (s', Err))
              && (one.Ok? ==> Remains(c, s0, frame, strip, s', out + one.value, offset + n))
  {
    hide SealOne, ValidSecurity, TpktLength;
    var rest := frame[offset..];
    match TpktLength(rest)
    case None =>
    case Some(n) =>
      assert rest[..n] == frame[offset..offset + n] && rest[n..] == frame[offset + n..];
      SealOneKeepsValid(c, s, rest[..n], strip);
      var (s', one) := SealOne(c, s, rest[..n], strip);
      if one.Ok? {
        PrependTwice(out, one.value, SealSlowPath(c, s', rest[n..], strip).1);
      }
  }

  lemma RemainsNothing(c: Codec, s0: Security, frame: bytes, strip: bool, s: Security, out: bytes)
    requires ValidSecurity(s0) && ValidSecurity(s)
    requires Remains(c, s0, frame, strip, s, out, |frame|)
    ensures SealSlowPath(c, s0, frame, strip) == (s, Ok(out))
  {
    assert frame[|frame|..] == [] && out + [] == out;
  }

  class Stream {
    const p: Params
    const codec: Codec
    const encryptUpdateKey: Key
    const decryptUpdateKey: Key
    const encryptKey: array<byte>
    const decryptKey: array<byte>
    var rc4Encrypt: Rc4.Cipher
    var rc4Decrypt: Rc4.Cipher
    var encryptUseCount: nat
    var decryptUseCount: nat
    var encryptChecksumUseCount: nat
    var decryptChecksumUseCount: nat

    ghost function Repr(): set<object>
      reads this
    {
      {this, encryptKey, decryptKey, rc4Encrypt, rc4Encrypt.state, rc4Decrypt, rc4Decrypt.state}
    }

    /** The keys and ciphers are six different objects of the right sizes. */
    ghost predicate Shape()
      reads this, Repr()
    {
      && encryptKey.Length == 16 && decryptKey.Length == 16 && encryptKey != decryptKey
      && rc4Encrypt != rc4Decrypt && rc4Encrypt.state != rc4Decrypt.state
      && rc4Encrypt.state != encryptKey && rc4Encrypt.state != decryptKey
      && rc4Decrypt.state != encryptKey && rc4Decrypt.state != decryptKey
      && rc4Encrypt.Valid() && rc4Decrypt.Valid()
    }

    ghost function Enc(): Direction
      requires Shape()
      reads this, Repr()
    {
      Direction(encryptKey[..], encryptUpdateKey, rc4Encrypt.Contents(), encryptUseCount, encryptChecksumUseCount)
    }

    ghost function Dec(): Direction
      requires Shape()
      reads this, Repr()
    {
      Direction(decryptKey[..], decryptUpdateKey, rc4Decrypt.Contents(), decryptUseCount, decryptChecksumUseCount)
    }

    ghost function State(): Security
      requires Shape()
      reads this, Repr()
    {
      Security(p, Enc(), Dec())
    }

    ghost predicate Valid()
      reads this, Repr()
    {
      Shape() && ValidSecurity(State())
    }

    constructor (h: Hashes, codec: Codec, client: Random, server: Random, m: Method)
      ensures Valid() && fresh(Repr())
      ensures State() == Establish(h, client, server, m) && this.codec == codec
    {
      hide Rc4.Init, SaltedHash, Md5Of3, Cut, SessionKeyBlob;
      var blob := SessionKeyBlob(h, client, server);
      var keyLen := KeyLength(m);
      var dec := Cut(Md5Of3(h, blob[16..32], client, server), m);
      var enc := Cut(Md5Of3(h, blob[32..48], client, server), m);
      this.codec := codec;
      p := Params(h, m, keyLen, Cut(blob[..16], m));
      encryptUpdateKey, decryptUpdateKey := enc, dec;
      var ek := CopyToArray(enc);
      var dk := CopyToArray(dec);
      encryptKey, decryptKey := ek, dk;
      rc4Encrypt := new Rc4.Cipher(enc[..keyLen]);
      rc4Decrypt := new Rc4.Cipher(dec[..keyLen]);
      encryptUseCount, decryptUseCount := 0, 0;
      encryptChecksumUseCount, decryptChecksumUseCount := 0, 0;
      new;
      assert Shape();
      assert Enc() == NewDirection(p, enc) && Dec() == NewDirection(p, dec);
    }

    /** The key update, when the next packet finds one due. */
    method UpdateEncryptKey()
      requires Valid()
      modifies Repr()
      ensures Shape() && fresh(Repr() - old(Repr()))
      ensures Dec() == old(Dec()) && Enc() == Rekey(p, old(Enc()))
    {
      hide Rc4.Init, UpdatedKey, Rc4.Ready;
      if encryptUseCount >= KEY_UPDATE_INTERVAL {
        UpdateKey(p, encryptUpdateKey, encryptKey);
        rc4Encrypt := new Rc4.Cipher(encryptKey[..p.keyLen]);
        encryptUseCount := 0;
      }
    }

    method EncryptRc4(data: array<byte>)
      requires Valid() && data !in Repr()
      modifies Repr(), data
      ensures Valid() && fresh(Repr() - old(Repr()))
      ensures Dec() == old(Dec())
      ensures (Enc(), data[..]) == Pump(p, old(Enc()), old(data[..]))
    {
      hide Rc4.Mask, Rc4.Advance, Rekey, Rc4.Ready;
      ghost var d0, x0 := Enc(), data[..];
      UpdateEncryptKey();
      rc4Encrypt.Transform(data);
      encryptUseCount := encryptUseCount + 1;
      encryptChecksumUseCount := (encryptChecksumUseCount + 1) % WORD;
      PumpKeepsValid(p, d0, x0);
    }

    /** The key update, when the next packet finds one due. */
    method UpdateDecryptKey()
      requires Valid()
      modifies Repr()
      ensures Shape() && fresh(Repr() - old(Repr()))
      ensures Enc() == old(Enc()) && Dec() == Rekey(p, old(Dec()))
    {
      hide Rc4.Init, UpdatedKey, Rc4.Ready;
      if decryptUseCount >= KEY_UPDATE_INTERVAL {
        UpdateKey(p, decryptUpdateKey, decryptKey);
        rc4Decrypt := new Rc4.Cipher(decryptKey[..p.keyLen]);
        decryptUseCount := 0;
      }
    }

    method DecryptRc4(data: array<byte>)
      requires Valid() && data !in Repr()
      modifies Repr(), data
      ensures Valid() && fresh(Repr() - old(Repr()))
      ensures Enc() == old(Enc())
      ensures (Dec(), data[..]) == Pump(p, old(Dec()), old(data[..]))
    {
      hide Rc4.Mask, Rc4.Advance, Rekey, Rc4.Ready;
      ghost var d0, x0 := Dec(), data[..];
      UpdateDecryptKey();
      rc4Decrypt.Transform(data);
      decryptUseCount := decryptUseCount + 1;
      decryptChecksumUseCount := (decryptChecksumUseCount + 1) % WORD;
      PumpKeepsValid(p, d0, x0);
    }

    /** `encrypt_rc4` on a copy, as every caller uses it. */
    method Encrypt(plain: bytes) returns (cipher: bytes)
      requires Valid()
      modifies Repr()
      ensures Valid() && fresh(Repr() - old(Repr()))
      ensures (State(), cipher)
              == (old(State()).(enc := Pump(p, old(State().enc), plain).0), Pump(p, old(State().enc), plain).1)
    {
      hide Pump, ValidSecurity;
      var buf := CopyToArray(plain);
      EncryptRc4(buf);
      cipher := buf[..];
    }

    method Decrypt(cipher: bytes) returns (plain: bytes)
      requires Valid()
      modifies Repr()
      ensures Valid() && fresh(Repr() - old(Repr()))
      ensures (State(), plain)
              == (old(State()).(dec := Pump(p, old(State().dec), cipher).0), Pump(p, old(State().dec), cipher).1)
    {
      hide Pump, ValidSecurity;
      var buf := CopyToArray(cipher);
      DecryptRc4(buf);
      plain := buf[..];
    }

    method EncryptFastPath(frame: bytes) returns (r: Result<bytes>)
      requires Valid()
      modifies Repr()
      ensures Valid() && fresh(Repr() - old(Repr()))
      ensures (State(), r) == SealFastPath(old(State()), frame)
    {
      hide Pump, SaltedMacSignature, ValidDirection, Shape;
      if frame == [] { return Err; }
      var header := frame[0];
      var read := PerReadLength(frame[1..]);
      if read.Err? { return Err; }
      var lengthSize := read.value.1;
      var hasNumEventsByte := CountInByte(header);
      var payloadStart := 1 + lengthSize + if hasNumEventsByte then 1 else 0;
      if |frame| < payloadStart { return Err; }
      var plain := (if hasNumEventsByte then [frame[1 + lengthSize]] else []) + frame[payloadStart..];
      var mac := SaltedMacSignature(p.h, p.signKey[..p.keyLen], plain, encryptChecksumUseCount);
      var cipher := Encrypt(plain);
      r := Ok([header % 64 + 0xC0] + PerWriteLength(1 + 2 + 8 + |cipher|) + mac + cipher);
    }

    method DecryptFastPath(frame: bytes) returns (r: Result<Opened>)
      requires Valid()
      modifies Repr()
      ensures Valid() && fresh(Repr() - old(Repr()))
      ensures (State(), r) == OpenFastPath(old(State()), frame)
    {
      hide Pump, ExpectedMac, ValidDirection, Shape;
      if frame == [] { return Err; }
      var header := frame[0];
      if header / 128 == 0 { return Ok(Opened(frame, false)); }
      var read := PerReadLength(frame[1..]);
      if read.Err? { return Err; }
      var headerLen := 1 + read.value.1;
      if |frame| < headerLen + 8 { return Err; }
      var mac := frame[headerLen..headerLen + 8];
      var plain := Decrypt(frame[headerLen + 8..]);
      var mismatch := Mismatch(HasBit(header, 0x40), plain, mac);
      r := Ok(Opened([header % 64] + PerWriteLength(1 + 2 + |plain|) + plain, mismatch));
    }

    /** The signature check after a packet was decrypted; a mismatch is only reported. */
    method Mismatch(salted: bool, plain: bytes, mac: bytes) returns (b: bool)
      requires Valid()
      ensures b <==> ExpectedMac(State(), salted, plain) != mac
    {
      hide Pump, SaltedMacSignature, MacSignature;
      var signKey := p.signKey[..p.keyLen];
      var expected := if salted
                      then SaltedMacSignature(p.h, signKey, plain, (decryptChecksumUseCount + WORD - 1) % WORD)
                      else MacSignature(p.h, signKey, plain);
      b := expected != mac;
    }

    method EncryptOneSlowPath(frame: bytes, strip: bool) returns (r: Result<bytes>)
      requires Valid()
      modifies Repr()
      ensures Valid() && fresh(Repr() - old(Repr()))
      ensures (State(), r) == SealOne(codec, old(State()), frame, strip)
    {
      hide Pump, SaltedMacSignature, ValidDirection, Shape, HeaderFlags;
      match codec.decodeOutgoing(frame)
      case None => r := Err;
      case Some(OtherPdu) => r := Ok(frame);
      case Some(Request(d)) =>
        var flags := HeaderFlags(d.userData, strip);
        var body := Body(d.userData, strip);
        var mac := SaltedMacSignature(p.h, p.signKey[..p.keyLen], body, encryptChecksumUseCount);
        var cipher := Encrypt(body);
        var encoded := codec.encodeRequest(d.(userData := Le16(flags) + Le16(0) + mac + cipher));
        r := if encoded.None? then Err else Ok(encoded.value);
    }

    method EncryptSlowPath(frame: bytes, strip: bool) returns (r: Result<bytes>)
      requires Valid()
      modifies Repr()
      ensures Valid() && fresh(Repr() - old(Repr()))
      ensures (State(), r) == SealSlowPath(codec, old(State()), frame, strip)
    {
      hide SealSlowPath, SealOne, ValidSecurity, Shape, Remains;
      var out: bytes := [];
      var offset := 0;
      ghost var s0 := State();
      RemainsAtStart(codec, s0, frame, strip);
      while offset < |frame|
        invariant 0 <= offset <= |frame|
        invariant Valid() && fresh(Repr() - old(Repr()))
        invariant Remains(codec, s0, frame, strip, State(), out, offset)
      {
        RemainsStep(codec, s0, frame, strip, State(), out, offset);
        var length := TpktLength(frame[offset..]);
        if length.None? {
          return Ok(out + frame[offset..]);
        }
        var one := EncryptOneSlowPath(frame[offset..offset + length.value], strip);
        if one.Err? {
          return Err;
        }
        out := out + one.value;
        offset := offset + length.value;
      }
      RemainsNothing(codec, s0, frame, strip, State(), out);
      r := Ok(out);
    }

    method DecryptSlowPath(frame: bytes, prepend: bool) returns (r: Result<Opened>)
      requires Valid()
      modifies Repr()
      ensures Valid() && fresh(Repr() - old(Repr()))
      ensures (State(), r) == OpenSlowPath(codec, old(State()), frame, prepend)
    {
      hide Pump, ExpectedMac, ValidDirection, Shape, ClearBit;
      match codec.decodeIndication(frame)
      case None => r := Err;
      case Some(d) =>
        var userData := d.userData;
        if |userData| < 12 { return Ok(Opened(frame, false)); }
        var flags := FromLe(userData[..2]);
        if !HasBit(flags, SEC_ENCRYPT) { return Ok(Opened(frame, false)); }
        var mac := userData[4..12];
        var plain := Decrypt(userData[12..]);
        var mismatch := Mismatch(HasBit(flags, SEC_SECURE_CHECKSUM), plain, mac);
        var header := if prepend then Le16(ClearBit(flags, SEC_ENCRYPT)) + userData[2..4] else [];
        var encoded := codec.encodeIndication(d.(userData := header + plain));
        r := if encoded.None? then Err else Ok(Opened(encoded.value, mismatch));
    }

    method EncryptFrame(frame: bytes) returns (r: Result<bytes>)
      requires Valid()
      modifies Repr()
      ensures Valid() && fresh(Repr() - old(Repr()))
      ensures (State(), r) == SealFrame(codec, old(State()), frame)
    {
      hide SealSlowPath, SealFastPath;
      if IsSlow(frame) {
        r := EncryptSlowPath(frame, false);
      } else {
        r := EncryptFastPath(frame);
      }
    }

    method DecryptFrame(frame: bytes) returns (r: Result<Opened>)
      requires Valid()
      modifies Repr()
      ensures Valid() && fresh(Repr() - old(Repr()))
      ensures (State(), r) == OpenFrame(codec, old(State()), frame)
    {
      hide OpenSlowPath, OpenFastPath;
      if IsSlow(frame) {
        r := DecryptSlowPath(frame, false);
      } else {
        r := DecryptFastPath(frame);
      }
    }
  }
}
