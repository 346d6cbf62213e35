/** Fast- and slow-path framing of Standard RDP Security, as functions on the security state. */
module RdpFraming {
  import opened Results
  import opened Bytes
  import opened RdpKeys

  const SEC_ENCRYPT := 0x0008
  const SEC_SECURE_CHECKSUM := 0x0800

  // ----- PER lengths -----

  /** Value and size of the length at the start of `buf`. */
  function PerReadLength(buf: bytes): Result<(nat, nat)>
  {
    if buf == [] then Err
    else if buf[0] >= 0x80 then
      if |buf| < 2 then Err else Ok(((buf[0] as int - 0x80) * 256 + buf[1], 2))
    else Ok((buf[0], 1))
  }

  /** Always the two-byte form; the cast to a byte drops everything above fifteen bits. */
  function PerWriteLength(len: nat): (r: bytes)
    ensures |r| == 2
  {
    [0x80 + (len / 256) % 128, len % 256]
  }

  /** A written length reads back as itself exactly when it is below 2^15. */
  lemma PerLengthRoundTrip(len: nat, rest: bytes)
    ensures PerReadLength(PerWriteLength(len) + rest) == Ok((len % 0x8000, 2))
    ensures PerReadLength(PerWriteLength(len) + rest) == Ok((len, 2)) <==> len < 0x8000
  {
    var high, low := (len / 256) % 128, len % 256;
    var buf := PerWriteLength(len) + rest;
    assert buf[0] == 0x80 + high && buf[1] == low;
    FifteenBits(len);
    hide PerWriteLength;
    assert PerReadLength(buf) == Ok((high * 256 + low, 2));
  }

  lemma FifteenBits(len: nat)
    ensures (len / 256) % 128 * 256 + len % 256 == len % 0x8000
    ensures len % 0x8000 == len <==> len < 0x8000
  {
    DigitRest(len, 128);
  }

  // ----- TPKT -----

  /** Length of the whole TPKT PDU at the start of `buf`. */
  function TpktLength(buf: bytes): (r: Option<nat>)
    ensures r.Some? ==> 4 <= r.value <= |buf|
  {
    if |buf| < 4 || buf[0] != 0x03 then None
    else
      var length := buf[2] as int * 256 + buf[3];
      if length < 4 || length > |buf| then None else Some(length)
  }

  /** `buf` is one whole TPKT PDU and nothing else. */
  ghost predicate IsTpkt(buf: bytes)
  {
    TpktLength(buf) == Some(|buf|)
  }

  lemma TpktAtStart(pdu: bytes, rest: bytes)
    requires IsTpkt(pdu)
    ensures TpktLength(pdu + rest) == Some(|pdu|)
    ensures (pdu + rest)[..|pdu|] == pdu && (pdu + rest)[|pdu|..] == rest
  {
  }

  // ----- fast path -----

  function CountInByte(header: byte): bool
  {
    (header / 4) % 32 == 0
  }

  datatype Opened = Opened(frame: bytes, mismatch: bool)

  function SealFastPath(s: Security, frame: bytes): (Security, Result<bytes>)
    requires ValidSecurity(s)
  {
    if frame == [] then (s, Err)
    else
      var header := frame[0];
      match PerReadLength(frame[1..])
      case Err => (s, Err)
      case Ok((_, lengthSize)) =>
        var payloadStart := 1 + lengthSize + (if CountInByte(header) then 1 else 0);
        if |frame| < payloadStart then (s, Err)
        else
          var plain := (if CountInByte(header) then [frame[1 + lengthSize]] else []) + frame[payloadStart..];
          var mac := SaltedMacSignature(s.p.h, s.p.signKey[..s.p.keyLen], plain, s.enc.checksumCount);
          var (enc, cipher) := Pump(s.p, s.enc, plain);
          (s.(enc := enc),
           Ok([header % 64 + 0xC0] + PerWriteLength(1 + 2 + 8 + |cipher|) + mac + cipher))
  }

  /** The signature the receiver expects for `plain`, its counter having already moved on. */
  function ExpectedMac(s: Security, salted: bool, plain: bytes): bytes
    requires ValidSecurity(s)
  {
    if salted then SaltedMacSignature(s.p.h, s.p.signKey[..s.p.keyLen], plain, (s.dec.checksumCount + WORD - 1) % WORD)
    else MacSignature(s.p.h, s.p.signKey[..s.p.keyLen], plain)
  }

  function OpenFastPath(s: Security, frame: bytes): (Security, Result<Opened>)
    requires ValidSecurity(s)
  {
    if frame == [] then (s, Err)
    else
      var header := frame[0];
      if header / 128 == 0 then (s, Ok(Opened(frame, false)))
      else
        match PerReadLength(frame[1..])
        case Err => (s, Err)
        case Ok((_, lengthSize)) =>
          var headerLen := 1 + lengthSize;
          if |frame| < headerLen + 8 then (s, Err)
          else
            var mac := frame[headerLen..headerLen + 8];
            var (dec, plain) := Pump(s.p, s.dec, frame[headerLen + 8..]);
            PumpKeepsValid(s.p, s.dec, frame[headerLen + 8..]);
            var s' := s.(dec := dec);
            var salted := HasBit(header, 0x40);
            (s', Ok(Opened([header % 64] + PerWriteLength(1 + 2 + |plain|) + plain,
                           ExpectedMac(s', salted, plain) != mac)))
  }

  // ----- slow path -----

  datatype SendData = SendData(initiator: nat, channel: nat, userData: bytes)

  datatype Outgoing = Request(data: SendData) | OtherPdu

  /** The X.224/MCS codec is library code: any partial functions. */
  datatype Codec = Codec(
    decodeOutgoing: bytes -> Option<Outgoing>,
    encodeRequest: SendData -> Option<bytes>,
    decodeIndication: bytes -> Option<SendData>,
    encodeIndication: SendData -> Option<bytes>)

  /** What one end encodes the other decodes, and every encoded PDU is one whole TPKT PDU. */
  ghost predicate Mirrors(ours: Codec, theirs: Codec)
  {
    forall d: SendData, f: bytes :: ours.encodeRequest(d) == Some(f) ==>
      theirs.decodeIndication(f) == Some(d) && IsTpkt(f)
  }

  function HeaderFlags(payload: bytes, strip: bool): (r: nat)
    ensures r < 0x1_0000
  {
    if strip && |payload| >= 4 then
      FlagsFit(FromLe(payload[..2]));
      SetBit(SetBit(FromLe(payload[..2]) % 0x1_0000, SEC_ENCRYPT), SEC_SECURE_CHECKSUM)
    else SEC_ENCRYPT + SEC_SECURE_CHECKSUM
  }

  lemma FlagsFit(f: nat)
    ensures SetBit(SetBit(f % 0x1_0000, SEC_ENCRYPT), SEC_SECURE_CHECKSUM) < 0x1_0000
  {
  }

  function Body(payload: bytes, strip: bool): bytes
  {
    if strip && |payload| >= 4 then payload[4..] else payload
  }

  /** The user data of an encrypted PDU: header, signature, cipher text. */
  function SealUserData(s: Security, payload: bytes, strip: bool): (Security, bytes)
    requires ValidSecurity(s)
  {
    var body := Body(payload, strip);
    var mac := SaltedMacSignature(s.p.h, s.p.signKey[..s.p.keyLen], body, s.enc.checksumCount);
    var (enc, cipher) := Pump(s.p, s.enc, body);
    (s.(enc := enc), Le16(HeaderFlags(payload, strip)) + Le16(0) + mac + cipher)
  }

  function SealOne(c: Codec, s: Security, frame: bytes, strip: bool): (Security, Result<bytes>)
    requires ValidSecurity(s)
  {
    match c.decodeOutgoing(frame)
    case None => (s, Err)
    case Some(OtherPdu) => (s, Ok(frame))
    case Some(Request(d)) =>
      var (s', userData) := SealUserData(s, d.userData, strip);
      match c.encodeRequest(d.(userData := userData))
      case None => (s', Err)
      case Some(f) => (s', Ok(f))
  }

  lemma SealOneKeepsValid(c: Codec, s: Security, frame: bytes, strip: bool)
    requires ValidSecurity(s)
    ensures ValidSecurity(SealOne(c, s, frame, strip).0)
  {
    hide ValidDirection, Pump;
    match c.decodeOutgoing(frame)
    case None =>
    case Some(OtherPdu) =>
    case Some(Request(d)) => PumpKeepsValid(s.p, s.enc, Body(d.userData, strip));
  }

  function Prepend(b: bytes, r: Result<bytes>): Result<bytes>
  {
    match r case Ok(x) => Ok(b + x) case Err => Err
  }

  lemma PrependTwice(a: bytes, b: bytes, r: Result<bytes>)
    ensures Prepend(a, Prepend(b, r)) == Prepend(a + b, r)
    ensures Prepend([], r) == r
  {
    if r.Ok? {
      assert a + (b + r.value) == (a + b) + r.value;
      assert [] + r.value == r.value;
    }
  }

  /** A buffer of concatenated PDUs, encrypted one by one; what is not a whole PDU is kept. */
  function SealSlowPath(c: Codec, s: Security, frame: bytes, strip: bool): (Security, Result<bytes>)
    requires ValidSecurity(s)
    decreases |frame|
  {
    match TpktLength(frame)
    case None => (s, Ok(frame))
    case Some(n) =>
      SealOneKeepsValid(c, s, frame[..n], strip);
      var (s', one) := SealOne(c, s, frame[..n], strip);
      match one
      case Err => (s', Err)
      case Ok(b) =>
        var (s'', rest) := SealSlowPath(c, s', frame[n..], strip);
        (s'', Prepend(b, rest))
  }

  function OpenUserData(s: Security, userData: bytes, prepend: bool): (r: (Security, bytes, bool))
    requires ValidSecurity(s) && |userData| >= 12
  {
    var flags := FromLe(userData[..2]);
    var mac := userData[4..12];
    var (dec, plain) := Pump(s.p, s.dec, userData[12..]);
    PumpKeepsValid(s.p, s.dec, userData[12..]);
    var s' := s.(dec := dec);
    var header := if prepend then Le16(ClearBit(flags, SEC_ENCRYPT)) + userData[2..4] else [];
    (s', header + plain, ExpectedMac(s', HasBit(flags, SEC_SECURE_CHECKSUM), plain) != mac)
  }

  function OpenSlowPath(c: Codec, s: Security, frame: bytes, prepend: bool): (Security, Result<Opened>)
    requires ValidSecurity(s)
  {
    match c.decodeIndication(frame)
    case None => (s, Err)
    case Some(d) =>
      if |d.userData| < 12 || !HasBit(FromLe(d.userData[..2]), SEC_ENCRYPT) then (s, Ok(Opened(frame, false)))
      else
        var (s', rebuilt, mismatch) := OpenUserData(s, d.userData, prepend);
        match c.encodeIndication(d.(userData := rebuilt))
        case None => (s', Err)
        case Some(f) => (s', Ok(Opened(f, mismatch)))
  }

  // ----- either path -----

  predicate IsSlow(frame: bytes) {
    frame != [] && frame[0] == 0x03
  }

  function SealFrame(c: Codec, s: Security, frame: bytes): (Security, Result<bytes>)
    requires ValidSecurity(s)
  {
    if IsSlow(frame) then SealSlowPath(c, s, frame, false) else SealFastPath(s, frame)
  }

  function OpenFrame(c: Codec, s: Security, frame: bytes): (Security, Result<Opened>)
    requires ValidSecurity(s)
  {
    if IsSlow(frame) then OpenSlowPath(c, s, frame, false) else OpenFastPath(s, frame)
  }
}
