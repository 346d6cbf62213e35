/** What a mirrored peer sees: every frame of every run decrypts to the frame that was sent. */
module RdpRuns {
  import opened Results
  import opened Bytes
  import opened RdpKeys
  import opened RdpFraming

  /** The peer decrypts with what we encrypt with. */
  ghost predicate Hears(peer: Security, us: Security)
  {
    peer.p == us.p && peer.dec == us.enc
  }

  // ----- each path touches its own half -----

  lemma OpenMovesOnlyDec(c: Codec, s: Security, frame: bytes)
    requires ValidSecurity(s)
    ensures var t := OpenFrame(c, s, frame).0; t.p == s.p && t.enc == s.enc && ValidSecurity(t)
  {
    hide ValidDirection, Pump, ExpectedMac, HasBit;
    forall data ensures ValidDirection(Pump(s.p, s.dec, data).0) {
      PumpKeepsValid(s.p, s.dec, data);
    }
  }

  // ----- one fast-path frame -----

  /** When `SealFastPath` accepts a frame. */
  predicate FastFrame(frame: bytes)
  {
    && frame != []
    && PerReadLength(frame[1..]).Ok?
    && |frame| >= 1 + PerReadLength(frame[1..]).value.1 + (if CountInByte(frame[0]) then 1 else 0)
  }

  /** Everything after the length. */
  function Payload(frame: bytes): bytes
    requires FastFrame(frame)
  {
    frame[1 + PerReadLength(frame[1..]).value.1..]
  }

  /** The frame with its encryption flags cleared and its length rewritten in the two-byte form. */
  function Canonical(frame: bytes): bytes
    requires FastFrame(frame)
  {
    [frame[0] % 64] + PerWriteLength(3 + |Payload(frame)|) + Payload(frame)
  }

  /** The rewriting changes nothing exactly for a frame that has no flag set and already carries
      its own length, modulo 2^15, in the two-byte form. */
  lemma {:induction false} CanonicalIsIdentity(frame: bytes)
    requires FastFrame(frame)
    ensures Canonical(frame) == frame
            <==> frame[0] < 64 && frame[1] >= 0x80 && PerReadLength(frame[1..]).value.0 == |frame| % 0x8000
  {
    var (value, size) := PerReadLength(frame[1..]).value;
    var again := Canonical(frame);
    if size == 2 {
      assert |again| == |frame|;
      assert again == again[..3] + again[3..] && frame == frame[..3] + frame[3..];
      assert again[3..] == frame[3..];
      assert again[0] == frame[0] % 64 && again[1] == 0x80 + (|frame| / 256) % 128 && again[2] == |frame| % 256;
      LengthBytes(frame[1], frame[2], |frame|);
    } else {
      assert |again| == |frame| + 1;
    }
  }

  lemma LengthBytes(hi: byte, lo: byte, n: nat)
    requires hi >= 0x80
    ensures (hi as int - 0x80) * 256 + lo == n % 0x8000 <==> hi == 0x80 + (n / 256) % 128 && lo == n % 256
  {
    DigitRest(n, 128);
  }

  lemma FastAcceptance(s: Security, frame: bytes)
    requires ValidSecurity(s)
    ensures SealFastPath(s, frame).1.Ok? <==> FastFrame(frame)
  {
    hide Pump, SaltedMacSignature;
  }

  /** What `SealFastPath` puts on the wire, its parts named. */
  lemma FastWire(s: Security, frame: bytes)
    requires ValidSecurity(s) && FastFrame(frame)
    ensures var mac := SaltedMacSignature(s.p.h, s.p.signKey[..s.p.keyLen], Payload(frame), s.enc.checksumCount);
            var (enc, cipher) := Pump(s.p, s.enc, Payload(frame));
            SealFastPath(s, frame)
            == (s.(enc := enc), Ok([frame[0] % 64 + 0xC0] + PerWriteLength(11 + |cipher|) + mac + cipher))
  {
    hide Pump, SaltedMacSignature;
    var size := PerReadLength(frame[1..]).value.1;
    var start := 1 + size + (if CountInByte(frame[0]) then 1 else 0);
    var plain := (if CountInByte(frame[0]) then [frame[1 + size]] else []) + frame[start..];
    assert plain == Payload(frame);
  }

  /** The length field of a sealed frame is the frame's own length exactly below 2^15 bytes. */
  lemma SealedLength(s: Security, frame: bytes)
    requires ValidSecurity(s) && FastFrame(frame)
    ensures var wire := SealFastPath(s, frame).1.value;
            && |wire| == 11 + |Payload(frame)|
            && (PerReadLength(wire[1..]) == Ok((|wire|, 2)) <==> |wire| < 0x8000)
  {
    hide Pump, SaltedMacSignature;
    FastWire(s, frame);
    var wire := SealFastPath(s, frame).1.value;
    assert wire[1..] == PerWriteLength(|wire|) + wire[3..];
    PerLengthRoundTrip(|wire|, wire[3..]);
  }

  lemma CounterBack(n: nat)
    requires n < WORD
    ensures ((n + 1) % WORD + WORD - 1) % WORD == n
  {
  }

  lemma HeaderBits(header: byte)
    ensures (header % 64 + 0xC0) / 128 == 1 && HasBit(header % 64 + 0xC0, 0x40)
    ensures (header % 64 + 0xC0) % 64 == header % 64
  {
  }

  /** A mirrored peer recovers the frame up to the form of its length, and the signature matches. */
  lemma {:induction false} FastRoundTrip(c: Codec, s: Security, peer: Security, frame: bytes)
    requires ValidSecurity(s) && ValidSecurity(peer) && Hears(peer, s) && FastFrame(frame)
    ensures var wire := SealFastPath(s, frame).1.value;
            && !IsSlow(wire)
            && OpenFrame(c, peer, wire).1 == Ok(Opened(Canonical(frame), false))
            && Hears(OpenFrame(c, peer, wire).0, SealFastPath(s, frame).0)
  {
    hide SaltedMacSignature, UpdatedKey, Rc4.Apply;
    FastWire(s, frame);
    var wire := SealFastPath(s, frame).1.value;
    var plain := Payload(frame);
    var mac := SaltedMacSignature(s.p.h, s.p.signKey[..s.p.keyLen], plain, s.enc.checksumCount);
    var (enc, cipher) := Pump(s.p, s.enc, plain);
    assert wire[1..] == PerWriteLength(11 + |cipher|) + (mac + cipher);
    PerLengthRoundTrip(11 + |cipher|, mac + cipher);
    assert wire[3..11] == mac && wire[11..] == cipher;
    PumpTwice(s.p, s.enc, plain);
    CounterBack(s.enc.checksumCount);
    HeaderBits(frame[0]);
  }

  // ----- one slow-path PDU -----

  lemma {:induction false} FlagsOnWire(payload: bytes, strip: bool)
    ensures var f := HeaderFlags(payload, strip);
            FromLe(Le16(f)) == f && HasBit(f, SEC_ENCRYPT) && HasBit(f, SEC_SECURE_CHECKSUM)
  {
    LeRoundTrip(HeaderFlags(payload, strip), 2);
    Pow256Values();
    FlagsStay(FromLe(payload[..if strip && |payload| >= 4 then 2 else 0]) % 0x1_0000);
  }

  lemma SetBitHas(f: nat)
    ensures HasBit(SetBit(f, SEC_ENCRYPT), SEC_ENCRYPT)
    ensures HasBit(SetBit(f, SEC_SECURE_CHECKSUM), SEC_SECURE_CHECKSUM)
  {
    assert (f + 8) / 8 == f / 8 + 1;
    assert (f + 0x800) / 0x800 == f / 0x800 + 1;
  }

  lemma {:induction false} FlagsStay(f: nat)
    ensures var g := SetBit(SetBit(f, SEC_ENCRYPT), SEC_SECURE_CHECKSUM);
            HasBit(g, SEC_ENCRYPT) && HasBit(g, SEC_SECURE_CHECKSUM)
  {
    hide SetBit;
    var e := SetBit(f, SEC_ENCRYPT);
    SetBitHas(f);
    SetBitHas(e);
    HighBitKeepsLow(e);
  }

  lemma HighBitKeepsLow(e: nat)
    requires HasBit(e, SEC_ENCRYPT)
    ensures HasBit(SetBit(e, SEC_SECURE_CHECKSUM), SEC_ENCRYPT)
  {
    assert (e + 0x800) / 8 == e / 8 + 256;
  }

  /** The header the receiver puts back: the sender's flags with the checksum bit, nothing else. */
  function HeaderBack(payload: bytes, strip: bool, prepend: bool): bytes
  {
    if prepend then Le16(ClearBit(HeaderFlags(payload, strip), SEC_ENCRYPT)) + Le16(0) else []
  }

  lemma {:induction false} UserDataRoundTrip(s: Security, peer: Security, payload: bytes, strip: bool, prepend: bool)
    requires ValidSecurity(s) && ValidSecurity(peer) && Hears(peer, s)
    ensures var (s', wire) := SealUserData(s, payload, strip);
            && |wire| == 12 + |Body(payload, strip)|
            && HasBit(FromLe(wire[..2]), SEC_ENCRYPT)
            && var (peer', back, mismatch) := OpenUserData(peer, wire, prepend);
               Hears(peer', s') && back == HeaderBack(payload, strip, prepend) + Body(payload, strip) && !mismatch
  {
    hide SaltedMacSignature, MacSignature, UpdatedKey, Rc4.Apply, HasBit, HeaderFlags, ToLe;
    var body := Body(payload, strip);
    var mac := SaltedMacSignature(s.p.h, s.p.signKey[..s.p.keyLen], body, s.enc.checksumCount);
    var (enc, cipher) := Pump(s.p, s.enc, body);
    var wire := SealUserData(s, payload, strip).1;
    assert wire[..2] == Le16(HeaderFlags(payload, strip)) && wire[2..4] == Le16(0);
    assert wire[4..12] == mac && wire[12..] == cipher;
    FlagsOnWire(payload, strip);
    PumpTwice(s.p, s.enc, body);
    CounterBack(s.enc.checksumCount);
  }

  /** One request PDU through both ends. */
  lemma {:induction false} SlowRoundTrip(ours: Codec, theirs: Codec, s: Security, peer: Security, pdu: bytes, strip: bool, prepend: bool)
    requires Mirrors(ours, theirs)
    requires ValidSecurity(s) && ValidSecurity(peer) && Hears(peer, s)
    requires ours.decodeOutgoing(pdu).Some? && ours.decodeOutgoing(pdu).value.Request?
    requires SealOne(ours, s, pdu, strip).1.Ok?
    ensures var d := ours.decodeOutgoing(pdu).value.data;
            var wire := SealOne(ours, s, pdu, strip).1.value;
            var back := d.(userData := HeaderBack(d.userData, strip, prepend) + Body(d.userData, strip));
            var (peer', got) := OpenSlowPath(theirs, peer, wire, prepend);
            && IsTpkt(wire)
            && Hears(peer', SealOne(ours, s, pdu, strip).0)
            && got == (match theirs.encodeIndication(back)
                          case None => Err
                          case Some(f) => Ok(Opened(f, false)))
  {
    hide SealUserData, OpenUserData, HasBit, IsTpkt, HeaderBack, Body;
    var d := ours.decodeOutgoing(pdu).value.data;
    UserDataRoundTrip(s, peer, d.userData, strip, prepend);
    var wire := SealOne(ours, s, pdu, strip).1.value;
    assert ours.encodeRequest(d.(userData := SealUserData(s, d.userData, strip).1)) == Some(wire);
  }

  // ----- the slow path is its PDUs, one after the other -----

  function SealEach(c: Codec, s: Security, pdus: seq<bytes>, strip: bool): (Security, Result<seq<bytes>>)
    requires ValidSecurity(s)
    decreases |pdus|
  {
    if pdus == [] then (s, Ok([]))
    else
      SealOneKeepsValid(c, s, pdus[0], strip);
      var (s', one) := SealOne(c, s, pdus[0], strip);
      if one.Err? then (s', Err)
      else
        var (s'', rest) := SealEach(c, s', pdus[1..], strip);
        (s'', if rest.Err? then Err else Ok([one.value] + rest.value))
  }

  ghost predicate AllTpkt(pdus: seq<bytes>)
  {
    forall k :: 0 <= k < |pdus| ==> IsTpkt(pdus[k])
  }

  /** One turn of the loop of `encrypt_slow_path`. */
  lemma SlowStep(c: Codec, s: Security, pdu: bytes, rest: bytes, strip: bool)
    requires ValidSecurity(s) && IsTpkt(pdu)
    ensures var (s', one) := SealOne(c, s, pdu, strip);
            && ValidSecurity(s')
            && SealSlowPath(c, s, pdu + rest, strip)
               == (if one.Err? then (s', Err)
                   else (SealSlowPath(c, s', rest, strip).0, Prepend(one.value, SealSlowPath(c, s', rest, strip).1)))
  {
    hide SealOne, ValidSecurity;
    TpktAtStart(pdu, rest);
    SealOneKeepsValid(c, s, pdu, strip);
  }

  /** On whole PDUs followed by a tail that starts no whole PDU: each PDU once, in order, then
      the tail as it is. */
  lemma {:induction false} SlowPathIsEach(c: Codec, s: Security, pdus: seq<bytes>, tail: bytes, strip: bool)
    requires ValidSecurity(s) && AllTpkt(pdus) && TpktLength(tail).None?
    ensures var (t, each) := SealEach(c, s, pdus, strip);
            SealSlowPath(c, s, Flatten(pdus) + tail, strip)
            == (t, if each.Err? then Err else Ok(Flatten(each.value) + tail))
    decreases |pdus|
  {
    hide SealOne, ValidSecurity;
    if pdus == [] {
      assert Flatten(pdus) + tail == tail;
    } else {
      hide SealSlowPath;
      assert Flatten(pdus) + tail == pdus[0] + (Flatten(pdus[1..]) + tail);
      SlowStep(c, s, pdus[0], Flatten(pdus[1..]) + tail, strip);
      var (s', one) := SealOne(c, s, pdus[0], strip);
      if one.Ok? {
        SlowPathIsEach(c, s', pdus[1..], tail, strip);
        var (t, each) := SealEach(c, s', pdus[1..], strip);
        if each.Ok? {
          assert ([one.value] + each.value)[1..] == each.value;
          assert one.value + (Flatten(each.value) + tail) == Flatten([one.value] + each.value) + tail;
        }
      }
    }
  }

  /** Hence it distributes over concatenation at a PDU boundary. */
  lemma {:induction false} SlowPathDistributes(c: Codec, s: Security, pdus: seq<bytes>, rest: bytes, strip: bool)
    requires ValidSecurity(s) && AllTpkt(pdus)
    ensures var (t, first) := SealSlowPath(c, s, Flatten(pdus), strip);
            && ValidSecurity(t)
            && (first.Ok? ==> SealSlowPath(c, s, Flatten(pdus) + rest, strip)
                              == (SealSlowPath(c, t, rest, strip).0, Prepend(first.value, SealSlowPath(c, t, rest, strip).1)))
            && (first.Err? ==> SealSlowPath(c, s, Flatten(pdus) + rest, strip) == (t, Err))
    decreases |pdus|
  {
    hide SealOne, ValidSecurity;
    if pdus == [] {
      assert [] + rest == rest;
      PrependTwice([], [], SealSlowPath(c, s, rest, strip).1);
    } else {
      hide SealSlowPath, Prepend;
      var more := Flatten(pdus[1..]);
      assert Flatten(pdus) + rest == pdus[0] + (more + rest);
      SlowStep(c, s, pdus[0], more + rest, strip);
      SlowStep(c, s, pdus[0], more, strip);
      var (s', one) := SealOne(c, s, pdus[0], strip);
      if one.Ok? {
        SlowPathDistributes(c, s', pdus[1..], rest, strip);
        var (t, first) := SealSlowPath(c, s', more, strip);
        PrependOk(one.value, first);
        if first.Ok? {
          PrependTwice(one.value, first.value, SealSlowPath(c, t, rest, strip).1);
        }
      }
    }
  }

  lemma PrependOk(a: bytes, r: Result<bytes>)
    ensures r.Err? ==> Prepend(a, r) == Err
    ensures r.Ok? ==> Prepend(a, r) == Ok(a + r.value)
  {
  }

  function Requests(c: Codec, pdus: seq<bytes>): nat
  {
    if pdus == [] then 0
    else (match c.decodeOutgoing(pdus[0]) case Some(Request(_)) => 1 case _ => 0) + Requests(c, pdus[1..])
  }

  /** Addition in 32 bits. */
  function Plus32(a: nat, b: nat): nat {
    (a + b) % WORD
  }

  // ----- runs -----

  /** What travels as one unit: a fast-path frame or one request PDU. */
  datatype Unit = Fast(frame: bytes) | Slow(pdu: bytes)

  ghost predicate Sendable(c: Codec, u: Unit)
  {
    match u
    case Fast(frame) => FastFrame(frame)
    case Slow(pdu) => c.decodeOutgoing(pdu).Some? && c.decodeOutgoing(pdu).value.Request?
  }

  ghost predicate AllSendable(c: Codec, units: seq<Unit>)
  {
    forall k :: 0 <= k < |units| ==> Sendable(c, units[k])
  }

  function SealUnit(c: Codec, s: Security, u: Unit): (Security, Result<bytes>)
    requires ValidSecurity(s)
  {
    match u
    case Fast(frame) => SealFastPath(s, frame)
    case Slow(pdu) => SealOne(c, s, pdu, false)
  }

  lemma SealUnitKeepsValid(c: Codec, s: Security, u: Unit)
    requires ValidSecurity(s)
    ensures var t := SealUnit(c, s, u).0; ValidSecurity(t) && t.p == s.p && t.dec == s.dec
  {
    hide ValidDirection, Pump, SaltedMacSignature;
    forall data ensures ValidDirection(Pump(s.p, s.enc, data).0) {
      PumpKeepsValid(s.p, s.enc, data);
    }
  }

  function SealUnits(c: Codec, s: Security, units: seq<Unit>): (Security, Result<seq<bytes>>)
    requires ValidSecurity(s)
    decreases |units|
  {
    if units == [] then (s, Ok([]))
    else
      SealUnitKeepsValid(c, s, units[0]);
      var (s', one) := SealUnit(c, s, units[0]);
      if one.Err? then (s', Err)
      else
        var (s'', rest) := SealUnits(c, s', units[1..]);
        (s'', if rest.Err? then Err else Ok([one.value] + rest.value))
  }

  function OpenAll(c: Codec, s: Security, wire: seq<bytes>): (Security, seq<Result<Opened>>)
    requires ValidSecurity(s)
    decreases |wire|
  {
    if wire == [] then (s, [])
    else
      OpenMovesOnlyDec(c, s, wire[0]);
      var (s', one) := OpenFrame(c, s, wire[0]);
      var (s'', rest) := OpenAll(c, s', wire[1..]);
      (s'', [one] + rest)
  }

  /** What the peer must hand on: the frame itself, up to the form of its length, or the same
      user data in the peer's own envelope; never a signature mismatch. */
  function Recovered(ours: Codec, theirs: Codec, u: Unit): Result<Opened>
    requires Sendable(ours, u)
  {
    match u
    case Fast(frame) => Ok(Opened(Canonical(frame), false))
    case Slow(pdu) =>
      match theirs.encodeIndication(ours.decodeOutgoing(pdu).value.data)
      case None => Err
      case Some(f) => Ok(Opened(f, false))
  }

  lemma {:induction false} UnitRoundTrip(ours: Codec, theirs: Codec, s: Security, peer: Security, u: Unit)
    requires Mirrors(ours, theirs)
    requires ValidSecurity(s) && ValidSecurity(peer) && Hears(peer, s)
    requires Sendable(ours, u) && SealUnit(ours, s, u).1.Ok?
    ensures var (s', wire) := SealUnit(ours, s, u);
            var (peer', got) := OpenFrame(theirs, peer, wire.value);
            && Hears(peer', s') && got == Recovered(ours, theirs, u)
            && (u.Slow? <==> IsSlow(wire.value)) && (u.Slow? ==> IsTpkt(wire.value))
  {
    hide SealFastPath, SealOne, OpenFastPath, OpenSlowPath, ValidSecurity;
    match u
    case Fast(frame) => FastRoundTrip(theirs, s, peer, frame);
    case Slow(pdu) =>
      SlowRoundTrip(ours, theirs, s, peer, pdu, false, false);
      var d := ours.decodeOutgoing(pdu).value.data;
      assert d.(userData := [] + d.userData) == d;
  }

  /** Any number of frames on one direction, all sent before the first is read: the peer
      recovers every one of them and ends with the same key, cipher and counters. */
  lemma {:induction false} RunRoundTrip(ours: Codec, theirs: Codec, s: Security, peer: Security, units: seq<Unit>)
    requires Mirrors(ours, theirs)
    requires ValidSecurity(s) && ValidSecurity(peer) && Hears(peer, s)
    requires AllSendable(ours, units) && SealUnits(ours, s, units).1.Ok?
    ensures var (s', wire) := SealUnits(ours, s, units);
            var (peer', got) := OpenAll(theirs, peer, wire.value);
            && Hears(peer', s')
            && |got| == |units|
            && forall k :: 0 <= k < |units| ==> got[k] == Recovered(ours, theirs, units[k])
    decreases |units|
  {
    hide SealUnit, OpenFrame, ValidSecurity, Recovered, Hears;
    if units == [] {
      SealNothing(ours, theirs, s, peer);
    } else {
      SealUnitKeepsValid(ours, s, units[0]);
      UnitRoundTrip(ours, theirs, s, peer, units[0]);
      var (s', one) := SealUnit(ours, s, units[0]);
      OpenMovesOnlyDec(theirs, peer, one.value);
      var peer' := OpenFrame(theirs, peer, one.value).0;
      RunRoundTrip(ours, theirs, s', peer', units[1..]);
      var wire := SealUnits(ours, s', units[1..]).1.value;
      assert ([one.value] + wire)[1..] == wire;
    }
  }

  lemma SealNothing(ours: Codec, theirs: Codec, s: Security, peer: Security)
    requires ValidSecurity(s) && ValidSecurity(peer) && Hears(peer, s)
    ensures SealUnits(ours, s, []) == (s, Ok([])) && OpenAll(theirs, peer, []) == (peer, [])
  {
  }

  // ----- a run is a run of packets -----

  function PacketOf(c: Codec, u: Unit): bytes
    requires Sendable(c, u)
  {
    match u case Fast(frame) => Payload(frame) case Slow(pdu) => c.decodeOutgoing(pdu).value.data.userData
  }

  function Packets(c: Codec, units: seq<Unit>): (r: seq<bytes>)
    requires AllSendable(c, units)
    ensures |r| == |units|
  {
    seq(|units|, k requires 0 <= k < |units| => PacketOf(c, units[k]))
  }

  lemma UnitIsPacket(c: Codec, s: Security, u: Unit)
    requires ValidSecurity(s) && Sendable(c, u)
    ensures SealUnit(c, s, u).0 == s.(enc := Pump(s.p, s.enc, PacketOf(c, u)).0)
  {
    hide Pump, SaltedMacSignature;
    match u
    case Fast(frame) => FastWire(s, frame);
    case Slow(pdu) =>
  }

  lemma {:induction false} PumpAllFront(p: Params, d: Direction, first: bytes, rest: seq<bytes>)
    requires ValidParams(p)
    ensures PumpAll(p, d, [first] + rest) == PumpAll(p, Pump(p, d, first).0, rest)
  {
    hide Pump;
    var all := [first] + rest;
    if rest == [] {
      assert all[..0] == [];
    } else {
      var n := |rest| - 1;
      PumpAllFront(p, d, first, rest[..n]);
      assert all[..|all| - 1] == [first] + rest[..n];
      assert all[|all| - 1] == rest[n];
    }
  }

  // ----- a slow-path buffer is a run of packets -----

  lemma {:induction false} PumpAllKeepsValid(p: Params, d: Direction, packets: seq<bytes>)
    requires ValidParams(p) && ValidDirection(d)
    ensures ValidDirection(PumpAll(p, d, packets))
  {
    if packets != [] {
      hide Pump, ValidDirection;
      PumpAllKeepsValid(p, d, packets[..|packets| - 1]);
      PumpKeepsValid(p, PumpAll(p, d, packets[..|packets| - 1]), packets[|packets| - 1]);
    }
  }

  function BodyOf(c: Codec, pdu: bytes, strip: bool): seq<bytes>
  {
    match c.decodeOutgoing(pdu) case Some(Request(d)) => [Body(d.userData, strip)] case _ => []
  }

  /** What the request PDUs among `pdus` hand to the cipher. */
  function Bodies(c: Codec, pdus: seq<bytes>, strip: bool): seq<bytes>
  {
    if pdus == [] then [] else BodyOf(c, pdus[0], strip) + Bodies(c, pdus[1..], strip)
  }

  /** The state in which PDU `k` finds the stream. */
  function StateBefore(c: Codec, s: Security, pdus: seq<bytes>, k: nat, strip: bool): (r: Security)
    requires ValidSecurity(s) && k <= |pdus|
    ensures ValidSecurity(r)
  {
    PumpAllKeepsValid(s.p, s.enc, Bodies(c, pdus[..k], strip));
    s.(enc := PumpAll(s.p, s.enc, Bodies(c, pdus[..k], strip)))
  }

  lemma OneIsPacket(c: Codec, s: Security, pdu: bytes, strip: bool)
    requires ValidSecurity(s)
    ensures SealOne(c, s, pdu, strip).0 == s.(enc := PumpAll(s.p, s.enc, BodyOf(c, pdu, strip)))
  {
    hide Pump, SaltedMacSignature;
    match c.decodeOutgoing(pdu)
    case Some(Request(d)) => assert [Body(d.userData, strip)][..0] == [];
    case _ =>
  }

  lemma PumpAllBodies(p: Params, d: Direction, first: seq<bytes>, rest: seq<bytes>)
    requires ValidParams(p) && |first| <= 1
    ensures PumpAll(p, d, first + rest) == PumpAll(p, PumpAll(p, d, first), rest)
  {
    hide Pump;
    if |first| == 1 {
      PumpAllFront(p, d, first[0], rest);
      assert first == [first[0]] && first[..0] == [];
    } else {
      assert first + rest == rest;
    }
  }

  lemma StateAfterFirst(c: Codec, s: Security, pdus: seq<bytes>, k: nat, strip: bool)
    requires ValidSecurity(s) && 0 < k <= |pdus|
    ensures var s' := SealOne(c, s, pdus[0], strip).0;
            ValidSecurity(s') && StateBefore(c, s, pdus, k, strip) == StateBefore(c, s', pdus[1..], k - 1, strip)
  {
    hide SealOne, ValidDirection, PumpAll, BodyOf;
    SealOneKeepsValid(c, s, pdus[0], strip);
    OneIsPacket(c, s, pdus[0], strip);
    assert pdus[..k][1..] == pdus[1..][..k - 1];
    assert Bodies(c, pdus[..k], strip) == BodyOf(c, pdus[0], strip) + Bodies(c, pdus[1..][..k - 1], strip);
    AtMostOneBody(c, pdus[0], strip);
    PumpAllBodies(s.p, s.enc, BodyOf(c, pdus[0], strip), Bodies(c, pdus[1..][..k - 1], strip));
  }

  lemma AtMostOneBody(c: Codec, pdu: bytes, strip: bool)
    ensures |BodyOf(c, pdu, strip)| <= 1
  {
  }

  /** PDU `k` is the one that cannot be encrypted. */
  ghost predicate FailsAt(c: Codec, s: Security, pdus: seq<bytes>, k: nat, strip: bool)
    requires ValidSecurity(s) && k < |pdus|
  {
    SealOne(c, StateBefore(c, s, pdus, k, strip), pdus[k], strip).1.Err?
  }

  lemma {:induction false} EachIsPackets(c: Codec, s: Security, pdus: seq<bytes>, strip: bool) returns (n: nat)
    requires ValidSecurity(s)
    ensures var (t, each) := SealEach(c, s, pdus, strip);
            && n <= |pdus| && t == StateBefore(c, s, pdus, n, strip)
            && (each.Ok? ==> n == |pdus|) && (each.Err? ==> n > 0)
            && forall k :: 0 <= k < n ==> (FailsAt(c, s, pdus, k, strip) <==> each.Err? && k == n - 1)
    decreases |pdus|
  {
    hide SealOne, ValidDirection, StateBefore;
    if pdus == [] {
      n := 0;
      NothingBefore(c, s, pdus, strip);
    } else {
      SealOneKeepsValid(c, s, pdus[0], strip);
      NothingBefore(c, s, pdus, strip);
      var (s', one) := SealOne(c, s, pdus[0], strip);
      StateAfterFirst(c, s, pdus, 1, strip);
      NothingBefore(c, s', pdus[1..], strip);
      if one.Err? {
        n := 1;
      } else {
        var m := EachIsPackets(c, s', pdus[1..], strip);
        n := m + 1;
        StateAfterFirst(c, s, pdus, n, strip);
        forall k | 0 <= k < n
          ensures FailsAt(c, s, pdus, k, strip) <==> SealEach(c, s, pdus, strip).1.Err? && k == n - 1
        {
          if k > 0 {
            StateAfterFirst(c, s, pdus, k, strip);
            assert FailsAt(c, s, pdus, k, strip) <==> FailsAt(c, s', pdus[1..], k - 1, strip);
          }
        }
      }
    }
  }

  lemma NothingBefore(c: Codec, s: Security, pdus: seq<bytes>, strip: bool)
    requires ValidSecurity(s)
    ensures StateBefore(c, s, pdus, 0, strip) == s
  {
    assert pdus[..0] == [];
  }

  /** The whole effect of `encrypt_slow_path` on the state, whether it succeeds or not: the sending half
      makes one packet transition for each request PDU, up to and including the first PDU that cannot
      be encrypted, and nothing else changes. */
  lemma {:induction false} SlowPathIsPackets(c: Codec, s: Security, pdus: seq<bytes>, tail: bytes, strip: bool) returns (n: nat)
    requires ValidSecurity(s) && AllTpkt(pdus) && TpktLength(tail).None?
    ensures var (t, r) := SealSlowPath(c, s, Flatten(pdus) + tail, strip);
            && n <= |pdus| && t == StateBefore(c, s, pdus, n, strip)
            && (r.Ok? ==> n == |pdus|) && (r.Err? ==> n > 0)
            && forall k :: 0 <= k < n ==> (FailsAt(c, s, pdus, k, strip) <==> r.Err? && k == n - 1)
  {
    hide SealSlowPath, ValidSecurity, StateBefore, FailsAt;
    SlowPathIsEach(c, s, pdus, tail, strip);
    n := EachIsPackets(c, s, pdus, strip);
  }

  lemma {:induction false} BodiesCount(c: Codec, pdus: seq<bytes>, strip: bool)
    ensures |Bodies(c, pdus, strip)| == Requests(c, pdus)
  {
    if pdus != [] {
      BodiesCount(c, pdus[1..], strip);
    }
  }

  lemma WordAdds(a: nat, b: nat, n: nat)
    ensures Plus32(Plus32(a, b), n) == Plus32(a, b + n)
  {
  }

  lemma OneMore(p: Params, d: Direction, data: bytes)
    requires ValidParams(p)
    ensures Pump(p, d, data).0.checksumCount == Plus32(d.checksumCount, 1)
  {
    PumpCounts(p, d, data);
  }

  lemma NoMore(a: nat)
    requires a < WORD
    ensures Plus32(a, 0) == a
  {
  }

  lemma {:induction false} PumpAllCounts(p: Params, d: Direction, packets: seq<bytes>)
    requires ValidParams(p) && d.checksumCount < WORD
    ensures PumpAll(p, d, packets).checksumCount == Plus32(d.checksumCount, |packets|)
  {
    hide Pump, Plus32;
    if packets == [] {
      NoMore(d.checksumCount);
    } else {
      var n := |packets| - 1;
      PumpAllCounts(p, d, packets[..n]);
      OneMore(p, PumpAll(p, d, packets[..n]), packets[n]);
      WordAdds(d.checksumCount, n, 1);
    }
  }

  /** So the checksum counter moves by the number of request PDUs up to and including the failing one:
      all of them, when the call succeeds. */
  lemma {:induction false} SlowPathCounts(c: Codec, s: Security, pdus: seq<bytes>, tail: bytes, strip: bool) returns (n: nat)
    requires ValidSecurity(s) && AllTpkt(pdus) && TpktLength(tail).None?
    ensures var (t, r) := SealSlowPath(c, s, Flatten(pdus) + tail, strip);
            && n <= |pdus| && (r.Ok? ==> n == |pdus|)
            && (r.Err? ==> n > 0 && FailsAt(c, s, pdus, n - 1, strip))
            && t.enc.checksumCount == Plus32(s.enc.checksumCount, Requests(c, pdus[..n]))
  {
    n := SlowPathIsPackets(c, s, pdus, tail, strip);
    BodiesCount(c, pdus[..n], strip);
    PumpAllCounts(s.p, s.enc, Bodies(c, pdus[..n], strip));
    hide SealSlowPath, PumpAll, Bodies, Requests, FailsAt, Plus32;
  }

  lemma {:induction false} RunIsPackets(c: Codec, s: Security, units: seq<Unit>)
    requires ValidSecurity(s) && AllSendable(c, units) && SealUnits(c, s, units).1.Ok?
    ensures SealUnits(c, s, units).0 == s.(enc := PumpAll(s.p, s.enc, Packets(c, units)))
    decreases |units|
  {
    hide SealUnit, Pump, PacketOf, ValidDirection;
    if units == [] {
      assert Packets(c, units) == [];
      assert s.(enc := s.enc) == s;
    } else {
      SealUnitKeepsValid(c, s, units[0]);
      UnitIsPacket(c, s, units[0]);
      RunIsPackets(c, SealUnit(c, s, units[0]).0, units[1..]);
      PumpAllFront(s.p, s.enc, PacketOf(c, units[0]), Packets(c, units[1..]));
      assert Packets(c, units) == [PacketOf(c, units[0])] + Packets(c, units[1..]);
    }
  }

  /** From establishment on, after any run of `n` frames: `(n - 1) / 4096` key updates, and a
      checksum counter of `n`. By `RunRoundTrip` the peer's decrypting half is the same value. */
  lemma {:induction false} SessionCounters(c: Codec, h: Hashes, client: Random, server: Random, m: Method, units: seq<Unit>)
    requires AllSendable(c, units)
    requires SealUnits(c, Establish(h, client, server, m), units).1.Ok?
    ensures var s := Establish(h, client, server, m);
            var enc := SealUnits(c, s, units).0.enc;
            && Reached(s.p, s.enc.key, Packets(c, units), enc)
            && enc.checksumCount == |units| % WORD
            && enc.key == KeyAfter(s.p, s.enc.key, UpdatesAfter(|units|))
  {
    hide SealUnits, PumpAll, KeyAfter, UpdatesAfter, Packets, Consumed;
    var s := Establish(h, client, server, m);
    RunIsPackets(c, s, units);
    EstablishStartsFresh(h, client, server, m);
    StateAfterPackets(s.p, s.enc.key, Packets(c, units));
    assert |Packets(c, units)| == |units|;
  }

  lemma EstablishStartsFresh(h: Hashes, client: Random, server: Random, m: Method)
    ensures var s := Establish(h, client, server, m);
            s.enc == NewDirection(s.p, s.enc.key) && s.dec == NewDirection(s.p, s.dec.key)
  {
    hide Rc4.Init, SaltedHash, Md5Of3, Cut;
  }
}
