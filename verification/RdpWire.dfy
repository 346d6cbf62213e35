/** Whole buffers and the byte stream: how `encrypt_frame` groups PDUs, and how the receiving side cuts
    what was written into units again. */
module RdpWire {
  import opened Results
  import opened Bytes
  import opened RdpKeys
  import opened RdpFraming
  import opened RdpRuns

  // ----- whole frames, as `encrypt_frame` takes them -----

  /** The whole PDUs at the start of a buffer, and what is left. */
  function Split(buf: bytes): (r: (seq<bytes>, bytes))
    decreases |buf|
  {
    match TpktLength(buf)
    case None => ([], buf)
    case Some(n) =>
      var (pdus, tail) := Split(buf[n..]);
      ([buf[..n]] + pdus, tail)
  }

  lemma FirstIsTpkt(buf: bytes)
    requires TpktLength(buf).Some?
    ensures IsTpkt(buf[..TpktLength(buf).value])
  {
  }

  lemma FlattenFront(first: bytes, rest: seq<bytes>, tail: bytes)
    ensures Flatten([first] + rest) + tail == first + (Flatten(rest) + tail)
  {
    assert ([first] + rest)[1..] == rest;
  }

  lemma SplitStep(buf: bytes)
    requires TpktLength(buf).Some?
    ensures var n := TpktLength(buf).value;
            var (pdus, tail) := Split(buf[n..]);
            Split(buf) == ([buf[..n]] + pdus, tail)
  {
    hide TpktLength;
  }

  lemma AllTpktFront(first: bytes, rest: seq<bytes>)
    requires IsTpkt(first) && AllTpkt(rest)
    ensures AllTpkt([first] + rest)
  {
    hide IsTpkt;
  }

  lemma {:induction false} SplitIsFlatten(buf: bytes)
    ensures var (pdus, tail) := Split(buf);
            AllTpkt(pdus) && TpktLength(tail).None? && Flatten(pdus) + tail == buf
    decreases |buf|
  {
    hide TpktLength, IsTpkt;
    match TpktLength(buf)
    case None =>
    case Some(n) =>
      SplitStep(buf);
      hide Split, AllTpkt, Flatten;
      FirstIsTpkt(buf);
      SplitIsFlatten(buf[n..]);
      var (pdus, tail) := Split(buf[n..]);
      AllTpktFront(buf[..n], pdus);
      FlattenFront(buf[..n], pdus, tail);
  }

  lemma {:induction false} SplitOfFlatten(pdus: seq<bytes>, tail: bytes)
    requires AllTpkt(pdus) && TpktLength(tail).None?
    ensures Split(Flatten(pdus) + tail) == (pdus, tail)
    decreases |pdus|
  {
    if pdus == [] {
      assert Flatten(pdus) + tail == tail;
    } else {
      var rest := Flatten(pdus[1..]) + tail;
      assert Flatten(pdus) + tail == pdus[0] + rest;
      TpktAtStart(pdus[0], rest);
      SplitOfFlatten(pdus[1..], tail);
      assert [pdus[0]] + pdus[1..] == pdus;
    }
  }

  /** The units the session loop hands to `encrypt_frame` in one buffer. */
  function UnitsOf(frame: bytes): seq<Unit>
  {
    if IsSlow(frame) then SlowUnits(Split(frame).0) else [Fast(frame)]
  }

  function SlowUnits(pdus: seq<bytes>): seq<Unit>
  {
    seq(|pdus|, k requires 0 <= k < |pdus| => Slow(pdus[k]))
  }

  /** A fast-path frame, or a buffer of whole request PDUs and nothing else. */
  ghost predicate SessionFrame(c: Codec, frame: bytes)
  {
    AllSendable(c, UnitsOf(frame)) && (IsSlow(frame) ==> Split(frame).1 == [])
  }

  lemma {:induction false} EachIsUnits(ours: Codec, theirs: Codec, s: Security, pdus: seq<bytes>)
    requires Mirrors(ours, theirs) && ValidSecurity(s) && AllSendable(ours, SlowUnits(pdus))
    ensures SealUnits(ours, s, SlowUnits(pdus)) == SealEach(ours, s, pdus, false)
    ensures var r := SealEach(ours, s, pdus, false).1; r.Ok? ==> |r.value| == |pdus| && AllTpkt(r.value)
    decreases |pdus|
  {
    hide SealOne, IsTpkt, ValidSecurity;
    if pdus != [] {
      var units := SlowUnits(pdus);
      assert units[1..] == SlowUnits(pdus[1..]);
      assert Sendable(ours, units[0]);
      SealOneKeepsValid(ours, s, pdus[0], false);
      var (s', one) := SealOne(ours, s, pdus[0], false);
      if one.Ok? {
        SealOneIsTpkt(ours, theirs, s, pdus[0]);
        EachIsUnits(ours, theirs, s', pdus[1..]);
      }
    }
  }

  lemma SealOneIsTpkt(ours: Codec, theirs: Codec, s: Security, pdu: bytes)
    requires Mirrors(ours, theirs) && ValidSecurity(s) && Sendable(ours, Slow(pdu))
    requires SealOne(ours, s, pdu, false).1.Ok?
    ensures IsTpkt(SealOne(ours, s, pdu, false).1.value)
  {
    hide SealUserData, IsTpkt;
    var d := ours.decodeOutgoing(pdu).value.data;
    var f := SealOne(ours, s, pdu, false).1.value;
    assert ours.encodeRequest(d.(userData := SealUserData(s, d.userData, false).1)) == Some(f);
  }

  // ----- cutting a byte stream -----

  /** Length of the whole unit at the start of a stream: of a TPKT PDU by its own length field, of
      anything else by the PER length behind its first byte. */
  function UnitLength(stream: bytes): (r: Option<nat>)
    ensures r.Some? ==> 0 < r.value <= |stream|
  {
    if stream == [] then None
    else if IsSlow(stream) then TpktLength(stream)
    else
      match PerReadLength(stream[1..])
      case Err => None
      case Ok((n, size)) => if 1 + size <= n <= |stream| then Some(n) else None
  }

  /** The whole units at the start of a stream, and what is left. */
  function CutStream(stream: bytes): (r: (seq<bytes>, bytes))
    decreases |stream|
  {
    match UnitLength(stream)
    case None => ([], stream)
    case Some(n) =>
      var (units, rest) := CutStream(stream[n..]);
      ([stream[..n]] + units, rest)
  }

  /** A unit that states its own length. */
  predicate SelfDelimiting(u: bytes)
  {
    UnitLength(u) == Some(|u|)
  }

  ghost predicate AllSelfDelimiting(wire: seq<bytes>)
  {
    forall k :: 0 <= k < |wire| ==> SelfDelimiting(wire[k])
  }

  /** What follows a unit does not change where it ends. */
  lemma UnitAtStart(u: bytes, rest: bytes)
    requires SelfDelimiting(u)
    ensures UnitLength(u + rest) == Some(|u|) && (u + rest)[..|u|] == u && (u + rest)[|u|..] == rest
  {
    if IsSlow(u) {
      TpktAtStart(u, rest);
    } else {
      assert (u + rest)[1..] == u[1..] + rest;
    }
  }

  lemma TpktIsSelfDelimiting(u: bytes)
    requires IsTpkt(u)
    ensures SelfDelimiting(u)
  {
  }

  lemma {:induction false} CutOfFlatten(wire: seq<bytes>)
    requires AllSelfDelimiting(wire)
    ensures CutStream(Flatten(wire)) == (wire, [])
  {
    hide UnitLength, SelfDelimiting;
    if wire == [] {
      CutNothing();
    } else {
      assert SelfDelimiting(wire[0]);
      UnitAtStart(wire[0], Flatten(wire[1..]));
      CutOfFlatten(wire[1..]);
      assert [wire[0]] + wire[1..] == wire;
    }
  }

  lemma CutNothing()
    ensures UnitLength([]) == None && CutStream([]) == ([], [])
  {
  }

  /** What is cut off states its own length. */
  lemma CutIsSelfDelimiting(u: bytes, rest: bytes)
    requires UnitLength(u + rest) == Some(|u|) && |u| >= 4
    ensures SelfDelimiting(u)
  {
    var s := u + rest;
    assert s[0] == u[0] && s[1] == u[1] && s[2] == u[2] && s[3] == u[3];
  }

  lemma {:induction false} FlattenOfCut(wire: seq<bytes>)
    requires forall k :: 0 <= k < |wire| ==> |wire[k]| >= 4
    requires CutStream(Flatten(wire)) == (wire, [])
    ensures AllSelfDelimiting(wire)
  {
    hide UnitLength, SelfDelimiting;
    if wire != [] {
      var rest := Flatten(wire[1..]);
      var stream := wire[0] + rest;
      var n := UnitLength(stream).value;
      var (units, tail) := CutStream(stream[n..]);
      assert wire[0] == stream[..n] && wire[1..] == units by { assert ([stream[..n]] + units)[1..] == units; }
      assert |wire[0]| == n && stream[n..] == rest;
      CutIsSelfDelimiting(wire[0], rest);
      FlattenOfCut(wire[1..]);
      assert forall k :: 1 <= k < |wire| ==> wire[k] == wire[1..][k - 1];
    }
  }

  // ----- what was sealed -----

  lemma FastIsNotSlow(s: Security, frame: bytes)
    requires ValidSecurity(s) && FastFrame(frame)
    ensures SealFastPath(s, frame).1.Ok? && !IsSlow(SealFastPath(s, frame).1.value)
  {
    hide Pump, SaltedMacSignature, PerWriteLength;
    FastWire(s, frame);
  }

  /** A sealed fast-path frame states its own length exactly below 2^15 bytes. */
  lemma SealedFastIsDelimited(s: Security, frame: bytes)
    requires ValidSecurity(s) && FastFrame(frame)
    ensures var wire := SealFastPath(s, frame).1;
            wire.Ok? && |wire.value| == 11 + |Payload(frame)| && (SelfDelimiting(wire.value) <==> |wire.value| < 0x8000)
  {
    hide SealFastPath;
    FastAcceptance(s, frame);
    FastIsNotSlow(s, frame);
    SealedLength(s, frame);
    FastLengthReads(s, frame);
    hide PerReadLength;
  }

  lemma FastLengthReads(s: Security, frame: bytes)
    requires ValidSecurity(s) && FastFrame(frame)
    ensures var wire := SealFastPath(s, frame).1.value; PerReadLength(wire[1..]) == Ok((|wire| % 0x8000, 2))
  {
    hide Pump, SaltedMacSignature, PerWriteLength, PerReadLength;
    FastWire(s, frame);
    var wire := SealFastPath(s, frame).1.value;
    assert wire[1..] == PerWriteLength(|wire|) + wire[3..];
    PerLengthRoundTrip(|wire|, wire[3..]);
  }

  /** A unit whose sealed form has a length that its length field can hold. */
  predicate Short(u: Unit)
  {
    match u
    case Fast(frame) => FastFrame(frame) ==> 11 + |Payload(frame)| < 0x8000
    case Slow(_) => true
  }

  ghost predicate AllShort(units: seq<Unit>)
  {
    forall k :: 0 <= k < |units| ==> Short(units[k])
  }

  lemma {:induction false} SealedIsDelimited(ours: Codec, theirs: Codec, s: Security, u: Unit)
    requires Mirrors(ours, theirs) && ValidSecurity(s) && Sendable(ours, u) && SealUnit(ours, s, u).1.Ok?
    ensures var wire := SealUnit(ours, s, u).1.value; |wire| >= 4 && (SelfDelimiting(wire) <==> Short(u))
  {
    hide SealFastPath, SealOne, SelfDelimiting;
    match u
    case Fast(frame) => SealedFastIsDelimited(s, frame);
    case Slow(pdu) =>
      SealOneIsTpkt(ours, theirs, s, pdu);
      TpktIsSelfDelimiting(SealOne(ours, s, pdu, false).1.value);
  }

  lemma {:induction false} RunIsDelimited(ours: Codec, theirs: Codec, s: Security, units: seq<Unit>)
    requires Mirrors(ours, theirs) && ValidSecurity(s) && AllSendable(ours, units) && SealUnits(ours, s, units).1.Ok?
    ensures var wire := SealUnits(ours, s, units).1.value;
            && |wire| == |units|
            && forall k :: 0 <= k < |wire| ==> |wire[k]| >= 4 && (SelfDelimiting(wire[k]) <==> Short(units[k]))
    decreases |units|
  {
    hide SealUnit, SelfDelimiting, Short, ValidSecurity;
    if units != [] {
      SealUnitKeepsValid(ours, s, units[0]);
      SealedIsDelimited(ours, theirs, s, units[0]);
      RunIsDelimited(ours, theirs, SealUnit(ours, s, units[0]).0, units[1..]);
    }
  }

  /** The bytes of a mixed run, written one unit behind the other, are cut back into exactly its units
      if and only if every sealed fast-path frame is below 2^15 bytes. */
  lemma {:induction false} StreamIsCutIntoUnits(ours: Codec, theirs: Codec, s: Security, units: seq<Unit>)
    requires Mirrors(ours, theirs) && ValidSecurity(s) && AllSendable(ours, units) && SealUnits(ours, s, units).1.Ok?
    ensures var wire := SealUnits(ours, s, units).1.value;
            CutStream(Flatten(wire)) == (wire, []) <==> AllShort(units)
  {
    hide SealUnits, SelfDelimiting, Short, CutStream;
    RunIsDelimited(ours, theirs, s, units);
    var wire := SealUnits(ours, s, units).1.value;
    if AllShort(units) {
      CutOfFlatten(wire);
    }
    if CutStream(Flatten(wire)) == (wire, []) {
      FlattenOfCut(wire);
    }
  }

  // ----- whole frames -----

  /** A frame encrypted in one call is its units encrypted one by one and written one behind the
      other; the receiver cuts them apart again exactly when a fast-path frame is short enough. */
  lemma {:induction false} FrameIsUnits(ours: Codec, theirs: Codec, s: Security, frame: bytes)
    requires Mirrors(ours, theirs) && ValidSecurity(s) && SessionFrame(ours, frame)
    requires SealFrame(ours, s, frame).1.Ok?
    ensures var (t, written) := SealFrame(ours, s, frame);
            var (t', wire) := SealUnits(ours, s, UnitsOf(frame));
            && t' == t && wire.Ok? && Flatten(wire.value) == written.value
            && (CutStream(written.value) == (wire.value, []) <==> AllShort(UnitsOf(frame)))
  {
    FrameIsWritten(ours, theirs, s, frame);
    hide SealFrame, SealUnits, UnitsOf, CutStream, AllShort;
    StreamIsCutIntoUnits(ours, theirs, s, UnitsOf(frame));
  }

  lemma {:induction false} FrameIsWritten(ours: Codec, theirs: Codec, s: Security, frame: bytes)
    requires Mirrors(ours, theirs) && ValidSecurity(s) && SessionFrame(ours, frame)
    requires SealFrame(ours, s, frame).1.Ok?
    ensures var (t, written) := SealFrame(ours, s, frame);
            var (t', wire) := SealUnits(ours, s, UnitsOf(frame));
            t' == t && wire.Ok? && Flatten(wire.value) == written.value
  {
    hide ValidSecurity, SealOne, SealFastPath, SealSlowPath, FastFrame;
    var (t, written) := SealFrame(ours, s, frame);
    if IsSlow(frame) {
      var pdus := Split(frame).0;
      SplitIsFlatten(frame);
      SlowPathIsEach(ours, s, pdus, [], false);
      EachIsUnits(ours, theirs, s, pdus);
      var sealed := SealEach(ours, s, pdus, false).1.value;
      assert Flatten(sealed) + [] == Flatten(sealed) && Flatten(pdus) + [] == frame;
    } else {
      assert UnitsOf(frame)[0] == Fast(frame);
      SealUnitKeepsValid(ours, s, Fast(frame));
      assert UnitsOf(frame)[1..] == [];
      assert [written.value] + [] == [written.value];
      assert Flatten([written.value]) == written.value + Flatten([]);
    }
  }

  /** One call of `encrypt_frame` as the peer reads it from the stream. */
  lemma {:induction false} FrameRoundTrip(ours: Codec, theirs: Codec, s: Security, peer: Security, frame: bytes)
    requires Mirrors(ours, theirs)
    requires ValidSecurity(s) && ValidSecurity(peer) && Hears(peer, s)
    requires SessionFrame(ours, frame) && AllShort(UnitsOf(frame)) && SealFrame(ours, s, frame).1.Ok?
    ensures var (s', written) := SealFrame(ours, s, frame);
            var (wire, rest) := CutStream(written.value);
            var (peer', got) := OpenAll(theirs, peer, wire);
            var units := UnitsOf(frame);
            && rest == [] && Hears(peer', s')
            && |got| == |units|
            && forall k :: 0 <= k < |units| ==> got[k] == Recovered(ours, theirs, units[k])
  {
    hide SealFrame, OpenAll, ValidSecurity, SealUnits, Recovered, UnitsOf, CutStream, AllShort;
    FrameIsUnits(ours, theirs, s, frame);
    RunRoundTrip(ours, theirs, s, peer, UnitsOf(frame));
  }
}
