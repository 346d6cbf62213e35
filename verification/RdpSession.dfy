/** A whole session: both ends send and read in any order over two byte streams. */
module RdpSession {
  import opened Results
  import opened Bytes
  import opened RdpKeys
  import opened RdpFraming
  import opened RdpRuns
  import opened RdpWire

  // ----- the server's end -----

  /** The server's keys (section 5.3.5.1 of MS-RDPBCGR): from the second block of the session key
      blob the one it encrypts with, from the third the one it decrypts with. */
  function EstablishServer(h: Hashes, client: Random, server: Random, m: Method): (s: Security)
    ensures ValidSecurity(s)
  {
    var blob := SessionKeyBlob(h, client, server);
    var p := Params(h, m, KeyLength(m), Cut(blob[..16], m));
    var encryptKey := Cut(Md5Of3(h, blob[16..32], client, server), m);
    var decryptKey := Cut(Md5Of3(h, blob[32..48], client, server), m);
    Security(p, NewDirection(p, encryptKey), NewDirection(p, decryptKey))
  }

  datatype Ends = Ends(client: Security, server: Security)

  /** Each end decrypts with what the other encrypts with. */
  ghost predicate Mirrored(e: Ends)
  {
    && ValidSecurity(e.client) && ValidSecurity(e.server)
    && Hears(e.server, e.client) && Hears(e.client, e.server)
  }

  lemma EstablishedEndsAreMirrored(h: Hashes, client: Random, server: Random, m: Method)
    ensures Mirrored(Ends(Establish(h, client, server, m), EstablishServer(h, client, server, m)))
  {
    hide Rc4.Init, SaltedHash, Md5Of3, Cut;
  }

  // ----- one direction -----

  /** What has been sent, what is still in the stream, and what the other end has made of the rest. */
  datatype Way = Way(sent: seq<Unit>, stream: bytes, got: seq<Result<Opened>>)

  /** The sender writes a unit; a unit that cannot be encrypted ends the session. */
  ghost function Send(c: Codec, s: Security, way: Way, u: Unit): (r: (Security, Way, bool))
    requires ValidSecurity(s)
    ensures ValidSecurity(r.0) && r.0.p == s.p && r.0.dec == s.dec
  {
    SealUnitKeepsValid(c, s, u);
    var (s', wire) := SealUnit(c, s, u);
    if !Sendable(c, u) || wire.Err? then (s, way, false)
    else (s', Way(way.sent + [u], way.stream + wire.value, way.got), true)
  }

  /** The receiver takes the unit at the front of the stream, if a whole one has arrived. */
  ghost function Receive(c: Codec, s: Security, way: Way): (r: (Security, Way))
    requires ValidSecurity(s)
    ensures ValidSecurity(r.0) && r.0.p == s.p && r.0.enc == s.enc
  {
    match UnitLength(way.stream)
    case None => (s, way)
    case Some(n) =>
      OpenMovesOnlyDec(c, s, way.stream[..n]);
      var (s', got) := OpenFrame(c, s, way.stream[..n]);
      (s', Way(way.sent, way.stream[n..], way.got + [got]))
  }

  // ----- the session -----

  datatype Link = Link(ends: Ends, up: Way, down: Way, ended: bool)

  datatype Move = ClientSends(u: Unit) | ServerSends(u: Unit) | ClientReads | ServerReads

  ghost predicate ValidLink(l: Link)
  {
    ValidSecurity(l.ends.client) && ValidSecurity(l.ends.server)
  }

  function Connected(e: Ends): Link
  {
    Link(e, Way([], [], []), Way([], [], []), false)
  }

  ghost function Step(client: Codec, server: Codec, l: Link, m: Move): (r: Link)
    requires ValidLink(l)
    ensures ValidLink(r)
  {
    if l.ended then l
    else
      match m
      case ClientSends(u) =>
        var (s, up, ok) := Send(client, l.ends.client, l.up, u);
        l.(ends := l.ends.(client := s), up := up, ended := !ok)
      case ServerSends(u) =>
        var (s, down, ok) := Send(server, l.ends.server, l.down, u);
        l.(ends := l.ends.(server := s), down := down, ended := !ok)
      case ClientReads =>
        var (s, down) := Receive(client, l.ends.client, l.down);
        l.(ends := l.ends.(client := s), down := down)
      case ServerReads =>
        var (s, up) := Receive(server, l.ends.server, l.up);
        l.(ends := l.ends.(server := s), up := up)
  }

  ghost function Run(client: Codec, server: Codec, l: Link, moves: seq<Move>): (r: Link)
    requires ValidLink(l)
    ensures ValidLink(r)
  {
    if moves == [] then l
    else Step(client, server, Run(client, server, l, moves[..|moves| - 1]), moves[|moves| - 1])
  }

  // ----- what is on its way -----

  /** The sending half alone. */
  function SealHalf(c: Codec, p: Params, enc: Direction, u: Unit): (r: (Direction, Result<bytes>))
    requires ValidParams(p) && ValidDirection(enc)
    ensures ValidDirection(r.0)
  {
    SealUnitKeepsValid(c, Security(p, enc, enc), u);
    var (s, wire) := SealUnit(c, Security(p, enc, enc), u);
    (s.enc, wire)
  }

  lemma SealIgnoresDec(c: Codec, s: Security, u: Unit)
    requires ValidSecurity(s)
    ensures SealHalf(c, s.p, s.enc, u) == (SealUnit(c, s, u).0.enc, SealUnit(c, s, u).1)
  {
    hide Pump, SaltedMacSignature, HeaderFlags, Body, PerReadLength;
    match u
    case Fast(frame) =>
    case Slow(pdu) =>
  }

  /** `wire` are the units sealed one after the other, from `enc` to `end`. */
  ghost predicate Sealed(c: Codec, p: Params, enc: Direction, units: seq<Unit>, wire: seq<bytes>, end: Direction)
    requires ValidParams(p)
    decreases |units|
  {
    && ValidDirection(enc) && |wire| == |units|
    && if units == [] then end == enc
       else
         && SealHalf(c, p, enc, units[0]).1 == Ok(wire[0])
         && Sealed(c, p, SealHalf(c, p, enc, units[0]).0, units[1..], wire[1..], end)
  }

  lemma {:induction false} SealedGrows(c: Codec, p: Params, enc: Direction, units: seq<Unit>, wire: seq<bytes>, end: Direction, u: Unit)
    requires ValidParams(p) && Sealed(c, p, enc, units, wire, end) && ValidDirection(end)
    requires SealHalf(c, p, end, u).1.Ok?
    ensures Sealed(c, p, enc, units + [u], wire + [SealHalf(c, p, end, u).1.value], SealHalf(c, p, end, u).0)
    decreases |units|
  {
    hide SealHalf;
    var w := SealHalf(c, p, end, u).1.value;
    if units == [] {
      assert units + [u] == [u] && wire + [w] == [w];
    } else {
      SealedGrows(c, p, SealHalf(c, p, enc, units[0]).0, units[1..], wire[1..], end, u);
      assert (units + [u])[1..] == units[1..] + [u] && (wire + [w])[1..] == wire[1..] + [w];
    }
  }

  /** The bytes in the stream are the sealed units that have not been read, sealed from where the
      receiver stands to where the sender stands; what has been read was recovered. */
  ghost predicate WayOk(ours: Codec, theirs: Codec, sender: Security, receiver: Security, way: Way, wire: seq<bytes>)
  {
    && ValidSecurity(sender) && ValidSecurity(receiver) && receiver.p == sender.p
    && AllSendable(ours, way.sent)
    && |way.got| <= |way.sent|
    && Sealed(ours, sender.p, receiver.dec, way.sent[|way.got|..], wire, sender.enc)
    && AllSelfDelimiting(wire) && way.stream == Flatten(wire)
    && forall k :: 0 <= k < |way.got| ==> way.got[k] == Recovered(ours, theirs, way.sent[k])
  }

  lemma AllDelimited(wire: seq<bytes>, last: bytes)
    requires AllSelfDelimiting(wire) && SelfDelimiting(last)
    ensures AllSelfDelimiting(wire + [last])
  {
    hide SelfDelimiting;
  }

  /** The unit behind the others in the stream, as the sender wrote it. */
  lemma {:induction false} WriteNext(ours: Codec, theirs: Codec, sender: Security, receiver: Security, way: Way, wire: seq<bytes>, u: Unit)
    requires Mirrors(ours, theirs) && WayOk(ours, theirs, sender, receiver, way, wire) && Short(u)
    requires Sendable(ours, u) && SealUnit(ours, sender, u).1.Ok?
    ensures var (s, sealed) := SealUnit(ours, sender, u);
            && ValidSecurity(s) && s.p == sender.p && s.dec == sender.dec
            && Sealed(ours, sender.p, receiver.dec, (way.sent + [u])[|way.got|..], wire + [sealed.value], s.enc)
            && AllSelfDelimiting(wire + [sealed.value])
            && way.stream + sealed.value == Flatten(wire + [sealed.value])
  {
    hide SealUnit, SealHalf, SelfDelimiting, Recovered, Short, ValidDirection, Sendable;
    SealIgnoresDec(ours, sender, u);
    SealedIsDelimited(ours, theirs, sender, u);
    SealUnitKeepsValid(ours, sender, u);
    hide Sealed, Mirrors;
    var waiting, sealed := way.sent[|way.got|..], SealUnit(ours, sender, u).1.value;
    SealedGrows(ours, sender.p, receiver.dec, waiting, wire, sender.enc, u);
    FlattenAppend(wire, sealed);
    AllDelimited(wire, sealed);
    assert (way.sent + [u])[|way.got|..] == waiting + [u];
  }

  lemma {:induction false} SendKeepsWay(ours: Codec, theirs: Codec, sender: Security, receiver: Security, way: Way, wire: seq<bytes>, u: Unit)
    returns (wire': seq<bytes>)
    requires Mirrors(ours, theirs) && WayOk(ours, theirs, sender, receiver, way, wire) && Short(u)
    ensures var (s, w, _) := Send(ours, sender, way, u); WayOk(ours, theirs, s, receiver, w, wire')
  {
    wire' := wire;
    hide SealUnit, SelfDelimiting, Sealed, Recovered, Short, ValidDirection, Sendable, Flatten, AllSelfDelimiting;
    if Sendable(ours, u) && SealUnit(ours, sender, u).1.Ok? {
      WriteNext(ours, theirs, sender, receiver, way, wire, u);
      hide Mirrors;
      wire' := wire + [SealUnit(ours, sender, u).1.value];
    }
  }

  /** The unit at the front of the stream, as the receiver reads it. */
  lemma {:induction false} ReadNext(ours: Codec, theirs: Codec, sender: Security, receiver: Security, way: Way, wire: seq<bytes>)
    requires Mirrors(ours, theirs) && WayOk(ours, theirs, sender, receiver, way, wire) && |way.got| < |way.sent|
    ensures var u := way.sent[|way.got|];
            var (s, got) := OpenFrame(theirs, receiver, wire[0]);
            && wire != [] && way.stream == wire[0] + Flatten(wire[1..]) && SelfDelimiting(wire[0])
            && ValidSecurity(s) && s.p == receiver.p && s.enc == receiver.enc
            && got == Recovered(ours, theirs, u)
            && Sealed(ours, sender.p, s.dec, way.sent[|way.got| + 1..], wire[1..], sender.enc)
  {
    var waiting := way.sent[|way.got|..];
    var u := waiting[0];
    var s0 := Security(sender.p, receiver.dec, receiver.dec);
    assert Sendable(ours, u) && SelfDelimiting(wire[0]);
    hide OpenFrame, SealUnit, SelfDelimiting, Recovered, ValidDirection, Sendable;
    UnitRoundTrip(ours, theirs, s0, receiver, u);
    OpenMovesOnlyDec(theirs, receiver, wire[0]);
    assert waiting[1..] == way.sent[|way.got| + 1..];
  }

  /** Reading the next unit recovers the oldest one that has not been read. */
  lemma {:induction false} ReceiveKeepsWay(ours: Codec, theirs: Codec, sender: Security, receiver: Security, way: Way, wire: seq<bytes>)
    returns (wire': seq<bytes>)
    requires Mirrors(ours, theirs) && WayOk(ours, theirs, sender, receiver, way, wire)
    ensures var (s, w) := Receive(theirs, receiver, way); WayOk(ours, theirs, sender, s, w, wire')
    ensures var (_, w) := Receive(theirs, receiver, way);
            |w.got| == |way.got| + (if |way.got| < |way.sent| then 1 else 0)
  {
    wire' := wire;
    hide OpenFrame, UnitLength, Recovered, ValidDirection, Sendable, SealHalf;
    if |way.got| == |way.sent| {
      NothingToRead(wire);
    } else {
      ReadNext(ours, theirs, sender, receiver, way, wire);
      UnitAtStart(wire[0], Flatten(wire[1..]));
      hide Sealed, Mirrors;
      wire' := wire[1..];
    }
  }

  lemma NothingToRead(wire: seq<bytes>)
    requires wire == []
    ensures UnitLength(Flatten(wire)) == None
  {
  }

  // ----- all runs -----

  ghost predicate LinkOk(client: Codec, server: Codec, l: Link, up: seq<bytes>, down: seq<bytes>)
  {
    && WayOk(client, server, l.ends.client, l.ends.server, l.up, up)
    && WayOk(server, client, l.ends.server, l.ends.client, l.down, down)
  }

  ghost predicate AllMovesShort(moves: seq<Move>)
  {
    forall k :: 0 <= k < |moves| ==> ShortMove(moves[k])
  }

  predicate ShortMove(m: Move)
  {
    match m
    case ClientSends(u) => Short(u)
    case ServerSends(u) => Short(u)
    case _ => true
  }

  lemma {:induction false} StepKeepsLink(client: Codec, server: Codec, l: Link, m: Move, up: seq<bytes>, down: seq<bytes>)
    returns (up': seq<bytes>, down': seq<bytes>)
    requires Mirrors(client, server) && Mirrors(server, client) && ShortMove(m)
    requires LinkOk(client, server, l, up, down)
    ensures LinkOk(client, server, Step(client, server, l, m), up', down')
  {
    up', down' := up, down;
    hide Send, Receive, Sealed, Recovered, Short, AllSelfDelimiting, AllSendable;
    if !l.ended {
      match m
      case ClientSends(u) =>
        up' := SendKeepsWay(client, server, l.ends.client, l.ends.server, l.up, up, u);
      case ServerSends(u) =>
        down' := SendKeepsWay(server, client, l.ends.server, l.ends.client, l.down, down, u);
      case ClientReads =>
        down' := ReceiveKeepsWay(server, client, l.ends.server, l.ends.client, l.down, down);
      case ServerReads =>
        up' := ReceiveKeepsWay(client, server, l.ends.client, l.ends.server, l.up, up);
    }
  }

  lemma {:induction false} RunKeepsLink(client: Codec, server: Codec, l: Link, moves: seq<Move>, up: seq<bytes>, down: seq<bytes>)
    returns (up': seq<bytes>, down': seq<bytes>)
    requires Mirrors(client, server) && Mirrors(server, client) && AllMovesShort(moves)
    requires LinkOk(client, server, l, up, down)
    ensures ValidLink(l) && LinkOk(client, server, Run(client, server, l, moves), up', down')
  {
    up', down' := up, down;
    if moves != [] {
      var n := |moves| - 1;
      hide WayOk, Step, ShortMove;
      LinkIsValid(client, server, l, up, down);
      up', down' := RunKeepsLink(client, server, l, moves[..n], up, down);
      up', down' := StepKeepsLink(client, server, Run(client, server, l, moves[..n]), moves[n], up', down');
    }
  }

  lemma LinkIsValid(client: Codec, server: Codec, l: Link, up: seq<bytes>, down: seq<bytes>)
    requires LinkOk(client, server, l, up, down)
    ensures ValidLink(l)
  {
  }

  lemma ConnectedIsOk(client: Codec, server: Codec, e: Ends)
    requires Mirrored(e)
    ensures LinkOk(client, server, Connected(e), [], [])
  {
    assert Flatten([]) == [];
  }

  /** Every run of a session from establishment on: both ends send and read in any order, with any
      number of frames of both kinds crossing in the two streams. Whatever an end has read is, one by
      one and in order, what the other end has sent; a read finds the next unit whenever one is under
      way; and whenever nothing is under way in either direction the ends are mirrored again. */
  lemma {:induction false} SessionDelivers(client: Codec, server: Codec, h: Hashes, clientRandom: Random, serverRandom: Random, m: Method, moves: seq<Move>)
    requires Mirrors(client, server) && Mirrors(server, client) && AllMovesShort(moves)
    ensures var e := Ends(Establish(h, clientRandom, serverRandom, m), EstablishServer(h, clientRandom, serverRandom, m));
            var l := Run(client, server, Connected(e), moves);
            && Delivered(client, server, l.up) && Delivered(server, client, l.down)
            && (|l.up.got| == |l.up.sent| && |l.down.got| == |l.down.sent| ==>
                  l.up.stream == [] && l.down.stream == [] && Mirrored(l.ends))
  {
    var e := Ends(Establish(h, clientRandom, serverRandom, m), EstablishServer(h, clientRandom, serverRandom, m));
    EstablishedEndsAreMirrored(h, clientRandom, serverRandom, m);
    ConnectedIsOk(client, server, e);
    var up, down := RunKeepsLink(client, server, Connected(e), moves, [], []);
    var l := Run(client, server, Connected(e), moves);
    hide Run, Establish, EstablishServer, Step, Recovered, SelfDelimiting, UnitLength;
    WayDelivers(client, server, l.ends.client, l.ends.server, l.up, up);
    WayDelivers(server, client, l.ends.server, l.ends.client, l.down, down);
  }

  /** What has been read is what was sent, and a whole unit is waiting exactly when not all of it has
      been read. */
  ghost predicate Delivered(ours: Codec, theirs: Codec, way: Way)
  {
    && AllSendable(ours, way.sent)
    && |way.got| <= |way.sent|
    && (forall k :: 0 <= k < |way.got| ==> way.got[k] == Recovered(ours, theirs, way.sent[k]))
    && (UnitLength(way.stream).Some? <==> |way.got| < |way.sent|)
  }

  lemma {:induction false} WayDelivers(ours: Codec, theirs: Codec, sender: Security, receiver: Security, way: Way, wire: seq<bytes>)
    requires WayOk(ours, theirs, sender, receiver, way, wire)
    ensures Delivered(ours, theirs, way)
    ensures |way.got| == |way.sent| ==> way.stream == [] && receiver.dec == sender.enc
  {
    hide Recovered, SealHalf, ValidDirection;
    var waiting := way.sent[|way.got|..];
    if waiting == [] {
      NothingToRead(wire);
    } else {
      assert SelfDelimiting(wire[0]);
      UnitAtStart(wire[0], Flatten(wire[1..]));
    }
  }
}
