/** Key material of Standard RDP Security: the salted hashes and message signatures,
    the key update, key establishment, and one direction of the encrypted stream. */
module RdpKeys {
  import opened Results
  import opened Bytes
  import Rc4

  const KEY_UPDATE_INTERVAL := 4096

  const PAD1: bytes := seq(40, _ => 0x36)
  const PAD2: bytes := seq(48, _ => 0x5C)
  const SALT: bytes := [0xD1, 0x26, 0x9E]

  type Key = b: bytes | |b| == 16 witness seq(16, _ => 0)
  type Random = b: bytes | |b| == 32 witness seq(32, _ => 0)

  /** SHA1 and MD5 are library code: any functions, with MD5 giving 16 bytes. */
  datatype Hashes = Hashes(sha1: bytes -> bytes, md5: bytes -> Key)

  datatype Method = Method(bit40: bool, bit56: bool, bit128: bool, fips: bool)

  /** The strongest RC4 method in the server's set; FIPS alone is refused. */
  function SelectMethod(server: Method): (r: Option<Method>)
    ensures r.None? <==> !(server.bit40 || server.bit56 || server.bit128)
    ensures r.Some? ==> SingleMethod(r.value)
    ensures r.Some? && r.value.bit128 ==> server.bit128
    ensures r.Some? && r.value.bit56 ==> server.bit56 && !server.bit128
    ensures r.Some? && r.value.bit40 ==> server.bit40 && !server.bit56 && !server.bit128
  {
    if server.bit128 then Some(Method(false, false, true, false))
    else if server.bit56 then Some(Method(false, true, false, false))
    else if server.bit40 then Some(Method(true, false, false, false))
    else None
  }

  /** Exactly one of the three RC4 strengths. */
  predicate SingleMethod(m: Method)
  {
    && !m.fips
    && (m.bit40 || m.bit56 || m.bit128)
    && !(m.bit40 && m.bit56) && !(m.bit40 && m.bit128) && !(m.bit56 && m.bit128)
  }

  function SaltedHash(h: Hashes, salt: bytes, salt1: bytes, salt2: bytes, input: bytes): Key
  {
    h.md5(salt + h.sha1(input + salt + salt1 + salt2))
  }

  function Md5Of3(h: Hashes, in0: bytes, in1: bytes, in2: bytes): Key
  {
    h.md5(in0 + in1 + in2)
  }

  function MacSignature(h: Hashes, signKey: bytes, data: bytes): (r: bytes)
    ensures |r| == 8
  {
    h.md5(signKey + PAD2 + h.sha1(signKey + PAD1 + Le32(|data|) + data))[..8]
  }

  function SaltedMacSignature(h: Hashes, signKey: bytes, data: bytes, useCount: nat): (r: bytes)
    ensures |r| == 8
  {
    h.md5(signKey + PAD2 + h.sha1(signKey + PAD1 + Le32(|data|) + data + Le32(useCount)))[..8]
  }

  /** What both directions share and never change. */
  datatype Params = Params(h: Hashes, strength: Method, keyLen: nat, signKey: Key)

  ghost predicate ValidParams(p: Params)
  {
    p.keyLen == 8 || p.keyLen == 16
  }

  /** The weak methods overwrite the first bytes of a key with the salt. */
  function Weaken(key: Key, m: Method): Key
  {
    if m.bit40 then SALT + key[3..]
    else if m.bit56 then SALT[..1] + key[1..]
    else key
  }

  function UpdateDigest(p: Params, updateKey: Key, key: Key): Key
    requires ValidParams(p)
  {
    var base := updateKey[..p.keyLen];
    p.h.md5(base + PAD2 + p.h.sha1(base + PAD1 + key[..p.keyLen]))
  }

  /** The digest with its first `keyLen` bytes encrypted under themselves. */
  function SelfEncrypted(digest: Key, keyLen: nat): Key
    requires keyLen == 8 || keyLen == 16
  {
    Rc4.Mask(Rc4.Init(digest[..keyLen]), digest[..keyLen]) + digest[keyLen..]
  }

  function UpdatedKey(p: Params, updateKey: Key, key: Key): Key
    requires ValidParams(p)
  {
    Weaken(SelfEncrypted(UpdateDigest(p, updateKey, key), p.keyLen), p.strength)
  }

  method SelfEncrypt(digest: Key, keyLen: nat, key: array<byte>)
    requires keyLen == 8 || keyLen == 16
    requires key.Length == 16
    modifies key
    ensures key[..] == SelfEncrypted(digest, keyLen)
  {
    var head := new byte[keyLen](k requires 0 <= k < 16 => digest[k]);
    hide Rc4.Init, Rc4.Mask, Rc4.Next;
    assert head[..] == digest[..keyLen];
    var rc4 := new Rc4.Cipher(digest[..keyLen]);
    rc4.Transform(head);
    forall k | 0 <= k < 16 {
      key[k] := if k < keyLen then head[k] else digest[k];
    }
    assert key[..] == head[..] + digest[keyLen..];
  }

  method WeakenInPlace(key: array<byte>, m: Method)
    requires key.Length == 16
    modifies key
    ensures key[..] == Weaken(old(key[..]), m)
  {
    if m.bit40 {
      key[0], key[1], key[2] := SALT[0], SALT[1], SALT[2];
    } else if m.bit56 {
      key[0] := SALT[0];
    }
  }

  /** `key` becomes its update, in place. */
  method UpdateKey(p: Params, updateKey: Key, key: array<byte>)
    requires ValidParams(p) && key.Length == 16
    modifies key
    ensures key[..] == UpdatedKey(p, updateKey, old(key[..]))
  {
    SelfEncrypt(UpdateDigest(p, updateKey, key[..]), p.keyLen, key);
    WeakenInPlace(key, p.strength);
  }

  // ----- one direction of the stream -----

  datatype Direction = Direction(key: Key, updateKey: Key, rc4: Rc4.Stream, useCount: nat, checksumCount: nat)

  ghost predicate ValidDirection(d: Direction)
  {
    Rc4.Ready(d.rc4) && d.useCount <= KEY_UPDATE_INTERVAL && d.checksumCount < WORD
  }

  /** A direction on which no packet has been sent. */
  function NewDirection(p: Params, key: Key): (d: Direction)
    requires ValidParams(p)
    ensures ValidDirection(d)
  {
    Rc4.InitIsReady(key[..p.keyLen]);
    Direction(key, key, Rc4.Init(key[..p.keyLen]), 0, 0)
  }

  /** The key update that a packet finds due. */
  function Rekey(p: Params, d: Direction): (r: Direction)
    requires ValidParams(p)
    ensures r.useCount < KEY_UPDATE_INTERVAL
  {
    if d.useCount >= KEY_UPDATE_INTERVAL then
      var key := UpdatedKey(p, d.updateKey, d.key);
      d.(key := key, rc4 := Rc4.Init(key[..p.keyLen]), useCount := 0)
    else d
  }

  /** One packet: `encrypt_rc4` and `decrypt_rc4` do the same thing to their own half. */
  function Pump(p: Params, d: Direction, data: bytes): (r: (Direction, bytes))
    requires ValidParams(p)
    ensures |r.1| == |data|
  {
    var k := Rekey(p, d);
    var (rc4, out) := Rc4.Apply(k.rc4, data);
    (k.(rc4 := rc4, useCount := k.useCount + 1, checksumCount := (k.checksumCount + 1) % WORD), out)
  }

  lemma PumpKeepsValid(p: Params, d: Direction, data: bytes)
    requires ValidParams(p) && ValidDirection(d)
    ensures ValidDirection(Pump(p, d, data).0)
  {
    if d.useCount >= KEY_UPDATE_INTERVAL {
      Rc4.InitIsReady(UpdatedKey(p, d.updateKey, d.key)[..p.keyLen]);
    }
    Rc4.AdvanceKeepsReady(Rekey(p, d).rc4, |data|);
  }

  /** Two equal directions, the second fed with what the first put out. */
  lemma PumpTwice(p: Params, d: Direction, data: bytes)
    requires ValidParams(p)
    ensures Pump(p, d, Pump(p, d, data).1) == (Pump(p, d, data).0, data)
  {
    Rc4.ApplyTwice(Rekey(p, d).rc4, data);
  }

  // ----- runs of packets -----

  function PumpAll(p: Params, d: Direction, packets: seq<bytes>): Direction
    requires ValidParams(p)
  {
    if packets == [] then d
    else Pump(p, PumpAll(p, d, packets[..|packets| - 1]), packets[|packets| - 1]).0
  }

  function KeyAfter(p: Params, key: Key, updates: nat): Key
    requires ValidParams(p)
  {
    if updates == 0 then key else UpdatedKey(p, key, KeyAfter(p, key, updates - 1))
  }

  /** Bytes sent since the last key update, in packets `from` onwards. */
  function TotalLength(packets: seq<bytes>): nat
  {
    if packets == [] then 0 else TotalLength(packets[..|packets| - 1]) + |packets[|packets| - 1]|
  }

  /** How many updates have happened after `n` packets. */
  function UpdatesAfter(n: nat): nat
  {
    if n == 0 then 0 else (n - 1) / KEY_UPDATE_INTERVAL
  }

  lemma UpdatesStep(n: nat)
    ensures n - KEY_UPDATE_INTERVAL * UpdatesAfter(n) <= KEY_UPDATE_INTERVAL
    ensures n - KEY_UPDATE_INTERVAL * UpdatesAfter(n) == KEY_UPDATE_INTERVAL
            ==> UpdatesAfter(n + 1) == UpdatesAfter(n) + 1
    ensures 0 <= n - KEY_UPDATE_INTERVAL * UpdatesAfter(n) < KEY_UPDATE_INTERVAL
            ==> UpdatesAfter(n + 1) == UpdatesAfter(n)
    ensures n - KEY_UPDATE_INTERVAL * UpdatesAfter(n) >= 0
  {
  }

  /** The cipher of `d` has consumed exactly the packets in `sent` since its key was set. */
  ghost predicate Consumed(p: Params, d: Direction, sent: seq<bytes>)
    requires ValidParams(p)
  {
    d.rc4 == Rc4.Advance(Rc4.Init(d.key[..p.keyLen]), TotalLength(sent))
  }

  lemma PumpConsumes(p: Params, d: Direction, sent: seq<bytes>, data: bytes)
    requires ValidParams(p) && Consumed(p, d, sent)
    ensures d.useCount < KEY_UPDATE_INTERVAL ==> Consumed(p, Pump(p, d, data).0, sent + [data])
    ensures d.useCount >= KEY_UPDATE_INTERVAL ==> Consumed(p, Pump(p, d, data).0, [data])
  {
    hide UpdatedKey, Rc4.Init, Rc4.Next, Rc4.Mask;
    var k := Rekey(p, d);
    var since := if d.useCount >= KEY_UPDATE_INTERVAL then [] else sent;
    assert (since + [data])[..|since|] == since;
    assert [] + [data] == [data];
    Rc4.AdvanceAdds(Rc4.Init(k.key[..p.keyLen]), TotalLength(since), |data|);
  }

  lemma PumpCounts(p: Params, d: Direction, data: bytes)
    requires ValidParams(p)
    ensures var r := Pump(p, d, data).0;
            && r.updateKey == d.updateKey
            && r.checksumCount == (d.checksumCount + 1) % WORD
            && r.useCount == (if d.useCount >= KEY_UPDATE_INTERVAL then 1 else d.useCount + 1)
            && r.key == (if d.useCount >= KEY_UPDATE_INTERVAL then UpdatedKey(p, d.updateKey, d.key) else d.key)
  {
  }

  lemma WordStep(n: nat)
    ensures (n % WORD + 1) % WORD == (n + 1) % WORD
  {
  }

  /** `d` is the direction that started from `key` and has carried `packets`: with `n` packets
      the key has been updated `(n - 1) / 4096` times, the cipher has consumed the packets sent
      since the last update, and the checksum counter is `n` in 32 bits. */
  ghost predicate Reached(p: Params, key: Key, packets: seq<bytes>, d: Direction)
    requires ValidParams(p)
  {
    var u := UpdatesAfter(|packets|);
    && d.updateKey == key
    && d.key == KeyAfter(p, key, u)
    && d.useCount == |packets| - KEY_UPDATE_INTERVAL * u
    && d.checksumCount == |packets| % WORD
    && Consumed(p, d, packets[KEY_UPDATE_INTERVAL * u..])
  }

  lemma {:induction false} ReachedStep(p: Params, key: Key, packets: seq<bytes>, d: Direction, data: bytes)
    requires ValidParams(p) && Reached(p, key, packets, d)
    ensures Reached(p, key, packets + [data], Pump(p, d, data).0)
  {
    hide UpdatedKey, Pump, Consumed, UpdatesAfter;
    var m := |packets|;
    var u, v := UpdatesAfter(m), UpdatesAfter(m + 1);
    UpdatesStep(m);
    WordStep(m);
    PumpCounts(p, d, data);
    PumpConsumes(p, d, packets[KEY_UPDATE_INTERVAL * u..], data);
    var since := (packets + [data])[KEY_UPDATE_INTERVAL * v..];
    if d.useCount < KEY_UPDATE_INTERVAL {
      assert since == packets[KEY_UPDATE_INTERVAL * u..] + [data];
    } else {
      assert since == [data];
    }
  }

  lemma ReachedAtStart(p: Params, key: Key)
    requires ValidParams(p)
    ensures Reached(p, key, [], NewDirection(p, key))
  {
    hide UpdatedKey, Rc4.Init, Rc4.Next;
  }

  /** Holds after any number of packets, of any length. */
  lemma {:induction false} StateAfterPackets(p: Params, key: Key, packets: seq<bytes>)
    requires ValidParams(p)
    ensures Reached(p, key, packets, PumpAll(p, NewDirection(p, key), packets))
  {
    hide Reached, Pump, NewDirection, UpdatedKey;
    if packets == [] {
      ReachedAtStart(p, key);
    } else {
      var m := |packets| - 1;
      StateAfterPackets(p, key, packets[..m]);
      ReachedStep(p, key, packets[..m], PumpAll(p, NewDirection(p, key), packets[..m]), packets[m]);
      assert packets[..m] + [packets[m]] == packets;
    }
  }

  /** The weak methods keep their salt through every update. */
  lemma {:induction false} SaltSurvivesUpdates(p: Params, key: Key, updates: nat)
    requires ValidParams(p) && Weaken(key, p.strength) == key
    ensures Weaken(KeyAfter(p, key, updates), p.strength) == KeyAfter(p, key, updates)
    ensures p.strength.bit40 ==> KeyAfter(p, key, updates)[..3] == SALT
    ensures !p.strength.bit40 && p.strength.bit56 ==> KeyAfter(p, key, updates)[0] == SALT[0]
  {
    var k := KeyAfter(p, key, updates);
    if updates > 0 {
      WeakenTwice(SelfEncrypted(UpdateDigest(p, key, KeyAfter(p, key, updates - 1)), p.keyLen), p.strength);
    }
    assert Weaken(k, p.strength) == k;
    if p.strength.bit40 {
      assert (SALT + k[3..])[..3] == SALT;
    } else if p.strength.bit56 {
      assert (SALT[..1] + k[1..])[0] == SALT[0];
    }
  }

  lemma WeakenTwice(key: Key, m: Method)
    ensures Weaken(Weaken(key, m), m) == Weaken(key, m)
  {
    if m.bit40 {
      assert (SALT + key[3..])[3..] == key[3..];
    } else if m.bit56 {
      assert (SALT[..1] + key[1..])[1..] == key[1..];
    }
  }

  // ----- key establishment -----

  datatype Security = Security(p: Params, enc: Direction, dec: Direction)

  ghost predicate ValidSecurity(s: Security)
  {
    ValidParams(s.p) && ValidDirection(s.enc) && ValidDirection(s.dec)
  }

  function Md5Chain(h: Hashes, secret: bytes, client: Random, server: Random, a: bytes, b: bytes, c: bytes): (r: bytes)
    ensures |r| == 48
  {
    SaltedHash(h, secret, client, server, a) + SaltedHash(h, secret, client, server, b)
    + SaltedHash(h, secret, client, server, c)
  }

  function SessionKeyBlob(h: Hashes, client: Random, server: Random): (r: bytes)
    ensures |r| == 48
  {
    var preMaster := client[..24] + server[..24];
    var master := Md5Chain(h, preMaster, client, server, [0x41], [0x42, 0x42], [0x43, 0x43, 0x43]);
    Md5Chain(h, master, client, server, [0x58], [0x59, 0x59], [0x5A, 0x5A, 0x5A])
  }

  /** Key length and salted prefix: 128-bit keys are used whole, any other method gets 8 bytes. */
  function KeyLength(m: Method): nat {
    if m.bit128 then 16 else 8
  }

  function Cut(key: Key, m: Method): Key
  {
    if m.bit128 then key
    else if m.bit56 then SALT[..1] + key[1..]
    else SALT + key[3..]
  }

  /** The client's security state. */
  function Establish(h: Hashes, client: Random, server: Random, m: Method): (s: Security)
    ensures ValidSecurity(s)
  {
    var blob := SessionKeyBlob(h, client, server);
    var p := Params(h, m, KeyLength(m), Cut(blob[..16], m));
    var decryptKey := Cut(Md5Of3(h, blob[16..32], client, server), m);
    var encryptKey := Cut(Md5Of3(h, blob[32..48], client, server), m);
    Security(p, NewDirection(p, encryptKey), NewDirection(p, decryptKey))
  }

  /** For a method `SelectMethod` chose, cutting the established keys and weakening the updated
      ones are the same operation, so the salt put in at establishment survives every update. */
  lemma EstablishedKeysAreWeak(h: Hashes, client: Random, server: Random, m: Method)
    requires SingleMethod(m)
    ensures var s := Establish(h, client, server, m);
            && Weaken(s.enc.key, m) == s.enc.key && Weaken(s.dec.key, m) == s.dec.key
            && Weaken(s.p.signKey, m) == s.p.signKey
  {
    hide Rc4.Init, SaltedHash, Md5Of3;
    forall key: Key ensures Weaken(Cut(key, m), m) == Cut(key, m) {
      assert Cut(key, m) == Weaken(key, m);
      WeakenTwice(key, m);
    }
  }
}
