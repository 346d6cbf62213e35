/** The SSH wire format of section 5 of RFC 4251, as SshWriter and SshReader of crypto.js use it. */
module SshWire {
  import opened Results
  import opened Bytes

  function Low32(n: nat): (r: nat)
    ensures n < WORD <==> r == n
    ensures n >= WORD ==> r + WORD <= n
  {
    n % WORD
  }

  /** A length prefix keeps the low 32 bits of the length. */
  function WireString(b: bytes): bytes { Be32(|b|) + b }

  // ----- mpints -----

  function SkipZeros(b: bytes): bytes
  {
    if |b| > 1 && b[0] == 0 then SkipZeros(b[1..]) else b
  }

  function Mpint(b: bytes): bytes
  {
    var value := SkipZeros(b);
    if value != [] && value[0] >= 0x80 then [0] + value else value
  }

  /** Section 5 of RFC 4251 for a non-negative number: no bytes for zero; otherwise the top bit is
      clear and there is no leading zero that could be left out. */
  predicate Canonical(m: bytes)
  {
    m == [] || (m[0] < 0x80 && (m[0] == 0 ==> |m| > 1 && m[1] >= 0x80))
  }

  lemma {:induction false} FromBeZero(b: bytes)
    ensures FromBe([0] + b) == FromBe(b)
  {
    if b != [] {
      FromBeZero(b[..|b| - 1]);
      assert ([0] + b)[..|b|] == [0] + b[..|b| - 1];
    }
  }

  lemma {:induction false} SkipZerosKeepsValue(b: bytes)
    ensures FromBe(SkipZeros(b)) == FromBe(b)
    ensures SkipZeros(b) == [] <==> b == []
    ensures |SkipZeros(b)| > 1 ==> SkipZeros(b)[0] != 0
  {
    if |b| > 1 && b[0] == 0 {
      SkipZerosKeepsValue(b[1..]);
      FromBeZero(b[1..]);
      assert b == [0] + b[1..];
    }
  }

  /** A leading byte counts `256` to the power of the bytes after it. */
  lemma {:induction false} FromBeHead(x: byte, b: bytes)
    ensures FromBe([x] + b) == x * Pow256(|b|) + FromBe(b)
  {
    if b != [] {
      FromBeHead(x, b[..|b| - 1]);
      assert ([x] + b)[..|b|] == [x] + b[..|b| - 1];
      assert x * Pow256(|b|) == 256 * (x * Pow256(|b| - 1));
    } else {
      assert ([x] + b)[..0] == [];
    }
  }

  lemma {:induction false} FromBeBound(b: bytes)
    ensures FromBe(b) < Pow256(|b|)
  {
    if b != [] {
      FromBeBound(b[..|b| - 1]);
    }
  }

  lemma {:induction false} HeadBounds(b: bytes)
    requires b != []
    ensures b[0] * Pow256(|b| - 1) <= FromBe(b)
    ensures FromBe(b) < (b[0] + 1) * Pow256(|b| - 1)
  {
    assert b == [b[0]] + b[1..];
    FromBeHead(b[0], b[1..]);
    FromBeBound(b[1..]);
    assert (b[0] + 1) * Pow256(|b| - 1) == b[0] * Pow256(|b| - 1) + Pow256(|b| - 1);
  }

  lemma AtLeast(x: nat, p: nat)
    requires x > 0
    ensures x * p >= p
  {
    assert x * p == p + (x - 1) * p;
  }

  /** Without leading zeros only the empty string and `[0]` denote zero. */
  lemma ZeroValue(b: bytes)
    requires FromBe(b) == 0 && b != [] && (|b| > 1 ==> b[0] != 0)
    ensures b == [0]
  {
    HeadBounds(b);
    if b[0] > 0 {
      AtLeast(b[0], Pow256(|b| - 1));
    }
  }

  /** The number is kept, its top bit is clear, and the form is the one the RFC asks for, except that
      a zero written in one or more bytes stays one zero byte. */
  lemma MpintIsCanonical(b: bytes)
    ensures FromBe(Mpint(b)) == FromBe(b)
    ensures Mpint(b) != [] ==> Mpint(b)[0] < 0x80
    ensures Canonical(Mpint(b)) <==> (b == [] || FromBe(b) != 0)
    ensures b != [] && FromBe(b) == 0 ==> Mpint(b) == [0]
  {
    var value := SkipZeros(b);
    SkipZerosKeepsValue(b);
    FromBeZero(value);
    if b != [] && FromBe(b) == 0 {
      ZeroValue(value);
    }
    if value == [0] {
      assert FromBe([0]) == 0 by { FromBeZero([]); }
    }
  }

  /** A canonical string is as long as its number needs. */
  lemma {:induction false} FromBeLength(a: bytes, b: bytes)
    requires |a| == |b| && FromBe(a) == FromBe(b)
    ensures a == b
  {
    if a != [] {
      var n := |a| - 1;
      assert FromBe(a) == 256 * FromBe(a[..n]) + a[n];
      assert FromBe(b) == 256 * FromBe(b[..n]) + b[n];
      FromBeLength(a[..n], b[..n]);
      assert a == a[..n] + [a[n]];
      assert b == b[..n] + [b[n]];
    }
  }

  lemma {:induction false} Pow256Grows(m: nat, n: nat)
    requires m <= n
    ensures Pow256(m) <= Pow256(n)
  {
    if m < n {
      Pow256Grows(m, n - 1);
    }
  }

  /** The first byte from which a canonical string has to be written, and its weight. */
  lemma CanonicalLower(m: bytes)
    requires Canonical(m) && m != []
    ensures 128 * Pow256(|m| - 1) <= 256 * FromBe(m)
    ensures FromBe(m) < 128 * Pow256(|m| - 1)
  {
    HeadBounds(m);
    var p := Pow256(|m| - 1);
    if m[0] == 0 {
      assert m == [0] + m[1..];
      FromBeZero(m[1..]);
      HeadBounds(m[1..]);
      AtLeast128(m[1], Pow256(|m| - 2));
    } else {
      AtLeast(m[0], p);
    }
    AtMost(m[0] + 1, 128, p);
  }

  lemma AtMost(x: nat, y: nat, p: nat)
    requires x <= y
    ensures x * p <= y * p
  {
  }

  lemma AtLeast128(x: nat, p: nat)
    requires x >= 128
    ensures x * p >= 128 * p
  {
  }

  lemma CanonicalOrder(a: bytes, b: bytes)
    requires Canonical(a) && Canonical(b) && |a| < |b|
    ensures FromBe(a) < FromBe(b)
  {
    CanonicalLower(b);
    if a != [] {
      CanonicalLower(a);
      Pow256Grows(|a|, |b| - 1);
    }
  }

  /** A number has only one canonical form. */
  lemma CanonicalIsUnique(a: bytes, b: bytes)
    requires Canonical(a) && Canonical(b)
    ensures FromBe(a) == FromBe(b) <==> a == b
  {
    if FromBe(a) == FromBe(b) {
      if |a| < |b| { CanonicalOrder(a, b); }
      if |b| < |a| { CanonicalOrder(b, a); }
      FromBeLength(a, b);
    }
  }

  // ----- reading -----

  /** What a read returns and where it leaves the offset. */
  datatype Read<+T> = Read(result: Result<T>, offset: nat)

  function ReadUint32(b: bytes, offset: nat): Read<nat>
  {
    if offset + 4 > |b| then Read(Err, offset) else Read(Ok(FromBe(b[offset..offset + 4])), offset + 4)
  }

  function ReadString(b: bytes, offset: nat): (r: Read<bytes>)
    ensures r.result.Ok? ==> r.offset <= |b| && offset + 4 <= r.offset && r.result.value == b[offset + 4..r.offset]
  {
    var n := ReadUint32(b, offset);
    if n.result.Err? then Read(Err, n.offset)
    else if n.offset + n.result.value > |b| then Read(Err, n.offset)
    else Read(Ok(b[n.offset..n.offset + n.result.value]), n.offset + n.result.value)
  }

  lemma ReadWord(pre: bytes, n: nat, post: bytes)
    ensures ReadUint32(pre + Be32(n) + post, |pre|) == Read(Ok(Low32(n)), |pre| + 4)
  {
    BeRoundTrip(n, 4);
    Pow256Values();
    assert (pre + Be32(n) + post)[|pre|..|pre| + 4] == Be32(n);
  }

  /** A string whose length wraps is read back cut short. */
  lemma ReadWrapped(pre: bytes, s: bytes, post: bytes)
    ensures var n := Low32(|s|);
            n <= |s| && ReadString(pre + WireString(s) + post, |pre|) == Read(Ok(s[..n]), |pre| + 4 + n)
  {
    var b, n := pre + WireString(s) + post, Low32(|s|);
    assert b == pre + Be32(|s|) + (s + post);
    ReadWord(pre, |s|, s + post);
    hide Low32, ReadUint32, Be32, WireString;
    assert |b| >= |pre| + 4 + n;
    assert b[|pre| + 4..|pre| + 4 + n] == s[..n];
  }

  /** A string that was written is read back, and the reader stands behind it. */
  lemma ReadWireString(pre: bytes, s: bytes, post: bytes)
    requires |s| < WORD
    ensures ReadString(pre + WireString(s) + post, |pre|) == Read(Ok(s), |pre| + 4 + |s|)
  {
    hide ReadString, WireString;
    ReadWrapped(pre, s, post);
    assert s[..|s|] == s;
  }

  // ----- sequences of fields -----

  datatype Field = Word(n: nat) | Str(s: bytes)

  function WriteField(f: Field): bytes
  {
    match f
    case Word(n) => Be32(n)
    case Str(s) => WireString(s)
  }

  function WriteFields(fields: seq<Field>): bytes
  {
    if fields == [] then [] else WriteField(fields[0]) + WriteFields(fields[1..])
  }

  datatype Kind = WordKind | StrKind

  function KindOf(f: Field): Kind { if f.Word? then WordKind else StrKind }

  function KindsOf(fields: seq<Field>): (r: seq<Kind>)
    ensures |r| == |fields|
  {
    seq(|fields|, i requires 0 <= i < |fields| => KindOf(fields[i]))
  }

  function ReadField(b: bytes, offset: nat, kind: Kind): Read<Field>
  {
    match kind
    case WordKind =>
      var r := ReadUint32(b, offset);
      Read(if r.result.Ok? then Ok(Word(r.result.value)) else Err, r.offset)
    case StrKind =>
      var r := ReadString(b, offset);
      Read(if r.result.Ok? then Ok(Str(r.result.value)) else Err, r.offset)
  }

  /** Reads fields of the given kinds one after the other. */
  function ReadFields(b: bytes, offset: nat, kinds: seq<Kind>): Read<seq<Field>>
    decreases |kinds|
  {
    if kinds == [] then Read(Ok([]), offset)
    else
      var first := ReadField(b, offset, kinds[0]);
      if first.result.Err? then Read(Err, first.offset)
      else
        var rest := ReadFields(b, first.offset, kinds[1..]);
        Read(if rest.result.Ok? then Ok([first.result.value] + rest.result.value) else Err, rest.offset)
  }

  predicate Fits(f: Field)
  {
    match f
    case Word(n) => n < WORD
    case Str(s) => |s| < WORD
  }

  lemma ReadWrittenField(pre: bytes, f: Field, post: bytes)
    ensures Fits(f) <==>
            ReadField(pre + WriteField(f) + post, |pre|, KindOf(f)) == Read(Ok(f), |pre| + |WriteField(f)|)
    ensures !Fits(f) ==>
            var r := ReadField(pre + WriteField(f) + post, |pre|, KindOf(f)); r.result != Ok(f)
  {
    match f
    case Word(n) => ReadWord(pre, n, post);
    case Str(s) =>
      if |s| < WORD {
        ReadWireString(pre, s, post);
      } else {
        assert pre + WriteField(f) + post == pre + Be32(|s|) + (s + post);
        ReadWord(pre, |s|, s + post);
      }
  }

  /** What was written is read back field by field, ending exactly at the end, if and only if no
      number and no length needs more than 32 bits. */
  lemma {:induction false} FieldsRoundTrip(pre: bytes, fields: seq<Field>)
    ensures (forall i :: 0 <= i < |fields| ==> Fits(fields[i])) <==>
            var b := pre + WriteFields(fields);
            ReadFields(b, |pre|, KindsOf(fields)) == Read(Ok(fields), |b|)
    decreases |fields|
  {
    var b := pre + WriteFields(fields);
    hide WriteField, ReadField, Fits;
    if fields != [] {
      var first, rest := fields[0], fields[1..];
      assert b == pre + WriteField(first) + WriteFields(rest);
      assert KindsOf(fields)[1..] == KindsOf(rest);
      ReadWrittenField(pre, first, WriteFields(rest));
      if Fits(first) {
        FieldsRoundTrip(pre + WriteField(first), rest);
        assert fields == [first] + rest;
        var r := ReadFields(b, |pre| + |WriteField(first)|, KindsOf(rest));
        assert r.result.Ok? ==> ([first] + r.result.value == fields <==> r.result.value == rest) by {
          if r.result.Ok? { assert ([first] + r.result.value)[1..] == r.result.value; }
        }
        if forall i :: 0 <= i < |rest| ==> Fits(rest[i]) {
          forall i | 0 <= i < |fields| ensures Fits(fields[i]) { if i > 0 { assert fields[i] == rest[i - 1]; } }
        } else {
          var i :| 0 <= i < |rest| && !Fits(rest[i]);
          assert !Fits(fields[i + 1]);
        }
      } else {
        assert !Fits(fields[0]);
      }
    }
  }

  // ----- the objects -----

  /** `concat`: every part is copied behind the one before it. */
  method Concat(parts: seq<bytes>) returns (out: bytes)
    ensures out == Flatten(parts)
  {
    out := [];
    var i := 0;
    while i < |parts|
      invariant 0 <= i <= |parts| && out == Flatten(parts[..i])
    {
      out := out + parts[i];
      FlattenAppend(parts[..i], parts[i]);
      assert parts[..i + 1] == parts[..i] + [parts[i]];
      i := i + 1;
    }
    assert parts[..|parts|] == parts;
  }

  class SshWriter {
    var parts: seq<bytes>

    ghost function Contents(): bytes
      reads this
    {
      Flatten(parts)
    }

    constructor ()
      ensures Contents() == []
    {
      parts := [];
    }

    method Raw(b: bytes)
      modifies this
      ensures Contents() == old(Contents()) + b
    {
      FlattenAppend(parts, b);
      parts := parts + [b];
    }

    method Uint32(n: nat)
      modifies this
      ensures Contents() == old(Contents()) + Be32(n)
    {
      Raw(Be32(n));
    }

    method String(b: bytes)
      modifies this
      ensures Contents() == old(Contents()) + WireString(b)
    {
      Uint32(|b|);
      Raw(b);
    }

    method MpInt(b: bytes)
      modifies this
      ensures Contents() == old(Contents()) + WireString(Mpint(b))
    {
      var start := 0;
      while start < |b| - 1 && b[start] == 0
        invariant 0 <= start && (start < |b| || start == 0)
        invariant SkipZeros(b[start..]) == SkipZeros(b)
      {
        start := start + 1;
      }
      var value := b[start..];
      if value != [] && value[0] >= 0x80 {
        value := [0] + value;
      }
      String(value);
    }

    method ToBytes() returns (b: bytes)
      ensures b == Contents()
    {
      b := Concat(parts);
    }
  }

  class SshReader {
    const data: bytes
    var offset: nat

    constructor (data: bytes)
      ensures this.data == data && offset == 0
    {
      this.data := data;
      offset := 0;
    }

    method Uint32() returns (r: Result<nat>)
      modifies this
      ensures Read(r, offset) == ReadUint32(data, old(offset))
    {
      if offset + 4 > |data| { return Err; }
      r := Ok(FromBe(data[offset..offset + 4]));
      offset := offset + 4;
    }

    method String() returns (r: Result<bytes>)
      modifies this
      ensures Read(r, offset) == ReadString(data, old(offset))
    {
      var length := Uint32();
      if length.Err? { return Err; }
      var from := if offset < |data| then offset else |data|;
      var to := if offset + length.value < |data| then offset + length.value else |data|;
      var out := data[from..to];
      if |out| != length.value { return Err; }
      offset := offset + length.value;
      r := Ok(out);
    }
  }
}
