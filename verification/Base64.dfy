/** Base64 of section 4 of RFC 4648, as `btoa`/`atob` and the helpers of crypto.js use it. */
module Base64 {
  import opened Results
  import opened Bytes

  type sextet = x: int | 0 <= x < 64

  function Digit(v: sextet): char
  {
    if v < 26 then 'A' + v as char
    else if v < 52 then 'a' + (v - 26) as char
    else if v < 62 then '0' + (v - 52) as char
    else if v == 62 then '+' else '/'
  }

  function Value(c: char): Option<sextet>
  {
    if 'A' <= c <= 'Z' then Some(c as int - 'A' as int)
    else if 'a' <= c <= 'z' then Some(26 + (c as int - 'a' as int))
    else if '0' <= c <= '9' then Some(52 + (c as int - '0' as int))
    else if c == '+' then Some(62) else if c == '/' then Some(63) else None
  }

  predicate IsDigit(c: char) { Value(c).Some? }

  lemma ValueOfDigit(v: sextet)
    ensures Value(Digit(v)) == Some(v)
  {
  }

  predicate AllDigits(s: string) { forall i :: 0 <= i < |s| ==> IsDigit(s[i]) }

  // ----- encoding -----

  /** The digits of a group of one, two or three bytes. */
  function GroupDigits(g: bytes): (s: string)
    requires 1 <= |g| <= 3
    ensures |s| == |g| + 1 && AllDigits(s)
  {
    var b := if |g| > 1 then g[1] else 0;
    var c := if |g| > 2 then g[2] else 0;
    [Digit(g[0] / 4), Digit(g[0] % 4 * 16 + b / 16)]
    + (if |g| > 1 then [Digit(b % 16 * 4 + c / 64)] else [])
    + (if |g| > 2 then [Digit(c % 64)] else [])
  }

  function Digits(b: bytes): (s: string)
    ensures AllDigits(s)
  {
    if |b| == 0 then []
    else if |b| <= 3 then GroupDigits(b)
    else GroupDigits(b[..3]) + Digits(b[3..])
  }

  function Padding(b: bytes): string
  {
    if |b| % 3 == 1 then "==" else if |b| % 3 == 2 then "=" else ""
  }

  /** `btoa` of the binary string whose characters are `b`. */
  function Encode(b: bytes): string { Digits(b) + Padding(b) }

  // ----- decoding -----

  predicate IsSpace(c: char)
  {
    c == ' ' || c == '\t' || c == '\n' || c == 12 as char || c == '\r'
  }

  function Kept(p: char -> bool, c: char): string { if p(c) then [] else [c] }

  function Remove(p: char -> bool, s: string): string
  {
    if s == [] then [] else Kept(p, s[0]) + Remove(p, s[1..])
  }

  function Unpad(s: string): string
  {
    if |s| % 4 != 0 || |s| == 0 || s[|s| - 1] != '=' then s
    else if s[|s| - 2] != '=' then s[..|s| - 1]
    else s[..|s| - 2]
  }

  /** The bytes of two, three or four digits; bits left over are dropped. */
  function GroupBytes(s: string): (g: bytes)
    requires 2 <= |s| <= 4 && AllDigits(s)
    ensures |g| == |s| - 1
  {
    var u, v := Value(s[0]).value, Value(s[1]).value;
    [u * 4 + v / 16]
    + (if |s| > 2 then [v % 16 * 16 + Value(s[2]).value / 4] else [])
    + (if |s| > 3 then [Value(s[2]).value % 4 * 64 + Value(s[3]).value] else [])
  }

  function FromDigits(s: string): bytes
    requires AllDigits(s) && |s| % 4 != 1
  {
    if |s| == 0 then []
    else if |s| <= 4 then GroupBytes(s)
    else GroupBytes(s[..4]) + FromDigits(s[4..])
  }

  /** `atob`: the forgiving decoder, which skips ASCII white space and does not insist on padding. */
  function Decode(s: string): Result<bytes>
  {
    var t := Unpad(Remove(IsSpace, s));
    if |t| % 4 == 1 || !AllDigits(t) then Err else Ok(FromDigits(t))
  }

  // ----- round trip -----

  lemma {:induction false} GroupRoundTrip(g: bytes)
    requires 1 <= |g| <= 3
    ensures GroupBytes(GroupDigits(g)) == g
  {
    hide Digit, Value;
    var b := if |g| > 1 then g[1] else 0;
    var c := if |g| > 2 then g[2] else 0;
    ValueOfDigit(g[0] / 4);
    ValueOfDigit(g[0] % 4 * 16 + b / 16);
    ValueOfDigit(b % 16 * 4 + c / 64);
    ValueOfDigit(c % 64);
  }

  lemma {:induction false} DigitsCount(b: bytes)
    ensures |Digits(b)| == (4 * |b| + 2) / 3
  {
    if |b| > 3 {
      DigitsCount(b[3..]);
    }
  }

  lemma {:induction false} DigitsRoundTrip(b: bytes)
    ensures |Digits(b)| % 4 != 1 && FromDigits(Digits(b)) == b
  {
    DigitsCount(b);
    hide GroupDigits, GroupBytes;
    if 0 < |b| <= 3 {
      GroupRoundTrip(b);
    } else if |b| > 3 {
      GroupRoundTrip(b[..3]);
      DigitsRoundTrip(b[3..]);
      assert Digits(b)[..4] == GroupDigits(b[..3]);
      assert Digits(b)[4..] == Digits(b[3..]);
    }
  }

  function PaddingCount(n: nat): nat
  {
    if n % 3 == 1 then 2 else if n % 3 == 2 then 1 else 0
  }

  lemma PaddedLength(n: nat)
    ensures (4 * n + 2) / 3 + PaddingCount(n) == (n + 2) / 3 * 4
    ensures (4 - (4 * n + 2) / 3 % 4) % 4 == PaddingCount(n)
  {
    var q, r := n / 3, n % 3;
    assert n == 3 * q + r;
    assert (4 * n + 2) / 3 == 4 * q + (4 * r + 2) / 3;
  }

  lemma EncodedLength(b: bytes)
    ensures |Encode(b)| == (|b| + 2) / 3 * 4
  {
    DigitsCount(b);
    hide Digits;
    PaddedLength(|b|);
    assert |Padding(b)| == PaddingCount(|b|);
  }

  lemma {:induction false} UnpadEncoded(b: bytes)
    ensures Unpad(Encode(b)) == Digits(b)
  {
    EncodedLength(b);
    DigitsCount(b);
    hide Digits;
    var d, e := Digits(b), Encode(b);
    if Padding(b) == "" {
      assert e == d;
      assert d != [] ==> IsDigit(d[|d| - 1]);
    } else if Padding(b) == "=" {
      assert IsDigit(d[|d| - 1]);
      assert e[..|e| - 1] == d;
    } else {
      assert e[..|e| - 2] == d;
    }
  }

  predicate Free(p: char -> bool, s: string) { forall i :: 0 <= i < |s| ==> !p(s[i]) }

  lemma {:induction false} RemoveNothing(p: char -> bool, s: string)
    requires Free(p, s)
    ensures Remove(p, s) == s
  {
    if s != [] {
      RemoveNothing(p, s[1..]);
    }
  }

  lemma RemoveStep(p: char -> bool, s: string)
    requires s != []
    ensures Remove(p, s) == Kept(p, s[0]) + Remove(p, s[1..])
  {
  }

  lemma {:induction false} RemoveConcat(p: char -> bool, a: string, b: string)
    ensures Remove(p, a + b) == Remove(p, a) + Remove(p, b)
  {
    if a == [] {
      assert a + b == b;
    } else {
      var s, rest := a + b, a[1..];
      assert s[1..] == rest + b && s[0] == a[0];
      hide Remove, Kept;
      RemoveConcat(p, rest, b);
      RemoveStep(p, a);
      RemoveStep(p, s);
    }
  }

  lemma EncodedIsPlain(b: bytes)
    ensures forall i :: 0 <= i < |Encode(b)| ==> IsDigit(Encode(b)[i]) || Encode(b)[i] == '='
    ensures Free(IsSpace, Encode(b))
  {
    hide Digits;
    forall i | 0 <= i < |Encode(b)| ensures IsDigit(Encode(b)[i]) || Encode(b)[i] == '=' {
      if i < |Digits(b)| { assert Encode(b)[i] == Digits(b)[i]; }
    }
  }

  /** Decoding undoes encoding, wherever white space has been put in between. */
  lemma RoundTrip(b: bytes, s: string)
    requires Remove(IsSpace, s) == Encode(b)
    ensures Decode(s) == Ok(b)
  {
    hide Digits, FromDigits, Remove, Encode, Unpad;
    UnpadEncoded(b);
    DigitsRoundTrip(b);
  }

  lemma PlainRoundTrip(b: bytes)
    ensures Decode(Encode(b)) == Ok(b)
  {
    EncodedIsPlain(b);
    RemoveNothing(IsSpace, Encode(b));
    RoundTrip(b, Encode(b));
  }

  /** So different bytes have different encodings. */
  lemma EncodeIsInjective(a: bytes, b: bytes)
    ensures Encode(a) == Encode(b) <==> a == b
  {
    hide Encode, Decode;
    PlainRoundTrip(a);
    PlainRoundTrip(b);
  }

  // ----- the URL alphabet -----

  function ToUrl(c: char): char { if c == '+' then '-' else if c == '/' then '_' else c }

  function FromUrl(c: char): char { if c == '-' then '+' else if c == '_' then '/' else c }

  function MapChars(f: char -> char, s: string): (r: string)
    ensures |r| == |s|
  {
    seq(|s|, i requires 0 <= i < |s| => f(s[i]))
  }

  /** The members `x` and `d` of a JSON web key: the URL alphabet, without padding. */
  function UrlEncode(b: bytes): string { MapChars(ToUrl, Digits(b)) }

  function Repeat(c: char, n: nat): (s: string)
    ensures |s| == n
  {
    seq(n, _ => c)
  }

  /** `b64urlToBytes`. */
  function UrlDecode(text: string): Result<bytes>
  {
    Decode(MapChars(FromUrl, text) + Repeat('=', (4 - |text| % 4) % 4))
  }

  lemma UrlAlphabet(s: string)
    requires AllDigits(s)
    ensures MapChars(FromUrl, MapChars(ToUrl, s)) == s
  {
    forall i | 0 <= i < |s| ensures FromUrl(ToUrl(s[i])) == s[i] { assert IsDigit(s[i]); }
  }

  lemma UrlRoundTrip(b: bytes)
    ensures UrlDecode(UrlEncode(b)) == Ok(b)
  {
    hide Decode;
    UrlAlphabet(Digits(b));
    DigitsCount(b);
    hide Digits, MapChars;
    PaddedLength(|b|);
    assert Repeat('=', PaddingCount(|b|)) == Padding(b);
    PlainRoundTrip(b);
  }

  // ----- the loops -----

  /** A binary string: one character per byte. */
  function Binary(b: bytes): (s: string)
    ensures |s| == |b|
  {
    seq(|b|, i requires 0 <= i < |b| => b[i] as char)
  }

  const CHUNK := 0x8000

  /** `bytesToB64`, up to the final `btoa`: the chunks make up the whole binary string. */
  method ToBinary(b: bytes) returns (binary: string)
    ensures binary == Binary(b)
  {
    binary := "";
    var i := 0;
    while i < |b|
      invariant 0 <= i
      invariant binary == Binary(b[..if i < |b| then i else |b|])
    {
      var end := if i + CHUNK < |b| then i + CHUNK else |b|;
      binary := binary + Binary(b[i..end]);
      i := i + CHUNK;
    }
    assert b[..|b|] == b;
  }

  /** `b64ToBytes`, after `atob`: the character codes. */
  method FromBinary(binary: string) returns (b: bytes)
    requires forall i :: 0 <= i < |binary| ==> binary[i] as int < 256
    ensures Binary(b) == binary
  {
    b := [];
    var i := 0;
    while i < |binary|
      invariant 0 <= i <= |binary| && |b| == i
      invariant forall k :: 0 <= k < i ==> b[k] == binary[k] as int
    {
      b := b + [binary[i] as int];
      i := i + 1;
    }
  }
}
