/** RC4 (rust/src/rdp_security.rs, `struct Rc4`): the key schedule and the stream,
    as functions on the 256-byte state and as the class that updates it in place. */
module Rc4 {
  import opened Bytes
  import opened Iteration

  const STATE_SIZE := 256

  /** Every byte value occurs exactly once. */
  ghost predicate IsPermutation(s: bytes)
  {
    && |s| == STATE_SIZE
    && forall v: byte :: multiset(s)[v] == 1
  }

  function Identity(): (s: bytes)
    ensures |s| == STATE_SIZE && forall k :: 0 <= k < |s| ==> s[k] == k
  {
    seq(STATE_SIZE, k requires 0 <= k < STATE_SIZE => k)
  }

  function Swap(s: bytes, a: nat, b: nat): (r: bytes)
    requires a < |s| && b < |s|
    ensures |r| == |s|
  {
    s[a := s[b]][b := s[a]]
  }

  lemma SwapKeepsPermutation(s: bytes, a: nat, b: nat)
    requires IsPermutation(s) && a < |s| && b < |s|
    ensures IsPermutation(Swap(s, a, b))
  {
    assert multiset(Swap(s, a, b)) == multiset(s);
  }

  type State = s: bytes | |s| == STATE_SIZE witness Identity()

  datatype Stream = Stream(s: State, i: byte, j: byte)

  ghost predicate Ready(c: Stream)
  {
    IsPermutation(c.s)
  }

  // ----- key schedule -----

  lemma {:induction false} PrefixOfIdentity(s: bytes, n: nat, v: byte)
    requires |s| == n <= STATE_SIZE && forall k :: 0 <= k < n ==> s[k] == k
    ensures multiset(s)[v] == if v < n then 1 else 0
  {
    if n > 0 {
      assert s == s[..n - 1] + [n - 1];
      PrefixOfIdentity(s[..n - 1], n - 1, v);
    }
  }

  lemma IdentityIsPermutation()
    ensures IsPermutation(Identity())
  {
    forall v: byte ensures multiset(Identity())[v] == 1 {
      PrefixOfIdentity(Identity(), STATE_SIZE, v);
    }
  }

  /** The key, repeated as often as needed. */
  function KeyByte(key: bytes, k: nat): byte
    requires key != []
  {
    key[k % |key|]
  }

  function Mix(j: byte, s: byte, k: byte): byte { (j + s + k) % 256 }

  /** State and `j` after the first `n` rounds of the key schedule. */
  function Schedule(key: bytes, n: nat): (r: (bytes, byte))
    requires key != [] && n <= STATE_SIZE
    ensures |r.0| == STATE_SIZE
  {
    if n == 0 then (Identity(), 0)
    else
      var (s, j) := Schedule(key, n - 1);
      var j' := Mix(j, s[n - 1], KeyByte(key, n - 1));
      (Swap(s, n - 1, j'), j')
  }

  function Init(key: bytes): Stream
    requires key != []
  {
    Stream(Schedule(key, STATE_SIZE).0, 0, 0)
  }

  lemma {:induction false} ScheduleIsPermutation(key: bytes, n: nat)
    requires key != [] && n <= STATE_SIZE
    ensures IsPermutation(Schedule(key, n).0)
  {
    if n == 0 {
      IdentityIsPermutation();
    } else {
      ScheduleIsPermutation(key, n - 1);
      hide IsPermutation, Swap, Identity, KeyByte, Mix;
      var (s, j) := Schedule(key, n - 1);
      SwapKeepsPermutation(s, n - 1, Mix(j, s[n - 1], KeyByte(key, n - 1)));
    }
  }

  // ----- stream -----

  function Next(c: Stream): (r: Stream)
  {
    var i := (c.i + 1) % 256;
    var j := (c.j + c.s[i]) % 256;
    Stream(Swap(c.s, i, j), i, j)
  }

  /** The key byte the stream yields just after `Next`. */
  function Output(c: Stream): byte
  {
    c.s[(c.s[c.i] as int + c.s[c.j]) % 256]
  }

  function Advance(c: Stream, n: nat): Stream
  {
    Iterate(Next, c, n)
  }

  function Mask(c: Stream, data: bytes): (r: bytes)
    ensures |r| == |data|
  {
    seq(|data|, k requires 0 <= k < |data| => Xor(data[k], Output(Advance(c, k + 1))))
  }

  /** Stream and data after the whole of `data` has been masked. */
  function Apply(c: Stream, data: bytes): (r: (Stream, bytes))
    ensures |r.1| == |data|
  {
    (Advance(c, |data|), Mask(c, data))
  }

  /** A stream built from a non-empty key is a permutation with both indices at zero. */
  lemma InitIsReady(key: bytes)
    requires key != []
    ensures Ready(Init(key)) && Init(key).i == 0 && Init(key).j == 0
  {
    ScheduleIsPermutation(key, STATE_SIZE);
  }

  lemma NextKeepsReady(c: Stream)
    requires Ready(c)
    ensures Ready(Next(c))
  {
    var i := (c.i + 1) % 256;
    SwapKeepsPermutation(c.s, i, (c.j + c.s[i]) % 256);
  }

  lemma {:induction false} AdvanceKeepsReady(c: Stream, n: nat)
    requires Ready(c)
    ensures Ready(Advance(c, n))
  {
    hide Next, Ready;
    if n > 0 {
      AdvanceKeepsReady(c, n - 1);
      NextKeepsReady(Advance(c, n - 1));
    }
  }

  lemma AdvanceAdds(c: Stream, m: nat, n: nat)
    ensures Advance(c, m + n) == Advance(Advance(c, m), n)
  {
    IterateAdds(Next, c, m, n);
  }

  /** The stream is independent of how the data is cut into pieces. */
  lemma {:induction false} ApplyConcat(c: Stream, a: bytes, b: bytes)
    ensures Apply(c, a + b).0 == Apply(Apply(c, a).0, b).0
    ensures Apply(c, a + b).1 == Apply(c, a).1 + Apply(Apply(c, a).0, b).1
  {
    AdvanceAdds(c, |a|, |b|);
    var whole, parts := Mask(c, a + b), Mask(c, a) + Mask(Advance(c, |a|), b);
    forall k | 0 <= k < |a| + |b| ensures whole[k] == parts[k] {
      if k >= |a| {
        AdvanceAdds(c, |a|, k - |a| + 1);
      }
    }
    assert whole == parts;
  }

  /** Two equal streams applied one after the other restore the data and stay equal. */
  lemma ApplyTwice(c: Stream, data: bytes)
    ensures Apply(c, Apply(c, data).1) == (Apply(c, data).0, data)
  {
    var twice := Mask(c, Mask(c, data));
    forall k | 0 <= k < |data| ensures twice[k] == data[k] {
      XorTwice(data[k], Output(Advance(c, k + 1)));
    }
    assert twice == data;
  }

  // ----- the class -----

  class Cipher {
    const state: array<byte>
    var i: byte
    var j: byte

    ghost predicate Valid()
      reads this, state
    {
      state.Length == STATE_SIZE && IsPermutation(state[..])
    }

    ghost function Contents(): (c: Stream)
      reads this, state
      requires state.Length == STATE_SIZE
    {
      Stream(state[..], i, j)
    }

    constructor (key: bytes)
      requires key != []
      ensures Valid() && fresh(state)
      ensures Contents() == Init(key)
    {
      state := new byte[STATE_SIZE](k => 0);
      i, j := 0, 0;
      new;
      for k := 0 to STATE_SIZE
        invariant i == j == 0
        invariant forall m :: 0 <= m < k ==> state[m] == m
      {
        state[k] := k;
      }
      assert state[..] == Identity();
      var jj: byte := 0;
      for k := 0 to STATE_SIZE
        invariant (state[..], jj) == Schedule(key, k)
        invariant i == j == 0
      {
        ghost var before := state[..];
        jj := Mix(jj, state[k], KeyByte(key, k));
        state[k], state[jj] := state[jj], state[k];
        assert state[..] == Swap(before, k, jj);
      }
      InitIsReady(key);
    }

    /** Encrypts or decrypts `data` in place. */
    method Transform(data: array<byte>)
      requires Valid() && data != state
      modifies this, state, data
      ensures Valid()
      ensures (Contents(), data[..]) == Apply(old(Contents()), old(data[..]))
    {
      ghost var c0, d0 := Contents(), data[..];
      for n := 0 to data.Length
        invariant state.Length == STATE_SIZE
        invariant Contents() == Advance(c0, n)
        invariant forall k :: 0 <= k < n ==> data[k] == Xor(d0[k], Output(Advance(c0, k + 1)))
        invariant forall k :: n <= k < data.Length ==> data[k] == d0[k]
      {
        MaskStep(data, n, c0);
      }
      assert data[..] == Mask(c0, d0);
      AdvanceKeepsReady(c0, |d0|);
    }

    method StepStream()
      requires state.Length == STATE_SIZE
      modifies this, state
      ensures Contents() == Next(old(Contents()))
    {
      i := (i + 1) % 256;
      j := (j + state[i]) % 256;
      state[i], state[j] := state[j], state[i];
      assert state[..] == Swap(old(state[..]), i, j);
    }

    /** One turn of the loop: one step of the stream, one byte masked. */
    method MaskStep(data: array<byte>, n: nat, ghost c0: Stream)
      requires state.Length == STATE_SIZE && data != state && n < data.Length
      requires Contents() == Advance(c0, n)
      modifies this, state, data
      ensures Contents() == Advance(c0, n + 1)
      ensures data[n] == Xor(old(data[n]), Output(Contents()))
      ensures forall k :: 0 <= k < data.Length && k != n ==> data[k] == old(data[k])
    {
      hide Next, Xor;
      StepStream();
      var idx := (state[i] as int + state[j]) % 256;
      data[n] := Xor(data[n], state[idx]);
    }
  }
}
