/** The hand-off semaphore of sessions.js: `connecting`, `waiting`, `acquireSlot`, `releaseSlot`. */
module ConnectSlots {
  import opened Results
  import opened Bounds

  /** One call of `connect`: the session and the generation it was given. */
  datatype Call = Call(session: nat, generation: nat)

  datatype Slots = Slots(connecting: nat, waiting: seq<Call>)

  /** `Math.min(100, Math.max(1, parseInt(setting) || 4))`; a setting that does not parse is 0. */
  function Limit(parsed: int): (r: nat)
    ensures 1 <= r <= 100
    ensures 1 <= parsed <= 100 ==> r == parsed
    ensures parsed == 0 ==> r == 4
  {
    Min(100, Max(1, if parsed == 0 then 4 else parsed))
  }

  function Acquire(s: Slots, limit: nat, c: Call): (Slots, bool)
  {
    if s.connecting < limit then (s.(connecting := s.connecting + 1), true)
    else (s.(waiting := s.waiting + [c]), false)
  }

  /** A released slot goes straight to the first waiter, if there is one. */
  function Release(s: Slots): (Slots, Option<Call>)
    requires s.connecting > 0
  {
    if s.waiting != [] then (s.(waiting := s.waiting[1..]), Some(s.waiting[0]))
    else (s.(connecting := s.connecting - 1), None)
  }

  function ReleaseMany(s: Slots, k: nat): Slots
    requires k <= |s.waiting| && s.connecting > 0
    ensures ReleaseMany(s, k).connecting == s.connecting && |ReleaseMany(s, k).waiting| == |s.waiting| - k
  {
    if k == 0 then s else Release(ReleaseMany(s, k - 1)).0
  }

  /** Waiters are served in queue order: the `k`-th release hands its slot to the `k`-th waiter. */
  lemma {:induction false} ServedInOrder(s: Slots, k: nat)
    requires 0 < k <= |s.waiting| && s.connecting > 0
    ensures Release(ReleaseMany(s, k - 1)).1 == Some(s.waiting[k - 1])
    ensures ReleaseMany(s, k) == s.(waiting := s.waiting[k..])
  {
    if k > 1 {
      ServedInOrder(s, k - 1);
    }
  }

  class ConnectSlots {
    var connecting: nat
    var waiting: seq<Call>

    ghost function Contents(): Slots
      reads this
    {
      Slots(connecting, waiting)
    }

    constructor ()
      ensures Contents() == Slots(0, [])
    {
      connecting, waiting := 0, [];
    }

    method AcquireSlot(setting: int, c: Call) returns (granted: bool)
      modifies this
      ensures (Contents(), granted) == Acquire(old(Contents()), Limit(setting), c)
    {
      var limit := Limit(setting);
      if connecting < limit {
        connecting := connecting + 1;
        return true;
      }
      waiting := waiting + [c];
      granted := false;
    }

    method ReleaseSlot() returns (next: Option<Call>)
      requires connecting > 0
      modifies this
      ensures (Contents(), next) == Release(old(Contents()))
    {
      if waiting != [] {
        next := Some(waiting[0]);
        waiting := waiting[1..];
      } else {
        next := None;
        connecting := connecting - 1;
      }
    }
  }
}
