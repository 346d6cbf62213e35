/** The order in which waiting `connect` calls get their slots, over whole runs. */
module SshQueue {
  import opened Results
  import opened ConnectSlots
  import opened SshSession
  import opened SshWorld

  /** Some call ends in this step and gives its slot back. */
  ghost predicate Ends(w: World, w': World)
  {
    exists c :: c in w.calls && c !in w'.calls
  }

  ghost predicate Newcomer(w: World, w': World, c: Call)
  {
    !Known(w.sessions, c) && c in w'.calls && w'.slots.waiting == w.slots.waiting + [c]
  }

  /** The queue loses its head, which is granted the slot, exactly when a call ends; otherwise it
      stays, or a call that never was there before joins its end. */
  ghost predicate Moves(w: World, w': World)
  {
    if Ends(w, w') then
      if w.slots.waiting == [] then w'.slots.waiting == []
      else
        && w'.slots.waiting == w.slots.waiting[1..]
        && w.slots.waiting[0] in w'.calls && w'.calls[w.slots.waiting[0]] == Granted
    else w'.slots.waiting == w.slots.waiting || exists c :: Newcomer(w, w', c)
  }

  ghost predicate KnownStays(w: World, w': World)
  {
    forall c :: Known(w.sessions, c) ==> Known(w'.sessions, c)
  }

  lemma ConnectMoves(w: World, id: nat, setting: int)
    requires id in w.sessions && (forall c :: c in w.calls ==> Known(w.sessions, c))
    ensures Moves(w, Connect(w, id, setting)) && KnownStays(w, Connect(w, id, setting))
  {
    var w' := Connect(w, id, setting);
    var s := w.sessions[id];
    if !s.closed {
      var call := Call(id, s.generation + 1);
      assert !Known(w.sessions, call);
      assert w'.calls.Keys == w.calls.Keys + {call};
      if w'.slots.waiting != w.slots.waiting { assert Newcomer(w, w', call); }
    }
  }

  lemma FinishMoves(w: World, call: Call)
    requires SlotsOk(w.calls, w.slots) && call in w.calls && w.calls[call] != Waiting
    ensures Moves(w, Finish(w, call)) && KnownStays(w, Finish(w, call))
  {
    FinishKeepsSlots(w, call);
    var w' := Finish(w, call);
    assert call in w.calls && call !in w'.calls;
    assert call in Holders(w.calls);
    if w.slots.waiting != [] {
      var head := w.slots.waiting[0];
      assert head in w.slots.waiting;
    }
  }

  /** A turn of a session in front of it makes no difference. */
  lemma MovesAfter(w: World, w1: World, w2: World)
    requires w1.calls == w.calls && w1.slots == w.slots && KnownStays(w, w1)
    requires Moves(w1, w2) && KnownStays(w1, w2)
    ensures Moves(w, w2) && KnownStays(w, w2)
  {
    assert Ends(w, w2) <==> Ends(w1, w2);
    if !Ends(w, w2) && w2.slots.waiting != w.slots.waiting {
      var c :| Newcomer(w1, w2, c);
      assert Newcomer(w, w2, c);
    }
  }

  lemma MovesNowhere(w: World, w': World)
    requires w'.calls.Keys == w.calls.Keys && w'.slots == w.slots && KnownStays(w, w')
    ensures Moves(w, w')
  {
  }

  lemma TakeKnows(w: World, id: nat, t: Turn)
    requires id in w.sessions ==> w.sessions[id].generation <= t.session.generation
    ensures KnownStays(w, Take(w, id, t)) && KnownStays(w, Put(w, id, t.session))
  {
  }

  lemma CallsAreKnown(w: World)
    requires Safe(w)
    ensures forall c :: c in w.calls ==> Known(w.sessions, c)
  {
    hide SlotsOk, SessionsOk, HandlesOk, LogOk;
  }

  lemma ConnectAfter(w: World, w1: World, id: nat, setting: int)
    requires Safe(w) && id in w1.sessions
    requires w1.calls == w.calls && w1.slots == w.slots && KnownStays(w, w1)
    ensures Moves(w, Connect(w1, id, setting)) && KnownStays(w, Connect(w1, id, setting))
  {
    CallsAreKnown(w);
    hide Moves, Connect, Safe;
    ConnectMoves(w1, id, setting);
    MovesAfter(w, w1, Connect(w1, id, setting));
  }

  lemma FinishAfter(w: World, w1: World, call: Call)
    requires Safe(w) && call in w.calls && w.calls[call] != Waiting
    requires w1.calls == w.calls && w1.slots == w.slots && KnownStays(w, w1)
    ensures Moves(w, Finish(w1, call)) && KnownStays(w, Finish(w1, call))
  {
    hide Moves, Finish, SlotsOk, CoreOk;
    FinishMoves(w1, call);
    MovesAfter(w, w1, Finish(w1, call));
  }

  lemma {:induction false} StepMovesQueue(w: World, e: Event)
    requires Safe(w)
    ensures Moves(w, Step(w, e)) && KnownStays(w, Step(w, e))
  {
    hide Safe, Connect, Finish, Moves, KnownStays, Put, Take;
    SelfStays(w);
    match e
    case Open(id, setting) =>
      if id !in w.sessions { OpenTurn(w, id); ConnectAfter(w, Put(w, id, NewSession()), id, setting); }
    case Enter(call) =>
      if At(w, call, Granted) {
        if Stale(w.sessions[call.session], call.generation) { FinishAfter(w, w, call); } else { EnterMoves(w, call); }
      }
    case Resolve(call, now) =>
      if At(w, call, Dialing) {
        var created := w.(handles := w.handles[call := false]);
        var t := Install(w.sessions[call.session], call.generation, now, w.nextRow);
        CreatedTurn(w, created, call.session, t);
        FinishAfter(w, Take(created, call.session, t), call);
      }
    case Reject(call, now) =>
      if At(w, call, Dialing) {
        var t := Turn(Fail(w.sessions[call.session], call.generation, now), None, None);
        OneTurn(w, call.session, t);
        FinishAfter(w, Put(w, call.session, t.session), call);
      }
    case RemoteClose(call, now) =>
      if call in w.dialed && call.session in w.sessions {
        ReportTurn(w, call, HandleClosed(w.sessions[call.session], call.generation, now));
      }
    case Tick(id, now, setting) =>
      if id in w.sessions && RetryDue(w.sessions[id], now) {
        OneTurn(w, id, Turn(ClearRetry(w.sessions[id]), None, None));
        ConnectAfter(w, Put(w, id, ClearRetry(w.sessions[id])), id, setting);
      }
    case UserReconnect(id, setting) =>
      if id in w.sessions {
        OneTurn(w, id, DropForReconnect(w.sessions[id]));
        ConnectAfter(w, Take(w, id, DropForReconnect(w.sessions[id])), id, setting);
      }
    case UserClose(id) =>
      if id in w.sessions { OneTurn(w, id, Close(w.sessions[id])); }
    case UserStopRetry(id) =>
      if id in w.sessions { OneTurn(w, id, Turn(StopAutoRetry(w.sessions[id]), None, None)); }
  }

  lemma SelfStays(w: World)
    ensures Moves(w, w) && KnownStays(w, w)
  {
  }

  lemma OpenTurn(w: World, id: nat)
    requires id !in w.sessions
    ensures var w1 := Put(w, id, NewSession());
            w1.calls == w.calls && w1.slots == w.slots && KnownStays(w, w1) && id in w1.sessions
  {
  }

  lemma OneTurn(w: World, id: nat, t: Turn)
    requires id in w.sessions && w.sessions[id].generation == t.session.generation
    ensures forall w1 :: w1 == Take(w, id, t) || w1 == Put(w, id, t.session) ==>
              && w1.calls == w.calls && w1.slots == w.slots && KnownStays(w, w1) && Moves(w, w1) && id in w1.sessions
  {
    TakeKnows(w, id, t);
  }

  lemma CreatedTurn(w: World, created: World, id: nat, t: Turn)
    requires id in w.sessions && w.sessions[id].generation == t.session.generation
    requires created.calls == w.calls && created.slots == w.slots && created.sessions == w.sessions
    ensures var w1 := Take(created, id, t);
            w1.calls == w.calls && w1.slots == w.slots && KnownStays(w, w1)
  {
    TakeKnows(created, id, t);
  }

  lemma ReportTurn(w: World, call: Call, t: Turn)
    requires call.session in w.sessions && w.sessions[call.session].generation == t.session.generation
    ensures var w1 := Take(w, call.session, t).(reported := w.reported + {call});
            KnownStays(w, w1) && Moves(w, w1)
  {
    TakeKnows(w, call.session, t);
  }

  lemma EnterMoves(w: World, call: Call)
    requires call in w.calls
    ensures var w1 := w.(calls := w.calls[call := Dialing], dialed := w.dialed + {call});
            KnownStays(w, w1) && Moves(w, w1)
  {
    MovesNowhere(w, w.(calls := w.calls[call := Dialing], dialed := w.dialed + {call}));
  }

  // ----- runs -----

  /** How many slots are given back in a run. */
  ghost function Releases(w: World, events: seq<Event>): nat
  {
    if events == [] then 0
    else
      var before := events[..|events| - 1];
      Releases(w, before) + if Ends(Run(w, before), Run(w, events)) then 1 else 0
  }

  lemma {:induction false} RunKeepsSafe(w: World, events: seq<Event>)
    requires Safe(w) && DialingKnown(w)
    ensures Safe(Run(w, events)) && DialingKnown(Run(w, events))
  {
    hide Safe, Step;
    if events != [] {
      RunKeepsSafe(w, events[..|events| - 1]);
      StepKeepsSafe(Run(w, events[..|events| - 1]), events[|events| - 1]);
    }
  }

  /** Where the call that was at place `k` of the queue is after `n` releases. */
  ghost predicate Served(w: World, c: Call, k: nat, n: nat)
  {
    && Known(w.sessions, c)
    && (n <= k ==> k - n < |w.slots.waiting| && w.slots.waiting[k - n] == c)
    && (n > k ==> c !in w.slots.waiting)
  }

  lemma ServedStep(w: World, w': World, c: Call, k: nat, n: nat)
    requires Served(w, c, k, n) && Distinct(w.slots.waiting) && Moves(w, w') && KnownStays(w, w')
    ensures Served(w', c, k, n + if Ends(w, w') then 1 else 0)
    ensures n == k && Ends(w, w') ==> c in w'.calls && w'.calls[c] == Granted
  {
    var q := w.slots.waiting;
    if Ends(w, w') {
      if n == k {
        forall j | 1 <= j < |q| ensures q[j] != c { assert q[0] == c; }
      }
    } else if w'.slots.waiting != q {
      var d :| Newcomer(w, w', d);
      assert d != c;
    }
  }

  /** First come, first served, in every interleaving: from any reachable state on, the call at
      place `k` (counted from zero) moves up by one place with every release, whatever else happens,
      stays in the queue for `k` releases, and is granted the slot by the next one, for good. */
  lemma {:induction false} ServedInTurn(past: seq<Event>, events: seq<Event>, k: nat)
    requires k < |Run(Init(), past).slots.waiting|
    ensures var w := Run(Init(), past);
            var n := Releases(w, events);
            Served(Run(w, events), w.slots.waiting[k], k, n)
    ensures var w := Run(Init(), past);
            var c := w.slots.waiting[k];
            events != [] && Releases(w, events[..|events| - 1]) == k && Releases(w, events) == k + 1 ==>
              c in Run(w, events).calls && Run(w, events).calls[c] == Granted
  {
    var w := Run(Init(), past);
    var c := w.slots.waiting[k];
    RunIsSafe(past);
    hide Step, Moves, KnownStays, CoreOk;
    if events == [] {
      WaitingIsKnown(w, c);
    } else {
      var before := events[..|events| - 1];
      ServedInTurn(past, before, k);
      RunKeepsSafe(w, before);
      StepMovesQueue(Run(w, before), events[|events| - 1]);
      ServedStep(Run(w, before), Run(w, events), c, k, Releases(w, before));
    }
  }

  lemma WaitingIsKnown(w: World, c: Call)
    requires Safe(w) && c in w.slots.waiting
    ensures Known(w.sessions, c)
  {
    CallsAreKnown(w);
  }
}
