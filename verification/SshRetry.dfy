/** That no retry is lost: a session that has lost its connection goes on trying until it is connected
    again or the user stops it. */
module SshRetry {
  import opened Results
  import opened ConnectSlots
  import opened SshSession
  import opened SshWorld

  predicate Busy(w: World, id: nat)
    requires id in w.sessions
  {
    Call(id, w.sessions[id].generation) in w.calls
  }

  /** An open session with nothing installed and no current call. */
  predicate Idle(w: World, id: nat)
  {
    id in w.sessions && !w.sessions[id].closed && w.sessions[id].ssh.None? && !Busy(w, id)
  }

  /** The user has stopped the session while it was idle, and it has been idle ever since. */
  predicate Stopped(events: seq<Event>, id: nat)
  {
    if events == [] then false
    else
      var before, last := events[..|events| - 1], events[|events| - 1];
      && Idle(Run(Init(), events), id)
      && (Stopped(before, id) || (last == UserStopRetry(id) && Idle(Run(Init(), before), id)))
  }

  /** An idle session without a timer was stopped, or its last attempt has failed and it was not to
      try again. */
  predicate RetryOk(w: World, id: nat, stopped: bool)
  {
    id in w.sessions ==>
      var s := w.sessions[id];
      && (s.retryTimer ==> s.autoRetry)
      && (Idle(w, id) && !s.retryTimer ==> !s.autoRetry && (s.status == Error || stopped))
  }

  /** The session will try again, or is trying. */
  predicate Retrying(w: World, id: nat)
  {
    id in w.sessions && !w.sessions[id].closed &&
    (w.sessions[id].retryTimer || (Busy(w, id) && w.sessions[id].ssh.None? && w.sessions[id].autoRetry))
  }

  function SessionOf(e: Event): nat
  {
    match e
    case Open(id, _) => id
    case Enter(call) => call.session
    case Resolve(call, _) => call.session
    case Reject(call, _) => call.session
    case RemoteClose(call, _) => call.session
    case Tick(id, _, _) => id
    case UserReconnect(id, _) => id
    case UserClose(id) => id
    case UserStopRetry(id) => id
  }

  // ----- calls -----

  lemma ConnectCalls(w: World, id: nat, setting: int)
    requires id in w.sessions
    ensures var s, w' := w.sessions[id], Connect(w, id, setting);
            && w'.sessions == (if s.closed then w.sessions else w.sessions[id := StartConnect(s)])
            && w'.calls.Keys == w.calls.Keys + (if s.closed then {} else {Call(id, s.generation + 1)})
  {
  }

  lemma FinishCalls(w: World, call: Call)
    ensures var w' := Finish(w, call);
            w'.sessions == w.sessions && w'.calls.Keys == w.calls.Keys - {call}
  {
  }

  /** A turn of another session. */
  lemma {:induction false} OtherSession(w: World, e: Event, id: nat)
    requires SessionOf(e) != id
    ensures var w' := Step(w, e);
            && (id in w.sessions <==> id in w'.sessions)
            && (id in w.sessions ==> w'.sessions[id] == w.sessions[id] && (Busy(w', id) <==> Busy(w, id)))
  {
    hide Connect, Finish, StartConnect, Install, Fail, HandleClosed, Close, DropForReconnect, StopAutoRetry, ClearRetry;
    match e
    case Open(other, setting) =>
      if other !in w.sessions { ConnectCalls(Put(w, other, NewSession()), other, setting); }
    case Enter(call) => FinishCalls(w, call);
    case Resolve(call, now) =>
      if At(w, call, Dialing) {
        var t := Install(w.sessions[call.session], call.generation, now, w.nextRow);
        FinishCalls(Take(w.(handles := w.handles[call := false]), call.session, t), call);
      }
    case Reject(call, now) =>
      if At(w, call, Dialing) {
        FinishCalls(Put(w, call.session, Fail(w.sessions[call.session], call.generation, now)), call);
      }
    case RemoteClose(call, now) =>
    case Tick(other, now, setting) =>
      if other in w.sessions { ConnectCalls(Put(w, other, ClearRetry(w.sessions[other])), other, setting); }
    case UserReconnect(other, setting) =>
      if other in w.sessions { ConnectCalls(Take(w, other, DropForReconnect(w.sessions[other])), other, setting); }
    case UserClose(other) =>
    case UserStopRetry(other) =>
  }

  // ----- a turn of the session itself -----

  /** The session after the turn, and whether its current call is then under way. */
  ghost predicate Becomes(w: World, e: Event, id: nat, s: Session, busy: bool)
  {
    var w' := Step(w, e);
    id in w'.sessions && w'.sessions[id] == s && (Busy(w', id) <==> busy)
  }

  lemma StartTurn(w: World, e: Event, id: nat)
    requires id in w.sessions || e.Open?
    requires SessionOf(e) == id && (e.Open? || e.Tick? || e.UserReconnect?)
    ensures e.Open? && id !in w.sessions ==> Becomes(w, e, id, StartConnect(NewSession()), true)
    ensures e.Tick? && RetryDue(w.sessions[id], e.now) ==>
              Becomes(w, e, id, StartConnect(ClearRetry(w.sessions[id])), true)
    ensures e.UserReconnect? ==>
              var s := DropForReconnect(w.sessions[id]).session;
              Becomes(w, e, id, if s.closed then s else StartConnect(s), if s.closed then Busy(w, id) else true)
  {
    hide Connect;
    match e
    case Open(_, setting) => ConnectCalls(Put(w, id, NewSession()), id, setting);
    case Tick(_, now, setting) => ConnectCalls(Put(w, id, ClearRetry(w.sessions[id])), id, setting);
    case UserReconnect(_, setting) => ConnectCalls(Take(w, id, DropForReconnect(w.sessions[id])), id, setting);
    case _ =>
  }

  lemma EndTurn(w: World, e: Event, id: nat)
    requires id in w.sessions && SessionOf(e) == id
    ensures e.Resolve? && At(w, e.call, Dialing) ==>
              var t := Install(w.sessions[id], e.call.generation, e.now, w.nextRow);
              Becomes(w, e, id, t.session, Busy(w, id) && e.call.generation != w.sessions[id].generation)
    ensures e.Reject? && At(w, e.call, Dialing) ==>
              Becomes(w, e, id, Fail(w.sessions[id], e.call.generation, e.now),
                      Busy(w, id) && e.call.generation != w.sessions[id].generation)
    ensures e.Enter? && (At(w, e.call, Granted) ==> Stale(w.sessions[id], e.call.generation)) ==>
              Becomes(w, e, id, w.sessions[id],
                      Busy(w, id) && (At(w, e.call, Granted) ==> e.call.generation != w.sessions[id].generation))
  {
    hide Finish;
    match e
    case Resolve(call, now) =>
      if At(w, call, Dialing) {
        var t := Install(w.sessions[id], call.generation, now, w.nextRow);
        FinishCalls(Take(w.(handles := w.handles[call := false]), id, t), call);
      }
    case Reject(call, now) =>
      if At(w, call, Dialing) { FinishCalls(Put(w, id, Fail(w.sessions[id], call.generation, now)), call); }
    case Enter(call) => FinishCalls(w, call);
    case _ =>
  }

  lemma LocalFacts(w: World, id: nat) returns (gone: bool)
    requires Safe(w) && id in w.sessions
    ensures LocalOk(w.sessions[id], Busy(w, id), gone)
  {
    gone := Call(id, w.sessions[id].generation) in w.reported;
    hide SlotsOk, CallsOk, HandlesOk, LogOk;
    assert SessionOk(w.calls.Keys, w.reported, w.handles.Keys, id, w.sessions[id]);
  }

  /** The turns that end a call. */
  lemma {:induction false} EndKeepsRetry(w: World, e: Event, id: nat, stopped: bool)
    requires Safe(w) && id in w.sessions && RetryOk(w, id, stopped) && SessionOf(e) == id
    requires e.Resolve? || e.Reject? || e.Enter?
    ensures var w' := Step(w, e); RetryOk(w', id, Idle(w', id) && stopped)
  {
    var _ := LocalFacts(w, id);
    hide Safe, Finish;
    match e
    case Resolve(call, now) =>
      if At(w, call, Dialing) { EndTurn(w, e, id); hide Step; }
    case Reject(call, now) =>
      if At(w, call, Dialing) { EndTurn(w, e, id); hide Step; }
    case Enter(call) =>
      if At(w, call, Granted) && Stale(w.sessions[id], call.generation) { EndTurn(w, e, id); hide Step; }
    case _ =>
  }

  lemma {:induction false} OwnStepKeepsRetry(w: World, e: Event, id: nat, stopped: bool)
    requires Safe(w) && RetryOk(w, id, stopped) && SessionOf(e) == id
    ensures var w' := Step(w, e);
            RetryOk(w', id, Idle(w', id) && (stopped || (e == UserStopRetry(id) && Idle(w, id))))
  {
    if id in w.sessions { var _ := LocalFacts(w, id); }
    if id in w.sessions && (e.Resolve? || e.Reject? || e.Enter?) { EndKeepsRetry(w, e, id, stopped); }
    hide Safe, Connect, Finish, Install, Fail;
    match e
    case Open(_, _) => if id !in w.sessions { StartTurn(w, e, id); }
    case Tick(_, now, _) => if id in w.sessions && RetryDue(w.sessions[id], now) { StartTurn(w, e, id); }
    case UserReconnect(_, _) => if id in w.sessions { StartTurn(w, e, id); }
    case Resolve(call, _) =>
    case Reject(call, _) =>
    case Enter(call) =>
    case RemoteClose(call, now) =>
    case UserClose(_) =>
    case UserStopRetry(_) =>
  }

  lemma {:induction false} StepKeepsRetry(w: World, e: Event, id: nat, stopped: bool)
    requires Safe(w) && RetryOk(w, id, stopped) && (stopped ==> Idle(w, id))
    ensures var w' := Step(w, e);
            RetryOk(w', id, Idle(w', id) && (stopped || (e == UserStopRetry(id) && Idle(w, id))))
  {
    hide Step, Safe;
    if SessionOf(e) == id { OwnStepKeepsRetry(w, e, id, stopped); } else { OtherSession(w, e, id); }
  }

  // ----- all runs -----

  /** In every interleaving: an open session with nothing installed, no current call and no retry timer
      is not in auto-retry; either its last attempt has failed, or the user has stopped it while it
      was waiting to try again. A running timer means auto-retry. */
  lemma {:induction false} NoRetryIsLost(events: seq<Event>, id: nat)
    ensures RetryOk(Run(Init(), events), id, Stopped(events, id))
  {
    if events != [] {
      var before := events[..|events| - 1];
      NoRetryIsLost(before, id);
      StoppedIsIdle(before, id);
      RunIsSafe(before);
      hide Step, Safe, RetryOk, Idle;
      StepKeepsRetry(Run(Init(), before), events[|events| - 1], id, Stopped(before, id));
    }
  }

  lemma StoppedIsIdle(events: seq<Event>, id: nat)
    ensures Stopped(events, id) ==> Idle(Run(Init(), events), id)
  {
    hide Idle, Run;
  }

  /** The user ends the retrying of the session. */
  predicate Ends(e: Event, id: nat)
  {
    e == UserStopRetry(id) || e == UserClose(id) || (e.UserReconnect? && e.id == id)
  }

  lemma {:induction false} OwnStepKeepsRetrying(w: World, e: Event, id: nat)
    requires Safe(w) && RetryOk(w, id, true) && SessionOf(e) == id && Retrying(w, id) && !Ends(e, id)
    ensures var w' := Step(w, e); Retrying(w', id) || (id in w'.sessions && w'.sessions[id].ssh.Some?)
  {
    var _ := LocalFacts(w, id);
    hide Safe, Connect, Finish;
    match e
    case Open(_, _) =>
    case Tick(_, now, _) => if RetryDue(w.sessions[id], now) { StartTurn(w, e, id); }
    case Resolve(call, _) => if At(w, call, Dialing) { EndTurn(w, e, id); }
    case Reject(call, _) => if At(w, call, Dialing) { EndTurn(w, e, id); }
    case Enter(call) =>
      if At(w, call, Granted) && Stale(w.sessions[id], call.generation) { EndTurn(w, e, id); }
    case RemoteClose(call, now) =>
  }

  lemma {:induction false} StepKeepsRetrying(w: World, e: Event, id: nat)
    requires Safe(w) && RetryOk(w, id, true) && Retrying(w, id) && !Ends(e, id)
    ensures var w' := Step(w, e); Retrying(w', id) || (id in w'.sessions && w'.sessions[id].ssh.Some?)
  {
    hide Step, Safe;
    if SessionOf(e) == id { OwnStepKeepsRetrying(w, e, id); } else { OtherSession(w, e, id); }
  }

  /** The turn in which the end of an installed connection is reported leaves the session retrying,
      five seconds from now. */
  lemma {:induction false} LossIsRetried(past: seq<Event>, call: Call, now: int)
    requires var w := Run(Init(), past);
             call in w.dialed && call.session in w.sessions && w.sessions[call.session].ssh == Some(call.generation)
    ensures var w' := Step(Run(Init(), past), RemoteClose(call, now));
            && Retrying(w', call.session)
            && w'.sessions[call.session].retryTimer && w'.sessions[call.session].nextRetryAt == now + RETRY_DELAY
  {
    RunIsSafe(past);
    var _ := LocalFacts(Run(Init(), past), call.session);
    hide Run, Safe;
  }

  lemma {:induction false} RetryStep(before: seq<Event>, e: Event, id: nat)
    requires Retrying(Run(Init(), before), id) && !Ends(e, id)
    ensures Retrying(Run(Init(), before + [e]), id) || InstalledAt(before + [e], id)
  {
    assert (before + [e])[..|before|] == before;
    RunIsSafe(before);
    NoRetryIsLost(before, id);
    WeakerRetryOk(Run(Init(), before), id, Stopped(before, id));
    hide Step, Retrying, Safe, RetryOk;
    StepKeepsRetrying(Run(Init(), before), e, id);
  }

  /** A retrying session goes on, attempt after attempt, until one of them is installed, as long as the
      user does not stop, close or reconnect it. */
  lemma {:induction false} RetriesUntilInstalled(past: seq<Event>, events: seq<Event>, id: nat)
    requires Retrying(Run(Init(), past), id) && forall k :: 0 <= k < |events| ==> !Ends(events[k], id)
    ensures Retrying(Run(Init(), past + events), id)
            || exists k :: 0 < k <= |events| && InstalledAt(past + events[..k], id)
  {
    hide Run, Retrying, InstalledAt, Ends;
    if events == [] {
      assert past + events == past;
    } else {
      var n := |events| - 1;
      var before := past + events[..n];
      assert past + events == before + [events[n]];
      RetriesUntilInstalled(past, events[..n], id);
      if Retrying(Run(Init(), before), id) {
        RetryStep(before, events[n], id);
        assert events[..n + 1] == events;
      } else {
        var k :| 0 < k <= n && InstalledAt(past + events[..n][..k], id);
        assert events[..n][..k] == events[..k];
      }
    }
  }

  predicate InstalledAt(events: seq<Event>, id: nat)
  {
    var w := Run(Init(), events);
    id in w.sessions && w.sessions[id].ssh.Some?
  }

  lemma WeakerRetryOk(w: World, id: nat, stopped: bool)
    requires RetryOk(w, id, stopped)
    ensures RetryOk(w, id, true)
  {
  }
}
