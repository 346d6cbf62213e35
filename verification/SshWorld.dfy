/** All sessions together: every interleaving of `connect` calls, slot hand-offs, retries, remote
    closes and user actions. A step is one turn of the event loop. */
module SshWorld {
  import opened Results
  import opened ConnectSlots
  import opened SshSession

  /** Waiting for a slot, holding one that was just granted, or past the check and dialing. */
  datatype Stage = Waiting | Granted | Dialing

  datatype World = World(
    sessions: map<nat, Session>,
    calls: map<Call, Stage>,
    slots: Slots,
    dialed: set<Call>,
    handles: map<Call, bool>,
    reported: set<Call>,
    log: multiset<LogOp>,
    nextRow: nat)

  datatype Event =
    | Open(id: nat, setting: int)
    | Enter(call: Call)
    | Resolve(call: Call, now: int)
    | Reject(call: Call, now: int)
    | RemoteClose(call: Call, now: int)
    | Tick(id: nat, now: int, setting: int)
    | UserReconnect(id: nat, setting: int)
    | UserClose(id: nat)
    | UserStopRetry(id: nat)

  function Init(): World {
    World(map[], map[], Slots(0, []), {}, map[], {}, multiset{}, 0)
  }

  /** The session takes a turn: its handle may be closed and a log row opened or closed. */
  function Take(w: World, id: nat, t: Turn): World
  {
    w.(sessions := w.sessions[id := t.session],
       handles := if t.closes.Some? then w.handles[Call(id, t.closes.value) := true] else w.handles,
       log := if t.log.Some? then w.log + multiset{t.log.value} else w.log,
       nextRow := if t.log.Some? && t.log.value.Opened? then w.nextRow + 1 else w.nextRow)
  }

  function Put(w: World, id: nat, s: Session): World
  {
    w.(sessions := w.sessions[id := s])
  }

  /** `connect(session)` up to its first `await`. */
  function Connect(w: World, id: nat, setting: int): World
    requires id in w.sessions
  {
    var s := w.sessions[id];
    if s.closed then w
    else
      var t := StartConnect(s);
      var call := Call(id, t.generation);
      var (slots, granted) := Acquire(w.slots, Limit(setting), call);
      w.(sessions := w.sessions[id := t], slots := slots, calls := w.calls[call := if granted then Granted else Waiting])
  }

  /** The `finally` of `connect`: the call ends and its slot goes on. */
  function Finish(w: World, call: Call): World
  {
    if w.slots.connecting == 0 then w.(calls := w.calls - {call})
    else
      var (slots, next) := Release(w.slots);
      var rest := w.calls - {call};
      w.(slots := slots,
         calls := if next.Some? && next.value in rest then rest[next.value := Granted] else rest)
  }

  predicate At(w: World, call: Call, stage: Stage) {
    call in w.calls && w.calls[call] == stage && call.session in w.sessions
  }

  function Step(w: World, e: Event): World
  {
    match e
    case Open(id, setting) =>
      if id in w.sessions then w else Connect(Put(w, id, NewSession()), id, setting)
    case Enter(call) =>
      if !At(w, call, Granted) then w
      else if Stale(w.sessions[call.session], call.generation) then Finish(w, call)
      else w.(calls := w.calls[call := Dialing], dialed := w.dialed + {call})
    case Resolve(call, now) =>
      if !At(w, call, Dialing) then w
      else
        var created := w.(handles := w.handles[call := false]);
        Finish(Take(created, call.session, Install(w.sessions[call.session], call.generation, now, w.nextRow)), call)
    case Reject(call, now) =>
      if !At(w, call, Dialing) then w
      else Finish(Put(w, call.session, Fail(w.sessions[call.session], call.generation, now)), call)
    case RemoteClose(call, now) =>
      if call !in w.dialed || call.session !in w.sessions then w
      else
        Take(w, call.session, HandleClosed(w.sessions[call.session], call.generation, now))
        .(reported := w.reported + {call})
    case Tick(id, now, setting) =>
      if id !in w.sessions || !RetryDue(w.sessions[id], now) then w
      else Connect(Put(w, id, ClearRetry(w.sessions[id])), id, setting)
    case UserReconnect(id, setting) =>
      if id !in w.sessions then w else Connect(Take(w, id, DropForReconnect(w.sessions[id])), id, setting)
    case UserClose(id) =>
      if id !in w.sessions then w else Take(w, id, Close(w.sessions[id]))
    case UserStopRetry(id) =>
      if id !in w.sessions then w else Put(w, id, StopAutoRetry(w.sessions[id]))
  }

  function Run(w: World, events: seq<Event>): World
  {
    if events == [] then w else Step(Run(w, events[..|events| - 1]), events[|events| - 1])
  }

  // ----- slots -----

  ghost predicate Distinct(q: seq<Call>)
  {
    forall i, j :: 0 <= i < j < |q| ==> q[i] != q[j]
  }

  function Holders(calls: map<Call, Stage>): set<Call>
  {
    set c | c in calls && calls[c] != Waiting
  }

  /** `connecting` is the number of calls that hold a slot, the queue holds exactly the calls that
      wait, and while it holds any, somebody has a slot to hand on. */
  ghost predicate SlotsOk(calls: map<Call, Stage>, slots: Slots)
  {
    && slots.connecting == |Holders(calls)|
    && Distinct(slots.waiting)
    && (forall c :: c in slots.waiting <==> c in calls && calls[c] == Waiting)
    && (slots.waiting != [] ==> slots.connecting > 0)
  }

  lemma AcquireKeepsSlots(calls: map<Call, Stage>, slots: Slots, limit: nat, call: Call)
    requires SlotsOk(calls, slots) && call !in calls && limit > 0
    ensures var (slots', granted) := Acquire(slots, limit, call);
            SlotsOk(calls[call := if granted then Granted else Waiting], slots')
  {
    var (slots', granted) := Acquire(slots, limit, call);
    var calls' := calls[call := if granted then Granted else Waiting];
    if granted {
      assert Holders(calls') == Holders(calls) + {call};
    } else {
      assert Holders(calls') == Holders(calls);
    }
  }

  /** The end of a call that holds a slot. */
  lemma FinishKeepsSlots(w: World, call: Call)
    requires SlotsOk(w.calls, w.slots) && call in w.calls && w.calls[call] != Waiting
    ensures SlotsOk(Finish(w, call).calls, Finish(w, call).slots)
    ensures Finish(w, call).calls.Keys == w.calls.Keys - {call}
  {
    var holders := Holders(w.calls);
    assert call in holders && |holders - {call}| == |holders| - 1;
    var rest := w.calls - {call};
    assert Holders(rest) == holders - {call};
    if w.slots.waiting != [] {
      var next := w.slots.waiting[0];
      assert next in w.slots.waiting;
      assert next in rest && rest[next] == Waiting;
      var calls' := rest[next := Granted];
      assert Holders(calls') == Holders(rest) + {next};
      assert calls' == Finish(w, call).calls;
      forall c ensures c in w.slots.waiting[1..] <==> c in calls' && calls'[c] == Waiting {
        assert c in w.slots.waiting <==> c == next || c in w.slots.waiting[1..];
      }
    }
  }

  // ----- sessions -----

  type Sessions = map<nat, Session>

  predicate Installed(sessions: Sessions, call: Call)
  {
    call.session in sessions && sessions[call.session].ssh == Some(call.generation)
  }

  /** A handle that `ssh.connect` returned is closed by us, or reported closed by the other side, or
      installed; what is installed has not been closed by us. */
  predicate HandleOk(sessions: Sessions, reported: set<Call>, call: Call, closed: bool)
  {
    (closed || call in reported || Installed(sessions, call)) && !(closed && Installed(sessions, call))
  }

  ghost predicate HandlesOk(sessions: Sessions, reported: set<Call>, handles: map<Call, bool>)
  {
    forall c :: c in handles ==> HandleOk(sessions, reported, c, handles[c])
  }

  /** `busy`: the current call of the session has not ended; `gone`: its connection has reported
      its end. */
  predicate LocalOk(s: Session, busy: bool, gone: bool)
  {
    // the installed handle is that of the current, finished call of a live session, and its
    // connection is not known to have ended
    && (s.ssh.Some? ==> !s.closed && s.ssh.value == s.generation && !busy && !gone)
    // a log row is open exactly while a handle is installed
    && (s.ssh.Some? <==> s.logId.Some?)
    // the retry timer runs only while there is nothing to disturb
    && (s.retryTimer ==> !s.closed && s.ssh.None? && !busy)
    && (s.closedGeneration.Some? ==> s.closedGeneration.value <= s.generation)
    && (s.closedGeneration == Some(s.generation) ==> gone)
    // an end reported before the call has ended is remembered for it
    && (!s.closed && busy && gone ==> s.closedGeneration == Some(s.generation))
  }

  predicate SessionOk(live: set<Call>, reported: set<Call>, returned: set<Call>, id: nat, s: Session)
  {
    var current := Call(id, s.generation);
    LocalOk(s, current in live, current in reported) && (s.ssh.Some? ==> current in returned)
  }

  ghost predicate SessionsOk(sessions: Sessions, live: set<Call>, reported: set<Call>, returned: set<Call>)
  {
    forall id :: id in sessions ==> SessionOk(live, reported, returned, id, sessions[id])
  }

  predicate Known(sessions: Sessions, c: Call)
  {
    c.session in sessions && c.generation <= sessions[c.session].generation
  }

  ghost predicate CallsOk(sessions: Sessions, live: set<Call>, dialed: set<Call>, reported: set<Call>, returned: set<Call>)
  {
    && (forall c :: c in live || c in dialed ==> Known(sessions, c))
    && (forall c :: c in returned ==> c !in live && c in dialed)
    && reported <= dialed
  }

  /** Some session holds row `row`. */
  ghost predicate Held(sessions: Sessions, row: nat)
  {
    exists id :: id in sessions && sessions[id].logId == Some(row)
  }

  /** Every row given out has been opened once, and closed once unless a session still holds it;
      no two sessions hold the same row. */
  ghost predicate LogOk(sessions: Sessions, log: multiset<LogOp>, nextRow: nat)
  {
    && (forall row: nat :: log[Opened(row)] == if row < nextRow then 1 else 0)
    && (forall row: nat :: log[Closed(row)] == if row < nextRow && !Held(sessions, row) then 1 else 0)
    && (forall id :: id in sessions && sessions[id].logId.Some? ==> sessions[id].logId.value < nextRow)
    && (forall a, b :: a in sessions && b in sessions && a != b && sessions[a].logId.Some? ==>
          sessions[a].logId != sessions[b].logId)
  }

  /** What is kept of sessions, handles and the log when the calls that have not ended are `live`. */
  ghost predicate CoreOk(w: World, live: set<Call>)
  {
    && CallsOk(w.sessions, live, w.dialed, w.reported, w.handles.Keys)
    && SessionsOk(w.sessions, live, w.reported, w.handles.Keys)
    && HandlesOk(w.sessions, w.reported, w.handles)
    && LogOk(w.sessions, w.log, w.nextRow)
  }

  ghost predicate Safe(w: World)
  {
    SlotsOk(w.calls, w.slots) && CoreOk(w, w.calls.Keys)
  }

  lemma InitIsSafe()
    ensures Safe(Init())
  {
    assert Holders(map[]) == {};
  }

  // ----- the log -----

  /** The log row follows the session: opened when it takes one, closed when it drops it. */
  predicate LogFollows(held: Option<nat>, holds: Option<nat>, log: Option<LogOp>, nextRow: nat)
  {
    match log
    case None => holds == held
    case Some(Opened(row)) => row == nextRow && held.None? && holds == Some(row)
    case Some(Closed(row)) => held == Some(row) && holds.None?
  }

  lemma HeldElsewhere(sessions: Sessions, id: nat, s: Session, row: nat)
    requires id in sessions ==> sessions[id].logId != Some(row)
    ensures Held(sessions[id := s], row) <==> Held(sessions, row) || s.logId == Some(row)
  {
    var after := sessions[id := s];
    if Held(sessions, row) {
      var other :| other in sessions && sessions[other].logId == Some(row);
      assert after[other].logId == Some(row);
    }
    if s.logId == Some(row) {
      assert after[id].logId == Some(row);
    }
  }

  /** A session that is new or keeps its row. */
  lemma LogWithSession(sessions: Sessions, log: multiset<LogOp>, nextRow: nat, id: nat, s: Session)
    requires LogOk(sessions, log, nextRow)
    requires s.logId == if id in sessions then sessions[id].logId else None
    ensures LogOk(sessions[id := s], log, nextRow)
  {
    forall row: nat ensures Held(sessions[id := s], row) <==> Held(sessions, row) {
      if s.logId == Some(row) { assert sessions[id := s][id].logId == Some(row); } else { HeldElsewhere(sessions, id, s, row); }
    }
  }

  lemma TakeKeepsLog(w: World, id: nat, t: Turn)
    requires LogOk(w.sessions, w.log, w.nextRow) && id in w.sessions
    requires LogFollows(w.sessions[id].logId, t.session.logId, t.log, w.nextRow)
    ensures var w' := Take(w, id, t); LogOk(w'.sessions, w'.log, w'.nextRow)
  {
    var w' := Take(w, id, t);
    match t.log
    case None =>
      LogWithSession(w.sessions, w.log, w.nextRow, id, t.session);
    case Some(Opened(added)) =>
      assert w'.log == w.log + multiset{Opened(added)};
      forall row: nat ensures Held(w'.sessions, row) <==> Held(w.sessions, row) || row == added {
        HeldElsewhere(w.sessions, id, t.session, row);
      }
    case Some(Closed(dropped)) =>
      assert w'.log == w.log + multiset{Closed(dropped)};
      forall row: nat | row != dropped ensures Held(w'.sessions, row) <==> Held(w.sessions, row) {
        HeldElsewhere(w.sessions, id, t.session, row);
      }
  }

  // ----- turns of one session -----

  /** What happens to a handle of the session in this turn. */
  predicate HandleFollows(t: Turn, reported: set<Call>, call: Call, closed: bool)
  {
    && (closed || call in reported || t.closes == Some(call.generation) || t.session.ssh == Some(call.generation))
    && !((closed || t.closes == Some(call.generation)) && t.session.ssh == Some(call.generation))
  }

  lemma TakeKeepsHandles(w: World, id: nat, t: Turn)
    requires id in w.sessions
    requires forall c :: c in w.handles && c.session != id ==> HandleOk(w.sessions, w.reported, c, w.handles[c])
    requires forall c :: c in w.handles && c.session == id ==> HandleFollows(t, w.reported, c, w.handles[c])
    requires t.closes.Some? ==> Call(id, t.closes.value) in w.handles
    ensures var w' := Take(w, id, t);
            w'.handles.Keys == w.handles.Keys && HandlesOk(w'.sessions, w'.reported, w'.handles)
  {
    var w' := Take(w, id, t);
    forall c | c in w'.handles ensures HandleOk(w'.sessions, w'.reported, c, w'.handles[c]) {
      if c.session == id {
        assert HandleFollows(t, w.reported, c, w.handles[c]);
      } else {
        assert HandleOk(w.sessions, w.reported, c, w.handles[c]);
      }
    }
  }

  /** A turn that keeps the generation keeps everything, if it is right about its own session. */
  lemma TakeKeepsCore(w: World, live: set<Call>, id: nat, t: Turn)
    requires CallsOk(w.sessions, live, w.dialed, w.reported, w.handles.Keys) && LogOk(w.sessions, w.log, w.nextRow)
    requires id in w.sessions && t.session.generation == w.sessions[id].generation
    requires SessionsOk(w.sessions[id := t.session], live, w.reported, w.handles.Keys)
    requires forall c :: c in w.handles && c.session != id ==> HandleOk(w.sessions, w.reported, c, w.handles[c])
    requires forall c :: c in w.handles && c.session == id ==> HandleFollows(t, w.reported, c, w.handles[c])
    requires t.closes.Some? ==> Call(id, t.closes.value) in w.handles
    requires LogFollows(w.sessions[id].logId, t.session.logId, t.log, w.nextRow)
    ensures CoreOk(Take(w, id, t), live)
  {
    hide LogOk, SessionsOk, LogFollows, HandlesOk, HandleOk, HandleFollows;
    TakeKeepsLog(w, id, t);
    TakeKeepsHandles(w, id, t);
    var w' := Take(w, id, t);
    forall c | c in live || c in w.dialed ensures Known(w'.sessions, c) {
      assert Known(w.sessions, c);
    }
  }

  /** A turn of an existing session that neither starts a call nor creates a handle. */
  lemma TurnKeepsCore(w: World, live: set<Call>, id: nat, t: Turn)
    requires CoreOk(w, live) && id in w.sessions
    requires var s := w.sessions[id];
             && t.session.generation == s.generation && LogFollows(s.logId, t.session.logId, t.log, w.nextRow)
             && (t.closes.Some? ==> t.closes == s.ssh && t.session.ssh.None?)
             && (t.session.ssh.Some? ==> t.session.ssh == s.ssh)
             && (s.ssh.Some? && t.session.ssh.None? ==> t.closes == s.ssh || Call(id, s.ssh.value) in w.reported)
             && LocalOk(t.session, Call(id, s.generation) in live, Call(id, s.generation) in w.reported)
    ensures CoreOk(Take(w, id, t), live)
  {
    hide LogOk, LogFollows;
    var s := w.sessions[id];
    assert SessionOk(live, w.reported, w.handles.Keys, id, s);
    forall c | c in w.handles && c.session == id ensures HandleFollows(t, w.reported, c, w.handles[c]) {
      assert HandleOk(w.sessions, w.reported, c, w.handles[c]);
    }
    hide CallsOk;
    TakeKeepsCore(w, live, id, t);
  }

  /** Ended calls only relax what is asked of the sessions. */
  lemma CoreWithFewerCalls(w: World, live: set<Call>, fewer: set<Call>)
    requires CoreOk(w, live) && fewer <= live
    ensures CoreOk(w, fewer)
  {
    hide LogOk, HandlesOk;
    forall id | id in w.sessions ensures SessionOk(fewer, w.reported, w.handles.Keys, id, w.sessions[id]) {
      assert SessionOk(live, w.reported, w.handles.Keys, id, w.sessions[id]);
    }
  }

  lemma FinishKeepsCore(w: World, call: Call)
    requires SlotsOk(w.calls, w.slots) && call in w.calls && w.calls[call] != Waiting
    requires CoreOk(w, w.calls.Keys - {call})
    ensures Safe(Finish(w, call))
  {
    FinishKeepsSlots(w, call);
    hide SlotsOk, CallsOk, SessionsOk, HandlesOk, LogOk;
  }

  // ----- the steps -----

  lemma OpenIsSafe(w: World, id: nat)
    requires Safe(w) && id !in w.sessions
    ensures Safe(Put(w, id, NewSession()))
  {
    hide SlotsOk;
    LogWithSession(w.sessions, w.log, w.nextRow, id, NewSession());
    hide LogOk;
    var sessions := w.sessions[id := NewSession()];
    forall c | c in w.handles ensures HandleOk(sessions, w.reported, c, w.handles[c]) {
      assert HandleOk(w.sessions, w.reported, c, w.handles[c]);
    }
    forall c | c in w.calls || c in w.dialed ensures Known(sessions, c) {
      assert Known(w.sessions, c);
    }
  }

  /** A new call is started only while nothing is installed. */
  lemma StartKeepsCore(w: World, live: set<Call>, id: nat)
    requires CoreOk(w, live) && id in w.sessions && w.sessions[id].ssh.None?
    ensures var t := StartConnect(w.sessions[id]);
            var call := Call(id, t.generation);
            && call !in live && call !in w.dialed
            && CoreOk(Put(w, id, t), live + {call})
  {
    var s, t := w.sessions[id], StartConnect(w.sessions[id]);
    var call, sessions := Call(id, t.generation), w.sessions[id := t];
    assert !Known(w.sessions, call);
    LogWithSession(w.sessions, w.log, w.nextRow, id, t);
    hide LogOk;
    assert SessionOk(live, w.reported, w.handles.Keys, id, s);
    forall other | other in sessions ensures SessionOk(live + {call}, w.reported, w.handles.Keys, other, sessions[other]) {
      assert SessionOk(live, w.reported, w.handles.Keys, other, w.sessions[other]);
    }
    hide SessionsOk;
    forall c | c in w.handles ensures HandleOk(sessions, w.reported, c, w.handles[c]) {
      assert HandleOk(w.sessions, w.reported, c, w.handles[c]);
    }
    hide HandlesOk;
    forall c | c in live + {call} || c in w.dialed ensures Known(sessions, c) {
      assert c != call ==> Known(w.sessions, c);
    }
  }

  lemma ConnectIsSafe(w: World, id: nat, setting: int)
    requires Safe(w) && id in w.sessions && w.sessions[id].ssh.None?
    ensures Safe(Connect(w, id, setting))
  {
    hide SlotsOk, CallsOk, SessionsOk, HandlesOk, LogOk;
    if !w.sessions[id].closed {
      var t := StartConnect(w.sessions[id]);
      var call := Call(id, t.generation);
      StartKeepsCore(w, w.calls.Keys, id);
      AcquireKeepsSlots(w.calls, w.slots, Limit(setting), call);
      hide Acquire;
      assert Connect(w, id, setting).calls.Keys == w.calls.Keys + {call};
    }
  }

  /** What `Install` does, seen from one session: `busy` and `gone` are about its current call. */
  lemma InstallIsRight(s: Session, busy: bool, gone: bool, generation: nat, now: int, row: nat)
    requires LocalOk(s, busy, gone) && (generation == s.generation ==> busy)
    ensures var t := Install(s, generation, now, row);
            && LocalOk(t.session, busy && generation != s.generation, gone)
            && t.session.generation == s.generation
            && LogFollows(s.logId, t.session.logId, t.log, row)
            && (t.closes.Some? ==> t.closes.value == generation)
            && (t.session.ssh == s.ssh || (s.ssh.None? && t.session.ssh == Some(generation)))
            && (t.closes.Some? || t.session.ssh == Some(generation) || (gone && generation == s.generation))
  {
  }

  /** The turn in which a call of the session ends with a handle. */
  lemma {:induction false} InstallKeepsCore(w: World, live: set<Call>, call: Call, now: int)
    requires CoreOk(w, live) && call in live && call.session in w.sessions && call in w.dialed
    ensures var t := Install(w.sessions[call.session], call.generation, now, w.nextRow);
            CoreOk(Take(w.(handles := w.handles[call := false]), call.session, t), live - {call})
  {
    var id, s := call.session, w.sessions[call.session];
    var rest := live - {call};
    var t := Install(s, call.generation, now, w.nextRow);
    var created := w.(handles := w.handles[call := false]);
    assert SessionOk(live, w.reported, w.handles.Keys, id, s);
    assert call !in w.handles;
    var current := Call(id, s.generation);
    InstallIsRight(s, current in live, current in w.reported, call.generation, now, w.nextRow);
    hide Install;
    hide LogOk;
    forall other | other in w.sessions
      ensures SessionOk(rest, w.reported, created.handles.Keys, other, w.sessions[id := t.session][other])
    {
      assert SessionOk(live, w.reported, w.handles.Keys, other, w.sessions[other]);
    }
    forall c | c in created.handles && c.session == id ensures HandleFollows(t, w.reported, c, created.handles[c]) {
      if c != call { assert HandleOk(w.sessions, w.reported, c, w.handles[c]); }
    }
    assert CallsOk(created.sessions, rest, created.dialed, created.reported, created.handles.Keys);
    hide CallsOk;
    TakeKeepsCore(created, rest, id, t);
  }

  lemma {:induction false} ResolveIsSafe(w: World, call: Call, now: int)
    requires Safe(w) && At(w, call, Dialing) && call in w.dialed
    ensures Safe(Step(w, Resolve(call, now)))
  {
    hide SlotsOk, CallsOk, SessionsOk, HandlesOk, LogOk;
    var t := Install(w.sessions[call.session], call.generation, now, w.nextRow);
    InstallKeepsCore(w, w.calls.Keys, call, now);
    FinishKeepsCore(Take(w.(handles := w.handles[call := false]), call.session, t), call);
  }

  lemma FailKeepsCore(w: World, live: set<Call>, call: Call, now: int)
    requires CoreOk(w, live) && call in live && call.session in w.sessions
    ensures CoreOk(Put(w, call.session, Fail(w.sessions[call.session], call.generation, now)), live - {call})
  {
    var id, s := call.session, w.sessions[call.session];
    var t := Turn(Fail(s, call.generation, now), None, None);
    assert SessionOk(live, w.reported, w.handles.Keys, id, s);
    hide CallsOk, SessionsOk, HandlesOk, LogOk;
    CoreWithFewerCalls(w, live, live - {call});
    TurnKeepsCore(w, live - {call}, id, t);
    assert Put(w, id, t.session) == Take(w, id, t);
  }

  lemma {:induction false} RejectIsSafe(w: World, call: Call, now: int)
    requires Safe(w) && At(w, call, Dialing)
    ensures Safe(Step(w, Reject(call, now)))
  {
    hide SlotsOk, CallsOk, SessionsOk, HandlesOk, LogOk, Fail;
    FailKeepsCore(w, w.calls.Keys, call, now);
    FinishKeepsCore(Put(w, call.session, Fail(w.sessions[call.session], call.generation, now)), call);
  }

  /** What `HandleClosed` does, seen from one session. */
  lemma HandleClosedIsRight(s: Session, busy: bool, gone: bool, generation: nat, now: int, row: nat)
    requires LocalOk(s, busy, gone)
    ensures var t := HandleClosed(s, generation, now);
            && LocalOk(t.session, busy, gone || generation == s.generation)
            && t.session.generation == s.generation
            && LogFollows(s.logId, t.session.logId, t.log, row)
            && t.closes.None?
            && (t.session.ssh == s.ssh || (t.session.ssh.None? && s.ssh == Some(generation)))
  {
  }

  /** The turn in which the connection of a call reports its end, wherever that call stands. */
  lemma {:induction false} ReportKeepsCore(w: World, live: set<Call>, call: Call, now: int)
    requires CoreOk(w, live) && call in w.dialed && call.session in w.sessions
    ensures var t := HandleClosed(w.sessions[call.session], call.generation, now);
            CoreOk(Take(w.(reported := w.reported + {call}), call.session, t), live)
  {
    var id, s := call.session, w.sessions[call.session];
    var t := HandleClosed(s, call.generation, now);
    var told := w.(reported := w.reported + {call});
    assert SessionOk(live, w.reported, w.handles.Keys, id, s);
    var current := Call(id, s.generation);
    HandleClosedIsRight(s, current in live, current in w.reported, call.generation, now, w.nextRow);
    hide HandleClosed, LogOk;
    forall other | other in w.sessions
      ensures SessionOk(live, told.reported, w.handles.Keys, other, w.sessions[id := t.session][other])
    {
      assert SessionOk(live, w.reported, w.handles.Keys, other, w.sessions[other]);
    }
    forall c | c in w.handles && c.session == id ensures HandleFollows(t, told.reported, c, w.handles[c]) {
      assert HandleOk(w.sessions, w.reported, c, w.handles[c]);
    }
    assert CallsOk(told.sessions, live, told.dialed, told.reported, told.handles.Keys);
    hide CallsOk;
    TakeKeepsCore(told, live, id, t);
  }

  lemma {:induction false} RemoteCloseIsSafe(w: World, call: Call, now: int)
    requires Safe(w) && call in w.dialed && call.session in w.sessions
    ensures Safe(Step(w, RemoteClose(call, now)))
  {
    var told := w.(reported := w.reported + {call});
    var t := HandleClosed(w.sessions[call.session], call.generation, now);
    hide SlotsOk, CallsOk, SessionsOk, HandlesOk, LogOk, HandleClosed;
    ReportKeepsCore(w, w.calls.Keys, call, now);
    assert Take(told, call.session, t) == Step(w, RemoteClose(call, now));
  }

  lemma {:induction false} DroppingIsSafe(w: World, id: nat)
    requires Safe(w) && id in w.sessions
    ensures Safe(Take(w, id, DropForReconnect(w.sessions[id])))
    ensures Safe(Take(w, id, Close(w.sessions[id])))
  {
    var s, live := w.sessions[id], w.calls.Keys;
    assert SessionOk(live, w.reported, w.handles.Keys, id, s);
    hide SlotsOk, CallsOk, SessionsOk, HandlesOk, LogOk;
    TurnKeepsCore(w, live, id, DropForReconnect(s));
    TurnKeepsCore(w, live, id, Close(s));
  }

  lemma {:induction false} ClearingIsSafe(w: World, id: nat)
    requires Safe(w) && id in w.sessions
    ensures Safe(Put(w, id, StopAutoRetry(w.sessions[id])))
    ensures Safe(Put(w, id, ClearRetry(w.sessions[id])))
  {
    var s, live := w.sessions[id], w.calls.Keys;
    assert SessionOk(live, w.reported, w.handles.Keys, id, s);
    hide SlotsOk, CallsOk, SessionsOk, HandlesOk, LogOk;
    TurnKeepsCore(w, live, id, Turn(StopAutoRetry(s), None, None));
    TurnKeepsCore(w, live, id, Turn(ClearRetry(s), None, None));
    assert Take(w, id, Turn(StopAutoRetry(s), None, None)) == Put(w, id, StopAutoRetry(s));
    assert Take(w, id, Turn(ClearRetry(s), None, None)) == Put(w, id, ClearRetry(s));
  }

  lemma EnterKeepsSlots(calls: map<Call, Stage>, slots: Slots, call: Call)
    requires SlotsOk(calls, slots) && call in calls && calls[call] == Granted
    ensures SlotsOk(calls[call := Dialing], slots)
  {
    assert Holders(calls[call := Dialing]) == Holders(calls);
  }

  lemma {:induction false} EnterIsSafe(w: World, call: Call)
    requires Safe(w) && At(w, call, Granted)
    ensures Safe(Step(w, Enter(call)))
  {
    hide SlotsOk, SessionsOk, HandlesOk, LogOk;
    if Stale(w.sessions[call.session], call.generation) {
      hide CallsOk;
      CoreWithFewerCalls(w, w.calls.Keys, w.calls.Keys - {call});
      FinishKeepsCore(w, call);
    } else {
      EnterKeepsSlots(w.calls, w.slots, call);
      assert w.calls[call := Dialing].Keys == w.calls.Keys;
    }
  }

  ghost predicate DialingKnown(w: World)
  {
    forall c :: c in w.calls && w.calls[c] == Dialing ==> c in w.dialed
  }

  lemma ConnectKeepsDialing(w: World, id: nat, setting: int)
    requires DialingKnown(w) && id in w.sessions
    ensures DialingKnown(Connect(w, id, setting))
  {
  }

  lemma FinishKeepsDialing(w: World, call: Call)
    requires DialingKnown(w)
    ensures DialingKnown(Finish(w, call))
  {
  }

  lemma {:induction false} StepKeepsDialing(w: World, e: Event)
    requires DialingKnown(w)
    ensures DialingKnown(Step(w, e))
  {
    hide Connect, Finish, Install, Fail, HandleClosed, Close, DropForReconnect, StopAutoRetry, ClearRetry;
    match e
    case Open(id, setting) =>
      if id !in w.sessions { ConnectKeepsDialing(Put(w, id, NewSession()), id, setting); }
    case Enter(call) => FinishKeepsDialing(w, call);
    case Resolve(call, now) =>
      if At(w, call, Dialing) {
        var t := Install(w.sessions[call.session], call.generation, now, w.nextRow);
        FinishKeepsDialing(Take(w.(handles := w.handles[call := false]), call.session, t), call);
      }
    case Reject(call, now) =>
      if At(w, call, Dialing) {
        FinishKeepsDialing(Put(w, call.session, Fail(w.sessions[call.session], call.generation, now)), call);
      }
    case RemoteClose(call, now) =>
    case Tick(id, now, setting) =>
      if id in w.sessions { ConnectKeepsDialing(Put(w, id, ClearRetry(w.sessions[id])), id, setting); }
    case UserReconnect(id, setting) =>
      if id in w.sessions { ConnectKeepsDialing(Take(w, id, DropForReconnect(w.sessions[id])), id, setting); }
    case UserClose(id) =>
    case UserStopRetry(id) =>
  }

  /** The turns that start a call. */
  lemma {:induction false} StartIsSafe(w: World, e: Event)
    requires Safe(w) && (e.Open? || e.Tick? || e.UserReconnect?)
    ensures Safe(Step(w, e))
  {
    hide Safe, Connect, Take, Put, StartConnect, DropForReconnect, ClearRetry;
    match e
    case Open(id, setting) =>
      if id !in w.sessions { OpenIsSafe(w, id); NewIsIdle(w, id); ConnectIsSafe(Put(w, id, NewSession()), id, setting); }
    case Tick(id, now, setting) =>
      if id in w.sessions && RetryDue(w.sessions[id], now) {
        ClearingIsSafe(w, id);
        DueIsIdle(w, id, now);
        ConnectIsSafe(Put(w, id, ClearRetry(w.sessions[id])), id, setting);
      }
    case UserReconnect(id, setting) =>
      if id in w.sessions {
        DroppingIsSafe(w, id);
        DroppedIsIdle(w, id);
        ConnectIsSafe(Take(w, id, DropForReconnect(w.sessions[id])), id, setting);
      }
    case _ =>
  }

  /** The turns of a call and its connection. */
  lemma {:induction false} CallTurnIsSafe(w: World, e: Event)
    requires Safe(w) && DialingKnown(w) && (e.Enter? || e.Resolve? || e.Reject? || e.RemoteClose?)
    ensures Safe(Step(w, e))
  {
    hide Safe, Take, Put, Finish, Install, Fail, HandleClosed;
    match e
    case Enter(call) => if At(w, call, Granted) { EnterIsSafe(w, call); }
    case Resolve(call, now) => if At(w, call, Dialing) { ResolveIsSafe(w, call, now); }
    case Reject(call, now) => if At(w, call, Dialing) { RejectIsSafe(w, call, now); }
    case RemoteClose(call, now) =>
      if call in w.dialed && call.session in w.sessions { RemoteCloseIsSafe(w, call, now); }
    case _ =>
  }

  lemma {:induction false} StepKeepsSafe(w: World, e: Event)
    requires Safe(w) && DialingKnown(w)
    ensures Safe(Step(w, e)) && DialingKnown(Step(w, e))
  {
    StepKeepsDialing(w, e);
    hide Safe, DialingKnown, Take, Put, Close, StopAutoRetry;
    match e
    case UserClose(id) => if id in w.sessions { DroppingIsSafe(w, id); }
    case UserStopRetry(id) => if id in w.sessions { ClearingIsSafe(w, id); }
    case Open(_, _) => hide Step; StartIsSafe(w, e);
    case Tick(_, _, _) => hide Step; StartIsSafe(w, e);
    case UserReconnect(_, _) => hide Step; StartIsSafe(w, e);
    case _ => hide Step; CallTurnIsSafe(w, e);
  }

  lemma NewIsIdle(w: World, id: nat)
    ensures id in Put(w, id, NewSession()).sessions && Put(w, id, NewSession()).sessions[id].ssh.None?
  {
  }

  lemma DueIsIdle(w: World, id: nat, now: int)
    requires Safe(w) && id in w.sessions && RetryDue(w.sessions[id], now)
    ensures var w' := Put(w, id, ClearRetry(w.sessions[id])); id in w'.sessions && w'.sessions[id].ssh.None?
  {
    hide SlotsOk, CallsOk, HandlesOk, LogOk;
    assert SessionOk(w.calls.Keys, w.reported, w.handles.Keys, id, w.sessions[id]);
  }

  lemma DroppedIsIdle(w: World, id: nat)
    requires id in w.sessions
    ensures var w' := Take(w, id, DropForReconnect(w.sessions[id])); id in w'.sessions && w'.sessions[id].ssh.None?
  {
  }

  /** Every interleaving keeps all of it. */
  lemma {:induction false} RunIsSafe(events: seq<Event>)
    ensures Safe(Run(Init(), events)) && DialingKnown(Run(Init(), events))
  {
    hide Safe, Step;
    if events == [] {
      InitIsSafe();
    } else {
      RunIsSafe(events[..|events| - 1]);
      StepKeepsSafe(Run(Init(), events[..|events| - 1]), events[|events| - 1]);
    }
  }

  // ----- what this means -----

  /** No connection leaks and no dead one stays: a returned handle is installed exactly when we have
      not closed it and its end has not been reported; only returned handles are installed, in a
      live session under the current generation, after their call has ended. */
  lemma {:induction false} HandlesAreOwned(events: seq<Event>, call: Call)
    ensures var w := Run(Init(), events);
            && (call in w.handles ==> (Installed(w.sessions, call) <==> !w.handles[call] && call !in w.reported))
            && (Installed(w.sessions, call) ==>
                  && call in w.handles && call !in w.calls
                  && !w.sessions[call.session].closed
                  && call.generation == w.sessions[call.session].generation)
  {
    RunIsSafe(events);
    var w := Run(Init(), events);
    hide Run, SlotsOk, CallsOk, LogOk;
    if call.session in w.sessions {
      assert SessionOk(w.calls.Keys, w.reported, w.handles.Keys, call.session, w.sessions[call.session]);
    }
    if call in w.handles {
      assert HandleOk(w.sessions, w.reported, call, w.handles[call]);
    }
  }

  /** A retry timer runs only in an open session with nothing installed and no current call. */
  lemma {:induction false} TimersAreIdle(events: seq<Event>, id: nat)
    ensures var w := Run(Init(), events);
            id in w.sessions && w.sessions[id].retryTimer ==>
              && !w.sessions[id].closed && w.sessions[id].ssh.None?
              && Call(id, w.sessions[id].generation) !in w.calls
  {
    RunIsSafe(events);
    var w := Run(Init(), events);
    hide Run, SlotsOk, CallsOk, HandlesOk, LogOk;
    if id in w.sessions {
      assert SessionOk(w.calls.Keys, w.reported, w.handles.Keys, id, w.sessions[id]);
    }
  }

  /** A session holds a log row exactly while it holds a handle, and no row is shared. Every row
      is opened once, and closed once unless it is still held. */
  lemma {:induction false} LogRowsPair(events: seq<Event>)
    ensures var w := Run(Init(), events);
            && (forall id :: id in w.sessions ==> (w.sessions[id].ssh.Some? <==> w.sessions[id].logId.Some?))
            && (forall a, b :: a in w.sessions && b in w.sessions && a != b && w.sessions[a].logId.Some? ==>
                  w.sessions[a].logId != w.sessions[b].logId)
            && (forall row: nat :: w.log[Opened(row)] == if row < w.nextRow then 1 else 0)
            && (forall row: nat :: w.log[Closed(row)] == if row < w.nextRow && !Held(w.sessions, row) then 1 else 0)
  {
    RunIsSafe(events);
    var w := Run(Init(), events);
    hide Run, SlotsOk, CallsOk, HandlesOk;
    forall id | id in w.sessions ensures w.sessions[id].ssh.Some? <==> w.sessions[id].logId.Some? {
      assert SessionOk(w.calls.Keys, w.reported, w.handles.Keys, id, w.sessions[id]);
    }
  }

  /** `connecting` is the number of calls that hold a slot, every waiting call is in the queue once,
      and while the queue is not empty some call holds a slot that it will hand on. */
  lemma {:induction false} SlotsAreHandedOn(events: seq<Event>)
    ensures var w := Run(Init(), events);
            && w.slots.connecting == |Holders(w.calls)|
            && Distinct(w.slots.waiting)
            && (forall c :: c in w.slots.waiting <==> c in w.calls && w.calls[c] == Waiting)
            && (w.slots.waiting != [] ==> exists c :: c in w.calls && w.calls[c] != Waiting)
  {
    RunIsSafe(events);
    var w := Run(Init(), events);
    hide Run, CallsOk, SessionsOk, HandlesOk, LogOk;
    if w.slots.waiting != [] {
      assert Holders(w.calls) != {};
      var c :| c in Holders(w.calls);
    }
  }

  // ----- the limit -----

  function SettingOf(e: Event): Option<int>
  {
    match e
    case Open(_, setting) => Some(setting)
    case Tick(_, _, setting) => Some(setting)
    case UserReconnect(_, setting) => Some(setting)
    case _ => None
  }

  ghost predicate SameLimit(events: seq<Event>, limit: nat)
  {
    forall i :: 0 <= i < |events| && SettingOf(events[i]).Some? ==> Limit(SettingOf(events[i]).value) == limit
  }

  predicate WithinLimit(slots: Slots, limit: nat)
  {
    slots.connecting <= limit && (slots.waiting != [] ==> slots.connecting == limit)
  }

  lemma StepKeepsLimit(w: World, e: Event, limit: nat)
    requires WithinLimit(w.slots, limit)
    requires SettingOf(e).Some? ==> Limit(SettingOf(e).value) == limit
    ensures WithinLimit(Step(w, e).slots, limit)
  {
    hide Limit, StartConnect, Install, Fail, HandleClosed, Close, DropForReconnect, StopAutoRetry, ClearRetry;
  }

  /** While the setting does not change, no more than `limit` calls hold a slot, and a call waits
      only while all of them are taken. */
  lemma {:induction false} LimitIsKept(events: seq<Event>, limit: nat)
    requires SameLimit(events, limit)
    ensures WithinLimit(Run(Init(), events).slots, limit)
  {
    hide Step, Limit;
    if events != [] {
      var before := events[..|events| - 1];
      forall i | 0 <= i < |before| && SettingOf(before[i]).Some? ensures Limit(SettingOf(before[i]).value) == limit {
        assert before[i] == events[i];
      }
      LimitIsKept(before, limit);
      StepKeepsLimit(Run(Init(), before), events[|events| - 1], limit);
    }
  }
}
