/** One session object of sessions.js: what each turn does to its fields. */
module SshSession {
  import opened Results

  const RETRY_DELAY := 5000

  datatype Status = Connecting | Connected | Disconnected | Error

  /** `ssh` names the installed handle by the generation of the `connect` call that made it;
      `retryTimer` says that the retry interval runs. */
  datatype Session = Session(
    generation: nat,
    closedGeneration: Option<nat>,
    ssh: Option<nat>,
    status: Status,
    autoRetry: bool,
    retryTimer: bool,
    nextRetryAt: int,
    logId: Option<nat>,
    closed: bool)

  datatype LogOp = Opened(id: nat) | Closed(id: nat)

  /** A session after a turn, the handle the turn closed, and the log row it opened or closed. */
  datatype Turn = Turn(session: Session, closes: Option<nat>, log: Option<LogOp>)

  function NewSession(): Session {
    Session(0, None, None, Connecting, false, false, 0, None, false)
  }

  function ClearRetry(s: Session): Session {
    s.(retryTimer := false)
  }

  function ScheduleRetry(s: Session, now: int): Session
  {
    if s.closed || s.retryTimer then s
    else s.(autoRetry := true, nextRetryAt := now + RETRY_DELAY, retryTimer := true)
  }

  function LogDisconnect(s: Session): (Session, Option<LogOp>)
  {
    match s.logId
    case None => (s, None)
    case Some(id) => (s.(logId := None), Some(Closed(id)))
  }

  /** The synchronous start of `connect`, when the session is open. */
  function StartConnect(s: Session): Session
  {
    ClearRetry(s).(generation := s.generation + 1, status := Connecting)
  }

  predicate Stale(s: Session, generation: nat) {
    s.closed || generation != s.generation
  }

  /** `ssh.connect` has returned a handle to the call of `generation`; `id` is a fresh row id. */
  function Install(s: Session, generation: nat, now: int, id: nat): Turn
  {
    if Stale(s, generation) then Turn(s, Some(generation), None)
    else if s.closedGeneration == Some(generation) then
      Turn(ScheduleRetry(s.(ssh := None, status := Disconnected), now), None, None)
    else
      var t := s.(ssh := Some(generation), status := Connected, autoRetry := false);
      if t.logId.Some? then Turn(t, None, None) else Turn(t.(logId := Some(id)), None, Some(Opened(id)))
  }

  /** The call of `generation` has thrown. */
  function Fail(s: Session, generation: nat, now: int): Session
  {
    if Stale(s, generation) then s
    else if s.autoRetry then ScheduleRetry(s.(status := Error), now)
    else s.(status := Error)
  }

  /** `handleClosed`: the connection of `generation` reports its end. */
  function HandleClosed(s: Session, generation: nat, now: int): Turn
  {
    if Stale(s, generation) then Turn(s, None, None)
    else
      var t := s.(closedGeneration := Some(generation));
      if t.ssh.None? then Turn(t, None, None)
      else
        var (u, op) := LogDisconnect(t.(ssh := None, status := Disconnected));
        Turn(ScheduleRetry(u, now), None, op)
  }

  function StopAutoRetry(s: Session): Session {
    ClearRetry(s).(autoRetry := false)
  }

  function Close(s: Session): Turn
  {
    if s.closed then Turn(s, None, None)
    else
      var (t, op) := LogDisconnect(ClearRetry(s).(closed := true, ssh := None));
      Turn(t, s.ssh, op)
  }

  /** `reconnect`, up to its call of `connect`. */
  function DropForReconnect(s: Session): Turn
  {
    var (t, op) := LogDisconnect(s.(ssh := None));
    Turn(t.(autoRetry := false), s.ssh, op)
  }

  /** When the tick of the interval starts a new attempt. */
  predicate RetryDue(s: Session, now: int) {
    s.retryTimer && !s.closed && now >= s.nextRetryAt
  }

  // ----- the object -----

  class SessionObject {
    var generation: nat
    var closedGeneration: Option<nat>
    var ssh: Option<nat>
    var status: Status
    var autoRetry: bool
    var retryTimer: bool
    var nextRetryAt: int
    var logId: Option<nat>
    var closed: bool

    ghost function Contents(): Session
      reads this
    {
      Session(generation, closedGeneration, ssh, status, autoRetry, retryTimer, nextRetryAt, logId, closed)
    }

    constructor ()
      ensures Contents() == NewSession()
    {
      generation, closedGeneration, ssh, status := 0, None, None, Connecting;
      autoRetry, retryTimer, nextRetryAt, logId, closed := false, false, 0, None, false;
    }

    method ClearRetryTimer()
      modifies this
      ensures Contents() == ClearRetry(old(Contents()))
    {
      retryTimer := false;
    }

    method Schedule(now: int)
      modifies this
      ensures Contents() == ScheduleRetry(old(Contents()), now)
    {
      if closed || retryTimer { return; }
      autoRetry := true;
      nextRetryAt := now + RETRY_DELAY;
      retryTimer := true;
    }

    method CloseLog() returns (op: Option<LogOp>)
      modifies this
      ensures (Contents(), op) == LogDisconnect(old(Contents()))
    {
      match logId
      case None => op := None;
      case Some(id) =>
        logId := None;
        op := Some(Closed(id));
    }

    method BeginConnect() returns (started: Option<nat>)
      modifies this
      ensures started == if old(closed) then None else Some(generation)
      ensures Contents() == if old(closed) then old(Contents()) else StartConnect(old(Contents()))
    {
      if closed { return None; }
      ClearRetryTimer();
      generation := generation + 1;
      status := Connecting;
      started := Some(generation);
    }

    method Connected(handle: nat, now: int, id: nat) returns (closes: Option<nat>, op: Option<LogOp>)
      modifies this
      ensures Turn(Contents(), closes, op) == Install(old(Contents()), handle, now, id)
    {
      closes, op := None, None;
      if closed || handle != generation {
        closes := Some(handle);
        return;
      }
      ssh := Some(handle);
      if closedGeneration == Some(handle) {
        ssh := None;
        status := Disconnected;
        Schedule(now);
        return;
      }
      status := Status.Connected;
      autoRetry := false;
      if logId.None? {
        logId := Some(id);
        op := Some(Opened(id));
      }
    }

    method Failed(call: nat, now: int)
      modifies this
      ensures Contents() == Fail(old(Contents()), call, now)
    {
      if closed || call != generation { return; }
      status := Error;
      if autoRetry {
        Schedule(now);
      }
    }

    method OnClose(call: nat, now: int) returns (op: Option<LogOp>)
      modifies this
      ensures Turn(Contents(), None, op) == HandleClosed(old(Contents()), call, now)
    {
      op := None;
      if closed || call != generation { return; }
      closedGeneration := Some(call);
      if ssh.None? { return; }
      ssh := None;
      status := Disconnected;
      op := CloseLog();
      Schedule(now);
    }

    method CloseSession() returns (closes: Option<nat>, op: Option<LogOp>)
      modifies this
      ensures Turn(Contents(), closes, op) == Close(old(Contents()))
    {
      closes, op := None, None;
      if closed { return; }
      closed := true;
      ClearRetryTimer();
      closes := ssh;
      ssh := None;
      op := CloseLog();
    }

    method Reconnect() returns (closes: Option<nat>, op: Option<LogOp>, started: Option<nat>)
      modifies this
      ensures var t := DropForReconnect(old(Contents()));
              && closes == t.closes && op == t.log
              && Contents() == (if t.session.closed then t.session else StartConnect(t.session))
              && started == (if t.session.closed then None else Some(generation))
    {
      closes := ssh;
      ssh := None;
      op := CloseLog();
      autoRetry := false;
      started := BeginConnect();
    }
  }
}
