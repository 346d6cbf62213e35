/** Serving local files to the remote clipboard: the file list snapshots of `LoggingBackend` and
    `serve_file_contents` of rdp_clipboard.rs. */
module FileClipboard {
  import opened Results
  import opened Bounds
  import opened Bytes

  const MAX_CHUNK := 4 * 1024 * 1024

  // ----- one response -----

  /** What a path denotes on the local disk. */
  datatype Entry = Missing | Directory | File(data: bytes)

  datatype FileRequest = FileRequest(index: int, size: bool, range: bool, position: nat, requested: nat)

  datatype Response = Error | Size(n: nat) | Data(b: bytes)

  function Chunk(data: bytes, position: nat, capacity: nat): bytes
  {
    if position >= |data| then [] else data[position..Min(position + capacity, |data|)]
  }

  /** `readFails`: the operating system reports an error before the chunk is complete. */
  function Serve(files: seq<string>, disk: string -> Entry, r: FileRequest, readFails: bool): Response
  {
    if r.index < 0 || r.index >= |files| then Error
    else
      match disk(files[r.index])
      case Directory => Error
      case Missing => Error
      case File(data) =>
        if r.size then Size(|data|)
        else if !r.range || readFails then Error
        else Data(Chunk(data, r.position, Min(r.requested, MAX_CHUNK)))
  }

  /** What a read of `n` bytes appends to `filled` bytes. */
  function Appended(data: bytes, position: nat, n: nat): bytes
  {
    if position + n <= |data| then data[position..position + n] else []
  }

  lemma AppendedGrows(data: bytes, position: nat)
    ensures Appended(data, position, 0) == []
    ensures forall i: nat :: position + i < |data| ==>
              Appended(data, position, i + 1) == Appended(data, position, i) + [data[position + i]]
  {
  }

  /** `read` of an open file: it may return fewer bytes than asked for, but none only at the end. */
  method ReadSome(data: bytes, position: nat, buffer: array<byte>, filled: nat) returns (n: nat)
    requires filled < buffer.Length
    modifies buffer
    ensures filled + n <= buffer.Length && (n > 0 ==> position + n <= |data|)
    ensures n == 0 <==> position >= |data|
    ensures buffer[..filled + n] == old(buffer[..filled]) + Appended(data, position, n)
  {
    if position >= |data| { return 0; }
    var most := Min(buffer.Length - filled, |data| - position);
    n :| 0 < n <= most;
    var i := 0;
    AppendedGrows(data, position);
    hide Appended;
    while i < n
      invariant 0 <= i <= n
      invariant buffer[..filled + i] == old(buffer[..filled]) + Appended(data, position, i)
    {
      buffer[filled + i] := data[position + i];
      assert buffer[..filled + i + 1] == buffer[..filled + i] + [data[position + i]];
      i := i + 1;
    }
  }

  lemma ChunkGrows(data: bytes, position: nat, filled: nat, n: nat)
    requires n > 0 ==> position + filled + n <= |data|
    requires n == 0 ==> position + filled >= |data|
    ensures Chunk(data, position, filled) + Appended(data, position + filled, n) == Chunk(data, position, filled + n)
  {
  }

  lemma ChunkEnds(data: bytes, position: nat, filled: nat, capacity: nat)
    requires filled <= capacity && (position + filled >= |data| || filled == capacity)
    ensures Chunk(data, position, filled) == Chunk(data, position, capacity)
    ensures Chunk(data, position, 0) == []
  {
  }

  /** The fill loop: short reads do not shorten the chunk. */
  method ReadRange(data: bytes, position: nat, requested: nat) returns (chunk: bytes)
    ensures chunk == Chunk(data, position, Min(requested, MAX_CHUNK))
  {
    hide Chunk, Appended;
    var capacity := Min(requested, MAX_CHUNK);
    ChunkEnds(data, position, capacity, capacity);
    var buffer := new byte[capacity](_ => 0);
    var filled := 0;
    var read := 1;
    while filled < buffer.Length && read != 0
      invariant 0 <= filled <= buffer.Length && 0 <= read
      invariant buffer[..filled] == Chunk(data, position, filled)
      invariant read == 0 ==> position + filled >= |data|
      decreases buffer.Length - filled, read
    {
      read := ReadSome(data, position + filled, buffer, filled);
      ChunkGrows(data, position, filled, read);
      filled := filled + read;
    }
    ChunkEnds(data, position, filled, capacity);
    chunk := buffer[..filled];
  }

  // ----- one file in many requests -----

  /** The chunks of range requests of the given sizes, each starting where the last ended, and the
      position reached. */
  function Transfer(files: seq<string>, disk: string -> Entry, index: int, sizes: seq<nat>): (seq<Response>, nat)
  {
    if sizes == [] then ([], 0)
    else
      var (responses, position) := Transfer(files, disk, index, sizes[..|sizes| - 1]);
      var r := Serve(files, disk, FileRequest(index, false, true, position, sizes[|sizes| - 1]), false);
      (responses + [r], position + if r.Data? then |r.b| else 0)
  }

  function Rebuilt(responses: seq<Response>): bytes
  {
    if responses == [] then []
    else
      var last := responses[|responses| - 1];
      Rebuilt(responses[..|responses| - 1]) + if last.Data? then last.b else []
  }

  predicate Served(files: seq<string>, disk: string -> Entry, index: int, data: bytes)
  {
    0 <= index < |files| && disk(files[index]) == File(data)
  }

  lemma ServeRange(files: seq<string>, disk: string -> Entry, index: int, data: bytes, position: nat, size: nat)
    requires Served(files, disk, index, data) && position <= |data|
    ensures var r := Serve(files, disk, FileRequest(index, false, true, position, size), false);
            && r.Data? && |r.b| <= MAX_CHUNK && |r.b| <= size && position + |r.b| <= |data|
            && r.b == data[position..position + |r.b|]
            && |r.b| == Min(Min(size, MAX_CHUNK), |data| - position)
  {
  }

  /** The responses are data, none longer than 4 MiB, and put together they are the file up to the
      position reached. */
  lemma {:induction false} TransferRebuilds(files: seq<string>, disk: string -> Entry, index: int, data: bytes, sizes: seq<nat>)
    requires Served(files, disk, index, data)
    ensures var (responses, position) := Transfer(files, disk, index, sizes);
            && |responses| == |sizes| && position <= |data| && AreChunks(responses)
            && Rebuilt(responses) == data[..position]
  {
    if sizes != [] {
      var before, size := sizes[..|sizes| - 1], sizes[|sizes| - 1];
      TransferRebuilds(files, disk, index, data, before);
      var (responses, position) := Transfer(files, disk, index, before);
      var r := Serve(files, disk, FileRequest(index, false, true, position, size), false);
      hide Serve, Served, Rebuilt, AreChunks;
      ServeRange(files, disk, index, data, position, size);
      AppendChunk(responses, r, data, position);
    }
  }

  predicate AreChunks(responses: seq<Response>)
  {
    forall i :: 0 <= i < |responses| ==> responses[i].Data? && |responses[i].b| <= MAX_CHUNK
  }

  lemma AppendChunk(responses: seq<Response>, r: Response, data: bytes, position: nat)
    requires AreChunks(responses) && r.Data? && |r.b| <= MAX_CHUNK
    requires position + |r.b| <= |data| && r.b == data[position..position + |r.b|]
    requires Rebuilt(responses) == data[..position]
    ensures AreChunks(responses + [r]) && Rebuilt(responses + [r]) == data[..position + |r.b|]
  {
    RebuiltStep(responses, r);
    assert data[..position] + r.b == data[..position + |r.b|];
  }

  lemma RebuiltStep(responses: seq<Response>, r: Response)
    ensures Rebuilt(responses + [r]) == Rebuilt(responses) + if r.Data? then r.b else []
  {
    assert (responses + [r])[..|responses|] == responses;
  }

  /** What the requests ask for, each cut to one chunk. */
  function Wanted(sizes: seq<nat>): nat
  {
    if sizes == [] then 0 else Wanted(sizes[..|sizes| - 1]) + Min(sizes[|sizes| - 1], MAX_CHUNK)
  }

  /** The position reached is all that was asked for, or the end of the file. */
  lemma {:induction false} TransferAdvances(files: seq<string>, disk: string -> Entry, index: int, data: bytes, sizes: seq<nat>)
    requires Served(files, disk, index, data)
    ensures Transfer(files, disk, index, sizes).1 == Min(Wanted(sizes), |data|)
  {
    if sizes != [] {
      var before, size := sizes[..|sizes| - 1], sizes[|sizes| - 1];
      TransferAdvances(files, disk, index, data, before);
      TransferRebuilds(files, disk, index, data, before);
      hide Serve, Served, Rebuilt;
      ServeRange(files, disk, index, data, Transfer(files, disk, index, before).1, size);
    }
  }

  /** An empty answer to a request for at least one byte means that the whole file has been received. */
  lemma {:induction false} EmptyMeansDone(files: seq<string>, disk: string -> Entry, index: int, data: bytes, sizes: seq<nat>, i: nat)
    requires Served(files, disk, index, data)
    requires i < |sizes| == |Transfer(files, disk, index, sizes).0|
    requires sizes[i] > 0 && Transfer(files, disk, index, sizes).0[i] == Data([])
    ensures Rebuilt(Transfer(files, disk, index, sizes).0) == data
  {
    PositionAtEnd(files, disk, index, data, sizes, i);
    TransferRebuilds(files, disk, index, data, sizes);
    assert data[..|data|] == data;
  }

  lemma {:induction false} PositionAtEnd(files: seq<string>, disk: string -> Entry, index: int, data: bytes, sizes: seq<nat>, i: nat)
    requires Served(files, disk, index, data)
    requires i < |sizes| == |Transfer(files, disk, index, sizes).0|
    requires sizes[i] > 0 && Transfer(files, disk, index, sizes).0[i] == Data([])
    ensures Transfer(files, disk, index, sizes).1 == |data|
  {
    var before, size := sizes[..|sizes| - 1], sizes[|sizes| - 1];
    TransferRebuilds(files, disk, index, data, before);
    var (responses, position) := Transfer(files, disk, index, before);
    hide Rebuilt, Serve, Served;
    ServeRange(files, disk, index, data, position, size);
    if i < |before| {
      assert before[i] == sizes[i];
      PositionAtEnd(files, disk, index, data, before, i);
    }
  }

  // ----- snapshots -----

  datatype State = State(snapshots: map<nat, seq<string>>, cancelled: bool)

  datatype Event =
    | Request(asked: Option<nat>, live: seq<string>)
    | Unlock(dataId: nat)
    | Cancel

  /** The file list a request is served from; `live` is what reading the clipboard gives now. */
  function FilesFor(s: State, dataId: Option<nat>, live: seq<string>): seq<string>
  {
    match dataId
    case None => live
    case Some(d) => if d in s.snapshots then s.snapshots[d] else live
  }

  function Step(s: State, e: Event): State
  {
    match e
    case Request(None, live) => s
    case Request(Some(d), live) =>
      if d in s.snapshots then s
      else State(if live != [] then s.snapshots[d := live] else s.snapshots, false)
    case Unlock(d) => s.(snapshots := s.snapshots - {d})
    case Cancel => s.(cancelled := true)
  }

  class LoggingBackend {
    var fileSnapshots: map<nat, seq<string>>
    var cancelled: bool

    ghost function Contents(): State
      reads this
    {
      State(fileSnapshots, cancelled)
    }

    constructor ()
      ensures Contents() == State(map[], false)
    {
      fileSnapshots, cancelled := map[], false;
    }

    method OnFileContentsRequest(dataId: Option<nat>, live: seq<string>, disk: string -> Entry, r: FileRequest, readFails: bool)
      returns (response: Response)
      modifies this
      ensures Contents() == Step(old(Contents()), Request(dataId, live))
      ensures response == if cancelled then Error else Serve(FilesFor(old(Contents()), dataId, live), disk, r, readFails)
    {
      var files: seq<string>;
      match dataId {
        case None => files := live;
        case Some(d) =>
          if d !in fileSnapshots {
            cancelled := false;
            if live != [] {
              fileSnapshots := fileSnapshots[d := live];
            }
          }
          files := if d in fileSnapshots then fileSnapshots[d] else [];
      }
      if cancelled { return Error; }
      response := Serve(files, disk, r, readFails);
    }

    method OnUnlock(dataId: nat)
      modifies this
      ensures Contents() == Step(old(Contents()), Unlock(dataId))
    {
      fileSnapshots := fileSnapshots - {dataId};
    }

    method CancelTransfer()
      modifies this
      ensures Contents() == Step(old(Contents()), Cancel)
    {
      cancelled := true;
    }
  }

  function Run(events: seq<Event>): State
  {
    if events == [] then State(map[], false) else Step(Run(events[..|events| - 1]), events[|events| - 1])
  }

  lemma RunStep(events: seq<Event>, i: nat)
    requires i < |events|
    ensures Run(events[..i + 1]) == Step(Run(events[..i]), events[i])
  {
    assert events[..i + 1][..i] == events[..i];
  }

  predicate IsRequest(e: Event, d: nat)
  {
    e.Request? && e.asked == Some(d)
  }

  /** The list that event `i`, a request for `d`, is served from. */
  function FilesAt(events: seq<Event>, i: nat, d: nat): seq<string>
    requires i < |events| && IsRequest(events[i], d)
  {
    FilesFor(Run(events[..i]), Some(d), events[i].live)
  }

  ghost predicate Locked(events: seq<Event>, i: nat, j: nat, d: nat)
    requires i <= j <= |events|
  {
    forall k :: i <= k < j ==> events[k] != Unlock(d)
  }

  lemma {:induction false} SnapshotStays(events: seq<Event>, i: nat, j: nat, d: nat)
    requires i <= j <= |events| && Locked(events, i, j, d) && d in Run(events[..i]).snapshots
    ensures d in Run(events[..j]).snapshots && Run(events[..j]).snapshots[d] == Run(events[..i]).snapshots[d]
    decreases j - i
  {
    if i < j {
      SnapshotStays(events, i, j - 1, d);
      RunStep(events, j - 1);
      assert events[j - 1] != Unlock(d);
    }
  }

  /** Once a request for `d` has been served from a non-empty list, every request for `d` until its
      unlock is served from that list, whatever the clipboard, other ids and cancellations do. */
  lemma ServedListStays(events: seq<Event>, i: nat, j: nat, d: nat)
    requires i < j < |events| && IsRequest(events[i], d) && IsRequest(events[j], d)
    requires Locked(events, i, j, d) && FilesAt(events, i, d) != []
    ensures FilesAt(events, j, d) == FilesAt(events, i, d)
  {
    RunStep(events, i);
    SnapshotStays(events, i + 1, j, d);
  }

  /** Where a snapshot comes from: the clipboard as a request for `d` since its last unlock read it. */
  lemma {:induction false} SnapshotWasRead(events: seq<Event>, d: nat) returns (i: nat)
    requires d in Run(events).snapshots
    ensures i < |events| && IsRequest(events[i], d) && events[i].live == Run(events).snapshots[d]
    ensures Locked(events, i, |events|, d) && Run(events).snapshots[d] != []
  {
    var n := |events| - 1;
    var before := events[..n];
    if d in Run(before).snapshots {
      i := SnapshotWasRead(before, d);
      forall k | i <= k < |events| ensures events[k] != Unlock(d) {
        if k < n { assert before[k] != Unlock(d); }
      }
    } else {
      i := n;
    }
  }

  // ----- cancelling -----

  /** A request for an id without a snapshot. */
  predicate StartsTransfer(events: seq<Event>, k: nat)
    requires k < |events|
  {
    match events[k]
    case Request(Some(d), _) => d !in Run(events[..k]).snapshots
    case _ => false
  }

  ghost predicate CancelledAt(events: seq<Event>, n: nat, i: nat)
    requires i < n <= |events|
  {
    events[i] == Cancel && forall k :: i < k < n ==> !StartsTransfer(events, k)
  }

  /** Requests are refused exactly while a cancellation has come after the last request that
      started a transfer. */
  lemma {:induction false} CancelHolds(events: seq<Event>, n: nat)
    requires n <= |events|
    ensures Run(events[..n]).cancelled <==> exists i :: 0 <= i < n && CancelledAt(events, n, i)
  {
    if n > 0 {
      var m := n - 1;
      CancelHolds(events, m);
      RunStep(events, m);
      if events[m] == Cancel {
        assert CancelledAt(events, n, m);
      } else {
        forall i | 0 <= i < m ensures CancelledAt(events, n, i) <==> CancelledAt(events, m, i) && !StartsTransfer(events, m) {
        }
      }
    }
  }

  // ----- a transfer in the middle of everything else -----

  /** What event `i`, a request for `d`, is answered when it asks for `r`. */
  function Answer(events: seq<Event>, i: nat, d: nat, disk: string -> Entry, r: FileRequest): Response
    requires i < |events| && IsRequest(events[i], d)
  {
    if Run(events[..i + 1]).cancelled then Error else Serve(FilesAt(events, i, d), disk, r, false)
  }

  /** Positions of requests for `d`, in order, from a first one that was served from a non-empty
      list, with no unlock of `d` and no refusal among them. */
  ghost predicate TransferOf(events: seq<Event>, at: seq<nat>, d: nat)
  {
    && (forall k :: 0 <= k < |at| ==> at[k] < |events| && IsRequest(events[at[k]], d) && !Run(events[..at[k] + 1]).cancelled)
    && (forall k :: 0 < k < |at| ==> at[0] < at[k] && Locked(events, at[0], at[k], d))
    && (at != [] ==> FilesAt(events, at[0], d) != [])
  }

  /** The answers to range requests for file `index`, each starting where the last ended, and the
      position reached. */
  function Answers(events: seq<Event>, at: seq<nat>, d: nat, disk: string -> Entry, index: int, sizes: seq<nat>): (seq<Response>, nat)
    requires |sizes| == |at| && forall k :: 0 <= k < |at| ==> at[k] < |events| && IsRequest(events[at[k]], d)
  {
    if at == [] then ([], 0)
    else
      var n := |at| - 1;
      var (responses, position) := Answers(events, at[..n], d, disk, index, sizes[..n]);
      var r := Answer(events, at[n], d, disk, FileRequest(index, false, true, position, sizes[n]));
      (responses + [r], position + if r.Data? then |r.b| else 0)
  }

  lemma TransferPrefix(events: seq<Event>, at: seq<nat>, d: nat)
    requires TransferOf(events, at, d) && |at| > 1
    ensures TransferOf(events, at[..|at| - 1], d)
  {
  }

  lemma AnswersStep(events: seq<Event>, at: seq<nat>, d: nat, disk: string -> Entry, index: int, sizes: seq<nat>)
    requires |sizes| == |at| > 0 && TransferOf(events, at, d)
    ensures var n, files := |at| - 1, FilesAt(events, at[0], d);
            var (responses, position) := Answers(events, at[..n], d, disk, index, sizes[..n]);
            var r := Serve(files, disk, FileRequest(index, false, true, position, sizes[n]), false);
            Answers(events, at, d, disk, index, sizes) == (responses + [r], position + if r.Data? then |r.b| else 0)
  {
    hide Serve, Run, FilesAt;
    if |at| > 1 {
      ServedListStays(events, at[0], at[|at| - 1], d);
    }
  }

  lemma TransferStep(files: seq<string>, disk: string -> Entry, index: int, sizes: seq<nat>)
    requires sizes != []
    ensures var n := |sizes| - 1;
            var (responses, position) := Transfer(files, disk, index, sizes[..n]);
            var r := Serve(files, disk, FileRequest(index, false, true, position, sizes[n]), false);
            Transfer(files, disk, index, sizes) == (responses + [r], position + if r.Data? then |r.b| else 0)
  {
    hide Serve;
  }

  lemma {:induction false} AnswersAreTransfer(events: seq<Event>, at: seq<nat>, d: nat, disk: string -> Entry, index: int, sizes: seq<nat>)
    requires |sizes| == |at| > 0 && TransferOf(events, at, d)
    ensures Answers(events, at, d, disk, index, sizes) == Transfer(FilesAt(events, at[0], d), disk, index, sizes)
  {
    var n := |at| - 1;
    AnswersStep(events, at, d, disk, index, sizes);
    TransferStep(FilesAt(events, at[0], d), disk, index, sizes);
    if n > 0 {
      TransferPrefix(events, at, d);
      hide Serve, Run, FilesAt, TransferOf, Answers, Transfer;
      AnswersAreTransfer(events, at[..n], d, disk, index, sizes[..n]);
    } else {
      assert at[..0] == [] && sizes[..0] == [];
    }
  }

  /** A transfer rebuilds the file it started with, wherever its requests stand among those of other
      transfers, whatever the clipboard holds by then. */
  lemma TransferSurvives(events: seq<Event>, at: seq<nat>, d: nat, disk: string -> Entry, index: int, data: bytes, sizes: seq<nat>)
    requires |sizes| == |at| > 0 && TransferOf(events, at, d)
    requires Served(FilesAt(events, at[0], d), disk, index, data)
    ensures var (responses, position) := Answers(events, at, d, disk, index, sizes);
            AreChunks(responses) && position <= |data| && Rebuilt(responses) == data[..position]
  {
    AnswersAreTransfer(events, at, d, disk, index, sizes);
    TransferRebuilds(FilesAt(events, at[0], d), disk, index, data, sizes);
  }
}
