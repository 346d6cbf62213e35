/** The one window in which the protocol loses an update, as a run: a poll that started before a
    `mutate` call lands between its clone and its request. */
module SyncLoss {
  import opened Results
  import opened SyncModel
  import opened SyncRuns
  import SyncHistory

  type Rows = seq<nat>

  /** Payloads that are just lists of rows, so that a lost row can be seen. */
  const ROWS: Config<Rows> := Config([], (p: Rows) => p)

  function Append(row: nat): Rows -> Rows
  {
    (p: Rows) => p + [row]
  }

  /** Client 1 adds row 7; client 0, whose poll has already been answered with row 7, starts to
      add row 8 while the answer is being decrypted. */
  function Overtaken(): seq<Event<Rows>>
  {
    Unlock(0) + Unlock(1)
    + [DoCall(1, Append(7)), DoBegin(1), DoSend(1), Deliver(1)]
    + [PollStarted(0, 1, false), PollServed(0, 1), PollChecked(0, 1)]
    + [DoCall(0, Append(8)), DoBegin(0), PollApplied(0, 1), DoSend(0), Deliver(0)]
  }

  function Unlocked(): Client<Rows> {
    UnlockedAt(ROWS, [])
  }

  function WriterJob(row: nat): Job<Rows> {
    Job(0, Append(row))
  }

  lemma WriterTurns(commits: seq<Commit<Rows>>, id: nat, row: nat, c0: Client<Rows>)
    requires Fresh(c0)
    ensures var c1 := c0.(queue := [WriterJob(row)], nextTicket := 1);
            var c2 := Writing(c0, row);
            && Turn(ROWS, commits, c0, DoCall(id, Append(row))) == c1
            && Turn(ROWS, commits, c1, DoBegin(id)) == c2
  {
  }

  lemma SendTurn(commits: seq<Commit<Rows>>, id: nat, row: nat, c: Client<Rows>, overtaken: bool)
    requires c.phase == Editing(WriterJob(row), 0, [], 0, overtaken)
    ensures Turn(ROWS, commits, c, DoSend(id))
            == c.(phase := Posting(0, Post(WriterJob(row), [], 0, overtaken, [row], c.revision)))
  {
    assert [] + [row] == [row];
  }

  /** An idle, unlocked client whose payload is empty starts to add a row. */
  ghost predicate Fresh(c: Client<Rows>)
  {
    && c.phase.Idle? && c.queue == [] && c.nextTicket == 0 && c.pendingWrites == 0
    && c.payload == Some([]) && c.revision == 0
  }

  function Writing(c: Client<Rows>, row: nat): Client<Rows> {
    c.(nextTicket := 1, pendingWrites := 1, phase := Editing(WriterJob(row), 0, [], 0, false))
  }

  lemma StartWriting(w: World<Rows>, id: nat, row: nat)
    requires id in w.clients && Fresh(w.clients[id])
    ensures var w' := Step(ROWS, Step(ROWS, w, DoCall(id, Append(row))), DoBegin(id));
            w'.commits == w.commits && w'.clients == w.clients[id := Writing(w.clients[id], row)]
  {
    var c := w.clients[id];
    WriterTurns(w.commits, id, row, c);
    hide Step, Turn, Append, WriterJob;
    TurnOf(ROWS, w, DoCall(id, Append(row)), c.(queue := [WriterJob(row)], nextTicket := 1));
    var w1 := Step(ROWS, w, DoCall(id, Append(row)));
    TurnOf(ROWS, w1, DoBegin(id), Writing(c, row));
    assert w1.clients[id := Writing(c, row)] == w.clients[id := Writing(c, row)];
  }

  lemma SendAndCommit(w: World<Rows>, id: nat, row: nat, overtaken: bool)
    requires id in w.clients && w.clients[id].phase == Editing(WriterJob(row), 0, [], 0, overtaken)
    requires w.clients[id].revision == |w.commits|
    ensures var w' := Run(ROWS, w, [DoSend(id), Deliver(id)]);
            && w'.commits == w.commits + [Commit(id, Post(WriterJob(row), [], 0, overtaken, [row], |w.commits|))]
            && w'.clients.Keys == w.clients.Keys
            && forall other :: other in w.clients && other != id ==> w'.clients[other] == w.clients[other]
  {
    RunTwo(ROWS, w, DoSend(id), Deliver(id));
    var c := w.clients[id];
    SendTurn(w.commits, id, row, c, overtaken);
    hide Step, Run, Turn, Append, WriterJob;
    var post := Post(WriterJob(row), [], 0, overtaken, [row], |w.commits|);
    TurnOf(ROWS, w, DoSend(id), c.(phase := Posting(0, post)));
    DeliveryOf(ROWS, Step(ROWS, w, DoSend(id)), id, 0, post);
  }

  lemma FirstWriter(w: World<Rows>)
    requires 1 in w.clients && w.clients[1] == Unlocked() && w.commits == []
    ensures var w' := Run(ROWS, Run(ROWS, w, [DoCall(1, Append(7)), DoBegin(1)]), [DoSend(1), Deliver(1)]);
            && w'.commits == [Commit(1, Post(WriterJob(7), [], 0, false, [7], 0))]
            && w'.clients.Keys == w.clients.Keys
            && forall id :: id in w.clients && id != 1 ==> w'.clients[id] == w.clients[id]
  {
    hide Step, Run, Turn, Append, WriterJob;
    RunTwo(ROWS, w, DoCall(1, Append(7)), DoBegin(1));
    StartWriting(w, 1, 7);
    SendAndCommit(Step(ROWS, Step(ROWS, w, DoCall(1, Append(7))), DoBegin(1)), 1, 7, false);
  }

  lemma PollTurns(commits: seq<Commit<Rows>>)
    requires commits == [Commit(1, Post(WriterJob(7), [], 0, false, [7], 0))]
    ensures var asked := Unlocked().(polls := map[1 := Asked(false)]);
            var got := Unlocked().(polls := map[1 := Got(false, 1, Some([7]))]);
            && Turn(ROWS, commits, Unlocked(), PollStarted(0, 1, false)) == asked
            && Turn(ROWS, commits, asked, PollServed(0, 1)) == got
            && Turn(ROWS, commits, got, PollChecked(0, 1)) == Unlocked().(polls := map[1 := Taken(false, 1, Some([7]))])
  {
    var asked: map<nat, Refresh<Rows>> := map[1 := Asked(false)];
    var got: map<nat, Refresh<Rows>> := map[1 := Got(false, 1, Some([7]))];
    var taken: map<nat, Refresh<Rows>> := map[1 := Taken(false, 1, Some([7]))];
    assert asked[1 := Got(false, 1, Some([7]))] == got;
    assert got[1 := Taken(false, 1, Some([7]))] == taken;
    assert Serve(commits, Asked(false)) == Got(false, 1, Some([7]));
  }

  lemma LandingTurn(commits: seq<Commit<Rows>>, c: Client<Rows>)
    requires c.phase == Editing(WriterJob(8), 0, [], 0, false) && c.revision == 0 && c.payload == Some([])
    requires c.polls == map[1 := Taken(false, 1, Some([7]))]
    ensures var d := Turn(ROWS, commits, c, PollApplied(0, 1));
            d.phase == Editing(WriterJob(8), 0, [], 0, true) && d.revision == 1
  {
  }

  lemma Overtaking(w: World<Rows>)
    requires 0 in w.clients && w.clients[0] == Unlocked()
    requires w.commits == [Commit(1, Post(WriterJob(7), [], 0, false, [7], 0))]
    ensures var polled := Run(ROWS, w, [PollStarted(0, 1, false), PollServed(0, 1), PollChecked(0, 1)]);
            var editing := Run(ROWS, polled, [DoCall(0, Append(8)), DoBegin(0), PollApplied(0, 1)]);
            var w' := Run(ROWS, editing, [DoSend(0), Deliver(0)]);
            w'.commits == w.commits + [Commit(0, Post(WriterJob(8), [], 0, true, [8], 1))]
  {
    PollTurns(w.commits);
    var got: map<nat, Refresh<Rows>> := map[1 := Got(false, 1, Some([7]))];
    var taken: map<nat, Refresh<Rows>> := map[1 := Taken(false, 1, Some([7]))];
    hide Step, Run, Turn, Append, WriterJob;
    RunThree(ROWS, w, PollStarted(0, 1, false), PollServed(0, 1), PollChecked(0, 1));
    TurnOf(ROWS, w, PollStarted(0, 1, false), Unlocked().(polls := map[1 := Asked(false)]));
    var p1 := Step(ROWS, w, PollStarted(0, 1, false));
    TurnOf(ROWS, p1, PollServed(0, 1), Unlocked().(polls := got));
    var p2 := Step(ROWS, p1, PollServed(0, 1));
    TurnOf(ROWS, p2, PollChecked(0, 1), Unlocked().(polls := taken));
    var polled := Step(ROWS, p2, PollChecked(0, 1));
    RunThree(ROWS, polled, DoCall(0, Append(8)), DoBegin(0), PollApplied(0, 1));
    StartWriting(polled, 0, 8);
    var e2 := Step(ROWS, Step(ROWS, polled, DoCall(0, Append(8))), DoBegin(0));
    var c2 := Writing(polled.clients[0], 8);
    LandingTurn(w.commits, c2);
    TurnOf(ROWS, e2, PollApplied(0, 1), Turn(ROWS, w.commits, c2, PollApplied(0, 1)));
    SendAndCommit(Step(ROWS, e2, PollApplied(0, 1)), 0, 8, true);
  }

  /** Row 7 was committed at revision 1 and is gone at revision 2. */
  lemma UpdateIsLost()
    ensures SyncHistory.TidyRun(ROWS, Overtaken())
    ensures var commits := Run(ROWS, Init({0, 1}), Overtaken()).commits;
            && |commits| == 2 && commits[1].post.overtaken
            && PayloadAt(ROWS, commits, 1) == [7] && PayloadAt(ROWS, commits, 2) == [8]
            && SyncHistory.Fold(ROWS, commits) == [7, 8]
  {
    hide Step, Run;
    var w0 := Init<Rows>({0, 1});
    UnlockRun(ROWS, w0, 0);
    var w1 := Run(ROWS, w0, Unlock(0));
    UnlockRun(ROWS, w1, 1);
    var w2 := Run(ROWS, w1, Unlock(1));
    FirstWriter(w2);
    var w3 := Run(ROWS, Run(ROWS, w2, [DoCall(1, Append(7)), DoBegin(1)]), [DoSend(1), Deliver(1)]);
    Overtaking(w3);
    Joined(w0);
    var commits := Run(ROWS, w0, Overtaken()).commits;
    assert commits[..1] == [commits[0]];
    assert SyncHistory.Fold(ROWS, commits[..1]) == [7] by {
      assert commits[..1][..0] == [];
    }
  }

  /** The run, cut where the lemmas above cut it. */
  lemma Joined(w: World<Rows>)
    ensures var w2 := Run(ROWS, Run(ROWS, w, Unlock(0)), Unlock(1));
            var w3 := Run(ROWS, Run(ROWS, w2, [DoCall(1, Append(7)), DoBegin(1)]), [DoSend(1), Deliver(1)]);
            var polled := Run(ROWS, w3, [PollStarted(0, 1, false), PollServed(0, 1), PollChecked(0, 1)]);
            var editing := Run(ROWS, polled, [DoCall(0, Append(8)), DoBegin(0), PollApplied(0, 1)]);
            Run(ROWS, w, Overtaken()) == Run(ROWS, editing, [DoSend(0), Deliver(0)])
  {
    hide Step, Run;
    var a, b, c := Unlock(0), Unlock(1), [DoCall(1, Append(7)), DoBegin(1)];
    var d: seq<Event<Rows>>, e: seq<Event<Rows>> := [DoSend(1), Deliver(1)], [PollStarted(0, 1, false), PollServed(0, 1), PollChecked(0, 1)];
    var f, g: seq<Event<Rows>> := [DoCall(0, Append(8)), DoBegin(0), PollApplied(0, 1)], [DoSend(0), Deliver(0)];
    RunConcat(ROWS, w, a, b);
    RunConcat(ROWS, w, a + b, c);
    RunConcat(ROWS, w, a + b + c, d);
    RunConcat(ROWS, w, a + b + c + d, e);
    RunConcat(ROWS, w, a + b + c + d + e, f);
    RunConcat(ROWS, w, a + b + c + d + e + f, g);
    assert Overtaken() == a + b + c + d + e + f + g;
  }
}
