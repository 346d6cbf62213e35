/** Runs of the sync protocol, event by event. */
module SyncRuns {
  import opened Results
  import opened SyncModel

  lemma RunLast<P>(cfg: Config<P>, w: World<P>, events: seq<Event<P>>)
    requires events != []
    ensures Run(cfg, w, events) == Step(cfg, Run(cfg, w, events[..|events| - 1]), events[|events| - 1])
  {
    hide Step;
  }

  lemma {:induction false} RunConcat<P>(cfg: Config<P>, w: World<P>, a: seq<Event<P>>, b: seq<Event<P>>)
    ensures Run(cfg, w, a + b) == Run(cfg, Run(cfg, w, a), b)
  {
    if b == [] {
      assert a + b == a;
    } else {
      hide Step, Run;
      var n := |b| - 1;
      var all := a + b;
      assert all[..|all| - 1] == a + b[..n] && all[|all| - 1] == b[n];
      RunConcat(cfg, w, a, b[..n]);
      RunLast(cfg, w, all);
      RunLast(cfg, Run(cfg, w, a), b);
    }
  }

  lemma RunOne<P>(cfg: Config<P>, w: World<P>, e: Event<P>)
    ensures Run(cfg, w, [e]) == Step(cfg, w, e)
  {
    hide Step;
    assert [e][..0] == [];
    assert Run(cfg, w, [e][..0]) == w;
  }

  lemma RunTwo<P>(cfg: Config<P>, w: World<P>, e: Event<P>, f: Event<P>)
    ensures Run(cfg, w, [e, f]) == Step(cfg, Step(cfg, w, e), f)
  {
    hide Step;
    assert [e, f][..1] == [e];
    RunOne(cfg, w, e);
  }

  lemma RunThree<P>(cfg: Config<P>, w: World<P>, e: Event<P>, f: Event<P>, g: Event<P>)
    ensures Run(cfg, w, [e, f, g]) == Step(cfg, Step(cfg, Step(cfg, w, e), f), g)
  {
    hide Step;
    assert [e, f, g][..2] == [e, f];
    RunTwo(cfg, w, e, f);
  }

  lemma RunFour<P>(cfg: Config<P>, w: World<P>, e: Event<P>, f: Event<P>, g: Event<P>, h: Event<P>)
    ensures Run(cfg, w, [e, f, g, h]) == Step(cfg, Step(cfg, Step(cfg, Step(cfg, w, e), f), g), h)
  {
    hide Step;
    assert [e, f, g, h][..3] == [e, f, g];
    RunThree(cfg, w, e, f, g);
  }

  /** A turn seen from the one client that takes it. */
  lemma TurnOf<P>(cfg: Config<P>, w: World<P>, e: Event<P>, c: Client<P>)
    requires e.c in w.clients && !e.Deliver? && !e.DeliverLate?
    requires c == Turn(cfg, w.commits, w.clients[e.c], e)
    ensures var w' := Step(cfg, w, e);
            w'.commits == w.commits && w'.clients == w.clients[e.c := c]
  {
    hide Turn;
  }

  lemma DeliveryOf<P>(cfg: Config<P>, w: World<P>, id: nat, attempt: nat, post: Post<P>)
    requires id in w.clients && w.clients[id].phase == Posting(attempt, post) && post.revision == |w.commits|
    ensures var w' := Step(cfg, w, Deliver(id));
            && w'.commits == w.commits + [Commit(id, post)]
            && w'.clients.Keys == w.clients.Keys
            && forall other :: other in w.clients && other != id ==> w'.clients[other] == w.clients[other]
  {
    hide Turn;
  }

  // ----- a client unlocks -----

  /** `unlock`: a forced refresh, served and taken in at once. */
  function Unlock<P>(c: nat): seq<Event<P>>
  {
    [PollStarted(c, 0, true), PollServed(c, 0), PollChecked(c, 0), PollApplied(c, 0)]
  }

  /** A client that has just unlocked: it holds the last revision, repaired. */
  function UnlockedAt<P>(cfg: Config<P>, commits: seq<Commit<P>>): Client<P>
  {
    NewClient().(payload := Some(cfg.normalize(PayloadAt(cfg, commits, |commits|))), revision := |commits|)
  }

  function Polling<P>(r: Refresh<P>): Client<P>
  {
    NewClient().(polls := map[0 := r])
  }

  lemma PollTurns<P>(cfg: Config<P>, commits: seq<Commit<P>>, c: nat)
    ensures Turn(cfg, commits, NewClient(), PollStarted(c, 0, true)) == Polling(Asked(true))
    ensures Turn(cfg, commits, Polling(Asked(true)), PollServed(c, 0)) == Polling(Got(true, |commits|, BlobAt(commits)))
  {
    hide BlobAt;
    var asked: map<nat, Refresh<P>> := map[0 := Asked(true)];
    assert asked[0 := Got(true, |commits|, BlobAt(commits))] == map[0 := Got(true, |commits|, BlobAt(commits))];
  }

  lemma TakeTurns<P>(cfg: Config<P>, commits: seq<Commit<P>>, c: nat)
    ensures var n, blob := |commits|, BlobAt(commits);
            && Turn(cfg, commits, Polling(Got(true, n, blob)), PollChecked(c, 0)) == Polling(Taken(true, n, blob))
            && Turn(cfg, commits, Polling(Taken(true, n, blob)), PollApplied(c, 0)) == UnlockedAt(cfg, commits)
  {
    var got: map<nat, Refresh<P>> := map[0 := Got(true, |commits|, BlobAt(commits))];
    var taken: map<nat, Refresh<P>> := map[0 := Taken(true, |commits|, BlobAt(commits))];
    assert got[0 := Taken(true, |commits|, BlobAt(commits))] == taken;
    assert taken - {0} == map[];
  }

  lemma UnlockRun<P>(cfg: Config<P>, w: World<P>, c: nat)
    requires c in w.clients && w.clients[c] == NewClient()
    ensures var w' := Run(cfg, w, Unlock(c));
            w'.commits == w.commits && w'.clients == w.clients[c := UnlockedAt(cfg, w.commits)]
  {
    var n, blob := |w.commits|, BlobAt(w.commits);
    RunFour(cfg, w, PollStarted(c, 0, true), PollServed(c, 0), PollChecked(c, 0), PollApplied(c, 0));
    PollTurns(cfg, w.commits, c);
    TakeTurns(cfg, w.commits, c);
    hide Step, Run, Turn, Polling, UnlockedAt, BlobAt;
    TurnOf(cfg, w, PollStarted(c, 0, true), Polling(Asked(true)));
    var w1 := Step(cfg, w, PollStarted(c, 0, true));
    TurnOf(cfg, w1, PollServed(c, 0), Polling(Got(true, n, blob)));
    var w2 := Step(cfg, w1, PollServed(c, 0));
    TurnOf(cfg, w2, PollChecked(c, 0), Polling(Taken(true, n, blob)));
    var w3 := Step(cfg, w2, PollChecked(c, 0));
    TurnOf(cfg, w3, PollApplied(c, 0), UnlockedAt(cfg, w.commits));
  }

  // ----- and writes -----

  /** A `mutate` call that goes through at once. */
  function Write<P>(c: nat, change: P -> P): seq<Event<P>>
  {
    [DoCall(c, change), DoBegin(c), DoSend(c), Deliver(c)]
  }

  /** The post of a client's first call, made just after it has unlocked. */
  function FirstPost<P>(cfg: Config<P>, commits: seq<Commit<P>>, change: P -> P): Post<P>
  {
    var n := |commits|;
    var base := cfg.normalize(PayloadAt(cfg, commits, n));
    Post(Job(0, change), base, n, false, change(base), n)
  }

  function Called<P>(c: Client<P>, change: P -> P): Client<P>
  {
    c.(queue := [Job(0, change)], nextTicket := 1)
  }

  function Running<P>(c: Client<P>, phase: Phase<P>): Client<P>
  {
    c.(nextTicket := 1, pendingWrites := 1, phase := phase)
  }

  lemma WriteTurns<P>(cfg: Config<P>, commits: seq<Commit<P>>, id: nat, change: P -> P)
    ensures var c, post := UnlockedAt(cfg, commits), FirstPost(cfg, commits, change);
            var editing := Running(c, Editing(post.job, 0, post.base, |commits|, false));
            && Turn(cfg, commits, c, DoCall(id, change)) == Called(c, change)
            && Turn(cfg, commits, Called(c, change), DoBegin(id)) == editing
            && Turn(cfg, commits, editing, DoSend(id)) == Running(c, Posting(0, post))
  {
  }

  lemma WriteRun<P>(cfg: Config<P>, w: World<P>, id: nat, change: P -> P)
    requires id in w.clients && w.clients[id] == UnlockedAt(cfg, w.commits)
    ensures var w' := Run(cfg, w, Write(id, change));
            && w'.commits == w.commits + [Commit(id, FirstPost(cfg, w.commits, change))]
            && w'.clients.Keys == w.clients.Keys
            && forall other :: other in w.clients && other != id ==> w'.clients[other] == w.clients[other]
  {
    var c, post := UnlockedAt(cfg, w.commits), FirstPost(cfg, w.commits, change);
    RunFour(cfg, w, DoCall(id, change), DoBegin(id), DoSend(id), Deliver(id));
    WriteTurns(cfg, w.commits, id, change);
    hide Step, Run, Turn, Called, UnlockedAt, PayloadAt;
    TurnOf(cfg, w, DoCall(id, change), Called(c, change));
    var w1 := Step(cfg, w, DoCall(id, change));
    TurnOf(cfg, w1, DoBegin(id), Running(c, Editing(post.job, 0, post.base, |w.commits|, false)));
    var w2 := Step(cfg, w1, DoBegin(id));
    TurnOf(cfg, w2, DoSend(id), Running(c, Posting(0, post)));
    DeliveryOf(cfg, Step(cfg, w2, DoSend(id)), id, 0, post);
  }
}
