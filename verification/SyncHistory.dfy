/** What every run of the sync protocol keeps, and exactly when it loses an update. */
module SyncHistory {
  import opened SyncModel

  // ----- pairs from the server's history -----

  /** What client `id` may hold at revision `n`: the server's payload as `refresh` repairs it, or,
      when the client has written that revision itself, the payload as it sent it. */
  ghost predicate Holds<P>(cfg: Config<P>, commits: seq<Commit<P>>, id: nat, n: nat, held: P)
  {
    && n <= |commits|
    && (held == cfg.normalize(PayloadAt(cfg, commits, n))
        || Written(cfg, commits, id, n, held))
  }

  ghost predicate PostOk<P>(cfg: Config<P>, commits: seq<Commit<P>>, id: nat, post: Post<P>)
  {
    && Holds(cfg, commits, id, post.baseRevision, post.base)
    && post.next == post.job.change(post.base)
    && post.revision <= |commits|
    && (!post.overtaken ==> post.revision == post.baseRevision)
  }

  /** Revision `n` is `payload`, written by client `id`. */
  ghost predicate Written<P>(cfg: Config<P>, commits: seq<Commit<P>>, id: nat, n: nat, payload: P)
  {
    0 < n <= |commits| && commits[n - 1].client == id && payload == PayloadAt(cfg, commits, n)
  }

  ghost predicate RefreshOk<P>(cfg: Config<P>, commits: seq<Commit<P>>, r: Refresh<P>)
  {
    !r.Asked? ==>
      && r.revision <= |commits|
      && (r.blob.None? ==> r.revision == 0)
      && (r.blob.Some? ==> r.blob.value == PayloadAt(cfg, commits, r.revision))
  }

  /** The pair a client holds is a pair from the server's history, as the client reads it. */
  ghost predicate PairOk<P>(cfg: Config<P>, commits: seq<Commit<P>>, id: nat, c: Client<P>)
  {
    c.payload.Some? ==> Holds(cfg, commits, id, c.revision, c.payload.value)
  }

  ghost predicate PhaseOk<P>(cfg: Config<P>, commits: seq<Commit<P>>, id: nat, c: Client<P>)
  {
    match c.phase
    case Editing(job, _, base, baseRevision, overtaken) =>
      && c.payload.Some?
      && Holds(cfg, commits, id, baseRevision, base)
      && (!overtaken ==> c.revision == baseRevision)
    case Posting(_, post) => PostOk(cfg, commits, id, post)
    case Answered(job, _, next, reply) =>
      reply.Accepted? ==> Written(cfg, commits, id, reply.revision, next)
    case Refetching(job, _, r) => RefreshOk(cfg, commits, r)
    case _ => true
  }

  ghost predicate ClientOk<P>(cfg: Config<P>, commits: seq<Commit<P>>, id: nat, c: Client<P>)
  {
    && PairOk(cfg, commits, id, c)
    && PhaseOk(cfg, commits, id, c)
    && (forall poll :: poll in c.polls ==> RefreshOk(cfg, commits, c.polls[poll]))
  }

  ghost predicate CommitOk<P>(cfg: Config<P>, commits: seq<Commit<P>>, k: nat)
    requires k < |commits|
  {
    PostOk(cfg, commits[..k], commits[k].client, commits[k].post) && commits[k].post.revision == k
  }

  ghost predicate Sound<P>(cfg: Config<P>, w: World<P>)
  {
    && (forall k :: 0 <= k < |w.commits| ==> CommitOk(cfg, w.commits, k))
    && (forall id :: id in w.clients ==> ClientOk(cfg, w.commits, id, w.clients[id]))
    && (forall key :: key in w.late ==> PostOk(cfg, w.commits, key.0, w.late[key]))
  }

  // A longer history contains the shorter one.

  lemma ClientGrows<P>(cfg: Config<P>, commits: seq<Commit<P>>, last: Commit<P>, id: nat, c: Client<P>)
    requires ClientOk(cfg, commits, id, c)
    ensures ClientOk(cfg, commits + [last], id, c)
  {
    assert forall n :: 0 <= n <= |commits| ==> PayloadAt(cfg, commits + [last], n) == PayloadAt(cfg, commits, n);
  }

  lemma PostGrows<P>(cfg: Config<P>, commits: seq<Commit<P>>, last: Commit<P>, id: nat, post: Post<P>)
    requires PostOk(cfg, commits, id, post)
    ensures PostOk(cfg, commits + [last], id, post)
  {
  }

  lemma CommitKeepsSound<P>(cfg: Config<P>, w: World<P>, id: nat, post: Post<P>)
    requires Sound(cfg, w) && PostOk(cfg, w.commits, id, post)
    ensures Sound(cfg, HandlePost(w, id, post).0)
    ensures var (w', reply) := HandlePost(w, id, post);
            reply.Accepted? ==> Written(cfg, w'.commits, id, reply.revision, post.next)
  {
    if post.revision == |w.commits| {
      var last := Commit(id, post);
      var commits := w.commits + [last];
      forall k | 0 <= k < |commits| ensures CommitOk(cfg, commits, k) {
        if k < |w.commits| {
          assert CommitOk(cfg, w.commits, k);
          assert commits[..k] == w.commits[..k];
        } else {
          assert commits[..k] == w.commits;
        }
      }
      forall c | c in w.clients ensures ClientOk(cfg, commits, c, w.clients[c]) {
        ClientGrows(cfg, w.commits, last, c, w.clients[c]);
      }
      forall key | key in w.late ensures PostOk(cfg, commits, key.0, w.late[key]) {
        PostGrows(cfg, w.commits, last, key.0, w.late[key]);
      }
    }
  }

  lemma CloneOk<P>(cfg: Config<P>, commits: seq<Commit<P>>, id: nat, c: Client<P>, job: Job<P>, attempt: nat)
    requires ClientOk(cfg, commits, id, c)
    ensures ClientOk(cfg, commits, id, Clone(c, job, attempt))
  {
  }

  lemma AssignOk<P>(cfg: Config<P>, w: World<P>, id: nat, c: Client<P>, r: Refresh<P>)
    requires Sound(cfg, w) && ClientOk(cfg, w.commits, id, c) && RefreshOk(cfg, w.commits, r)
    ensures ClientOk(cfg, w.commits, id, Assign(cfg, c, r))
  {
  }

  lemma SendOk<P>(cfg: Config<P>, commits: seq<Commit<P>>, id: nat, c: Client<P>)
    requires ClientOk(cfg, commits, id, c)
    ensures ClientOk(cfg, commits, id, Send(c))
  {
  }

  lemma ServeOk<P>(cfg: Config<P>, commits: seq<Commit<P>>, r: Refresh<P>)
    requires RefreshOk(cfg, commits, r)
    ensures RefreshOk(cfg, commits, Serve(commits, r))
  {
  }

  lemma CheckOk<P>(cfg: Config<P>, commits: seq<Commit<P>>, c: Client<P>, r: Refresh<P>)
    requires RefreshOk(cfg, commits, r)
    ensures Check(c, r).Some? ==> RefreshOk(cfg, commits, Check(c, r).value)
  {
  }

  lemma AskedOk<P>(cfg: Config<P>, commits: seq<Commit<P>>, force: bool)
    ensures RefreshOk(cfg, commits, Asked(force))
  {
  }

  lemma PollsLeavePhase<P>(cfg: Config<P>, commits: seq<Commit<P>>, id: nat, c: Client<P>, polls: map<nat, Refresh<P>>)
    requires ClientOk(cfg, commits, id, c)
    requires forall id :: id in polls ==> RefreshOk(cfg, commits, polls[id])
    ensures ClientOk(cfg, commits, id, c.(polls := polls))
  {
    hide PostOk, RefreshOk;
  }

  predicate IsPollTurn<P>(e: Event<P>) {
    e.PollStarted? || e.PollServed? || e.PollChecked? || e.PollApplied? || e.PollFailed?
  }

  lemma PollTurnOk<P>(cfg: Config<P>, w: World<P>, id: nat, c: Client<P>, e: Event<P>)
    requires Sound(cfg, w) && ClientOk(cfg, w.commits, id, c) && IsPollTurn(e)
    ensures ClientOk(cfg, w.commits, id, Turn(cfg, w.commits, c, e))
  {
    hide PhaseOk, PairOk, RefreshOk, Serve, Check, Assign;
    match e
    case PollStarted(_, poll, force) =>
      AskedOk(cfg, w.commits, force);
      PollsLeavePhase(cfg, w.commits, id, c, c.polls[poll := Asked(force)]);
    case PollServed(_, poll) =>
      if poll in c.polls {
        ServeOk(cfg, w.commits, c.polls[poll]);
        PollsLeavePhase(cfg, w.commits, id, c, c.polls[poll := Serve(w.commits, c.polls[poll])]);
      }
    case PollChecked(_, poll) =>
      if poll in c.polls {
        CheckOk(cfg, w.commits, c, c.polls[poll]);
        match Check(c, c.polls[poll]) {
          case None => PollsLeavePhase(cfg, w.commits, id, c, c.polls - {poll});
          case Some(r) => PollsLeavePhase(cfg, w.commits, id, c, c.polls[poll := r]);
        }
      }
    case PollApplied(_, poll) =>
      if poll in c.polls {
        AssignOk(cfg, w, id, c, c.polls[poll]);
        PollsLeavePhase(cfg, w.commits, id, Assign(cfg, c, c.polls[poll]), c.polls - {poll});
      }
    case PollFailed(_, poll) => PollsLeavePhase(cfg, w.commits, id, c, c.polls - {poll});
  }

  lemma JobTurnOk<P>(cfg: Config<P>, w: World<P>, id: nat, c: Client<P>, e: Event<P>)
    requires Sound(cfg, w) && ClientOk(cfg, w.commits, id, c) && !IsPollTurn(e)
    ensures ClientOk(cfg, w.commits, id, Turn(cfg, w.commits, c, e))
  {
    hide PostOk;
    match e
    case DoBegin(_) =>
      if c.phase.Idle? && c.queue != [] {
        CloneOk(cfg, w.commits, id, c.(queue := c.queue[1..], pendingWrites := c.pendingWrites + 1), c.queue[0], 0);
      }
    case DoSend(_) => SendOk(cfg, w.commits, id, c);
    case NextAttempt(_) =>
      if c.phase.Refetched? {
        CloneOk(cfg, w.commits, id, c, c.phase.job, c.phase.attempt + 1);
      }
    case RefetchApplied(_) =>
      if c.phase.Refetching? {
        AssignOk(cfg, w, id, c, c.phase.refresh);
      }
    case _ =>
  }

  /** Nothing but one client, and perhaps the late requests, has changed. */
  lemma ClientStepKeepsSound<P>(cfg: Config<P>, w: World<P>, w': World<P>, id: nat, c: Client<P>)
    requires Sound(cfg, w) && ClientOk(cfg, w.commits, id, c)
    requires w'.commits == w.commits && w'.clients == w.clients[id := c]
    requires forall key :: key in w'.late ==> PostOk(cfg, w.commits, key.0, w'.late[key])
    ensures Sound(cfg, w')
  {
    hide ClientOk, CommitOk, PostOk;
  }

  lemma PostingIsOk<P>(cfg: Config<P>, commits: seq<Commit<P>>, id: nat, c: Client<P>)
    requires ClientOk(cfg, commits, id, c)
    ensures c.phase.Posting? ==> PostOk(cfg, commits, id, c.phase.post)
  {
  }

  lemma DeliverKeepsSound<P>(cfg: Config<P>, w: World<P>, id: nat)
    requires Sound(cfg, w) && id in w.clients && w.clients[id].phase.Posting?
    ensures Sound(cfg, Step(cfg, w, Deliver(id)))
  {
    hide PostOk, CommitOk;
    var c := w.clients[id];
    var post := c.phase.post;
    assert ClientOk(cfg, w.commits, id, c);
    CommitKeepsSound(cfg, w, id, post);
    var (w', reply) := HandlePost(w, id, post);
    assert ClientOk(cfg, w'.commits, id, c);
    var c' := c.(phase := Answered(post.job, c.phase.attempt, post.next, reply));
    assert ClientOk(cfg, w'.commits, id, c');
    ClientStepKeepsSound(cfg, w', Step(cfg, w, Deliver(id)), id, c');
  }

  /** Every step of every client, the server and the network keeps it. */
  lemma {:induction false} StepKeepsSound<P>(cfg: Config<P>, w: World<P>, e: Event<P>)
    requires Sound(cfg, w)
    ensures Sound(cfg, Step(cfg, w, e))
  {
    if e.c in w.clients {
      var c := w.clients[e.c];
      assert ClientOk(cfg, w.commits, e.c, c);
      hide ClientOk, PostOk, CommitOk, Turn;
      if e.Deliver? {
        if c.phase.Posting? {
          DeliverKeepsSound(cfg, w, e.c);
        }
      } else if e.DeliverLate? {
        if (e.c, e.ticket) in w.late {
          CommitKeepsSound(cfg, w, e.c, w.late[(e.c, e.ticket)]);
        }
      } else {
        if IsPollTurn(e) {
          PollTurnOk(cfg, w, e.c, c, e);
        } else {
          JobTurnOk(cfg, w, e.c, c, e);
        }
        PostingIsOk(cfg, w.commits, e.c, c);
        ClientStepKeepsSound(cfg, w, Step(cfg, w, e), e.c, Turn(cfg, w.commits, c, e));
      }
    }
  }

  lemma {:induction false} RunIsSound<P>(cfg: Config<P>, ids: set<nat>, events: seq<Event<P>>)
    ensures Sound(cfg, Run(cfg, Init(ids), events))
  {
    if events != [] {
      var n := |events| - 1;
      RunIsSound(cfg, ids, events[..n]);
      hide Sound, Step;
      StepKeepsSound(cfg, Run(cfg, Init(ids), events[..n]), events[n]);
    }
  }

  /** In every run, without any condition on the changes or on when refreshes land, each client's
      payload is the server's payload at the client's revision as `refresh` repairs it, or as it is if
      the client has written it. */
  lemma {:induction false} PairsAreFromHistory<P>(cfg: Config<P>, ids: set<nat>, events: seq<Event<P>>, id: nat)
    ensures var w := Run(cfg, Init(ids), events);
            id in w.clients && w.clients[id].payload.Some? ==>
              var c := w.clients[id];
              Holds(cfg, w.commits, id, c.revision, c.payload.value)
  {
    hide Run, PhaseOk, RefreshOk, CommitOk, PostOk, Holds;
    RunIsSound(cfg, ids, events);
    var w := Run(cfg, Init(ids), events);
    assert id in w.clients ==> ClientOk(cfg, w.commits, id, w.clients[id]);
  }

  /** Revisions, once committed, are never rewritten. */
  lemma {:induction false} HistoryIsStable<P>(cfg: Config<P>, w: World<P>, events: seq<Event<P>>)
    ensures w.commits <= Run(cfg, w, events).commits
  {
    if events != [] {
      hide Turn;
      HistoryIsStable(cfg, w, events[..|events| - 1]);
    }
  }

  // ----- when an update is lost -----

  /** The payload at each revision is that revision's change of the payload before it, repaired
      unless the same client wrote both. */
  ghost predicate Serial<P>(cfg: Config<P>, commits: seq<Commit<P>>)
  {
    forall k :: 0 <= k < |commits| ==> Follows(cfg, commits, k)
  }

  ghost predicate Follows<P>(cfg: Config<P>, commits: seq<Commit<P>>, k: nat)
    requires k < |commits|
  {
    var before, after, change := PayloadAt(cfg, commits, k), PayloadAt(cfg, commits, k + 1), commits[k].post.job.change;
    after == change(cfg.normalize(before)) || (OwnNext(commits, k) && after == change(before))
  }

  /** Commit `k` and the one before it are of the same client. */
  predicate OwnNext<P>(commits: seq<Commit<P>>, k: nat)
    requires k < |commits|
  {
    k > 0 && commits[k - 1].client == commits[k].client
  }

  /** Each post was made from the payload of the revision it replaced. */
  ghost predicate Paired<P>(commits: seq<Commit<P>>)
  {
    forall k :: 0 <= k < |commits| ==> commits[k].post.baseRevision == k
  }

  /** The committed changes, applied in revision order to the empty payload; `repairs` says before
      which of them the payload is repaired. */
  function FoldRepaired<P>(cfg: Config<P>, commits: seq<Commit<P>>, repairs: seq<bool>): P
    requires |repairs| == |commits|
  {
    if commits == [] then cfg.empty
    else
      var n := |commits| - 1;
      var p := FoldRepaired(cfg, commits[..n], repairs[..n]);
      commits[n].post.job.change(if repairs[n] then cfg.normalize(p) else p)
  }

  lemma {:induction false} SerialIsFold<P>(cfg: Config<P>, commits: seq<Commit<P>>, n: nat) returns (repairs: seq<bool>)
    requires Serial(cfg, commits) && n <= |commits|
    ensures |repairs| == n && PayloadAt(cfg, commits, n) == FoldRepaired(cfg, commits[..n], repairs)
    ensures forall k :: 0 <= k < n && !repairs[k] ==> OwnNext(commits, k)
  {
    repairs := [];
    if n > 0 {
      var before := SerialIsFold(cfg, commits, n - 1);
      assert commits[..n][..n - 1] == commits[..n - 1];
      assert Follows(cfg, commits, n - 1);
      var p, change := PayloadAt(cfg, commits, n - 1), commits[n - 1].post.job.change;
      repairs := before + [PayloadAt(cfg, commits, n) == change(cfg.normalize(p))];
      assert repairs[..n - 1] == before;
    }
  }

  /** What commit `k` did. */
  ghost predicate Replaced<P>(cfg: Config<P>, commits: seq<Commit<P>>, k: nat)
    requires k < |commits|
  {
    var post := commits[k].post;
    && post.baseRevision <= k
    && PayloadAt(cfg, commits, k + 1) == post.job.change(post.base)
    && Holds(cfg, commits, commits[k].client, post.baseRevision, post.base)
    && (!post.overtaken ==> post.baseRevision == k)
  }

  /** What every commit does, in every run: it puts its change of the payload at `baseRevision`, as
      the client read it, in the place of the current one, so the changes committed from there to
      `k` are not in it; and without an overtaking refresh there are none. */
  lemma {:induction false} CommitReplaces<P>(cfg: Config<P>, ids: set<nat>, events: seq<Event<P>>, k: nat)
    requires k < |Run(cfg, Init(ids), events).commits|
    ensures Replaced(cfg, Run(cfg, Init(ids), events).commits, k)
  {
    var commits := Run(cfg, Init(ids), events).commits;
    RunIsSound(cfg, ids, events);
    hide Run, ClientOk;
    assert CommitOk(cfg, commits, k);
    var base := commits[k].post.baseRevision;
    assert PayloadAt(cfg, commits[..k], base) == PayloadAt(cfg, commits, base);
  }

  lemma PairedIsSerial<P>(cfg: Config<P>, commits: seq<Commit<P>>)
    requires Paired(commits) && forall k :: 0 <= k < |commits| ==> Replaced(cfg, commits, k)
    ensures Serial(cfg, commits)
  {
    hide PayloadAt;
    forall k | 0 <= k < |commits| ensures Follows(cfg, commits, k) {
      assert Replaced(cfg, commits, k);
    }
  }

  ghost predicate Unovertaken<P>(commits: seq<Commit<P>>)
  {
    forall k :: 0 <= k < |commits| ==> !commits[k].post.overtaken
  }

  /** No lost update: in every interleaving of any number of clients, whatever their changes do, if
      no refresh assigned the state between the clone and the sending of a post that was then
      accepted, the payload at revision `n` is the first `n` committed changes applied in order to
      the empty payload, with a repair before each of them, except perhaps between two commits of the
      same client. */
  lemma {:induction false} NoLostUpdate<P>(cfg: Config<P>, ids: set<nat>, events: seq<Event<P>>, n: nat) returns (repairs: seq<bool>)
    requires var commits := Run(cfg, Init(ids), events).commits; n <= |commits| && Unovertaken(commits)
    ensures var commits := Run(cfg, Init(ids), events).commits;
            && |repairs| == n && PayloadAt(cfg, commits, n) == FoldRepaired(cfg, commits[..n], repairs)
            && forall k :: 0 <= k < n && !repairs[k] ==> OwnNext(commits, k)
  {
    hide Run, Serial, PayloadAt, FoldRepaired;
    var commits := Run(cfg, Init(ids), events).commits;
    forall k | 0 <= k < |commits| ensures commits[k].post.baseRevision == k && Replaced(cfg, commits, k) {
      CommitReplaces(cfg, ids, events, k);
    }
    PairedIsSerial(cfg, commits);
    repairs := SerialIsFold(cfg, commits, n);
  }

  /** Every change adds one item and a repair adds none. */
  ghost predicate Grows<P(!new)>(cfg: Config<P>, commits: seq<Commit<P>>, size: P -> nat)
  {
    && size(cfg.empty) == 0
    && (forall p: P :: size(cfg.normalize(p)) == size(p))
    && (forall k, p: P :: 0 <= k < |commits| ==> size(commits[k].post.job.change(p)) == size(p) + 1)
  }

  /** The condition is exact. Whenever every change adds one item (counted by `size`) and a repair
      adds none, the history of a run is serial if and only if every accepted post was made from the
      revision it replaced. */
  lemma {:induction false} SerialExactlyWhenPaired<P(!new)>(cfg: Config<P>, ids: set<nat>, events: seq<Event<P>>, size: P -> nat)
    requires Grows(cfg, Run(cfg, Init(ids), events).commits, size)
    ensures var commits := Run(cfg, Init(ids), events).commits;
            Serial(cfg, commits) <==> Paired(commits)
  {
    var commits := Run(cfg, Init(ids), events).commits;
    hide Run;
    forall k | 0 <= k < |commits| ensures Replaced(cfg, commits, k) {
      CommitReplaces(cfg, ids, events, k);
    }
    if Serial(cfg, commits) {
      forall k | 0 <= k < |commits| ensures commits[k].post.baseRevision == k {
        assert Replaced(cfg, commits, k);
        SizeIsRevision(cfg, commits, size, k + 1);
        SizeIsRevision(cfg, commits, size, commits[k].post.baseRevision);
      }
    }
    if Paired(commits) {
      PairedIsSerial(cfg, commits);
    }
  }

  lemma {:induction false} SizeIsRevision<P(!new)>(cfg: Config<P>, commits: seq<Commit<P>>, size: P -> nat, n: nat)
    requires Serial(cfg, commits) && Grows(cfg, commits, size) && n <= |commits|
    ensures size(PayloadAt(cfg, commits, n)) == n
  {
    if n > 0 {
      SizeIsRevision(cfg, commits, size, n - 1);
      assert Follows(cfg, commits, n - 1);
    }
  }

  // ----- changes that leave nothing to repair -----

  /** The change keeps a payload that `normalize` has nothing to repair in. */
  ghost predicate Tidy<P(!new)>(cfg: Config<P>, change: P -> P)
  {
    forall p: P :: cfg.normalize(p) == p ==> cfg.normalize(change(p)) == change(p)
  }

  ghost predicate TidyEvent<P(!new)>(cfg: Config<P>, e: Event<P>)
  {
    e.DoCall? ==> Tidy(cfg, e.change)
  }

  ghost predicate TidyRun<P(!new)>(cfg: Config<P>, events: seq<Event<P>>)
  {
    && cfg.normalize(cfg.empty) == cfg.empty
    && forall k :: 0 <= k < |events| ==> TidyEvent(cfg, events[k])
  }

  ghost predicate TidyClient<P(!new)>(cfg: Config<P>, c: Client<P>)
  {
    && (forall j :: 0 <= j < |c.queue| ==> Tidy(cfg, c.queue[j].change))
    && (!c.phase.Idle? ==> Tidy(cfg, JobOf(c.phase).change))
  }

  /** Every call in the system is tidy: waiting, running, on the network or committed. */
  ghost predicate TidyWorld<P(!new)>(cfg: Config<P>, w: World<P>)
  {
    && (forall id :: id in w.clients ==> TidyClient(cfg, w.clients[id]))
    && (forall key :: key in w.late ==> Tidy(cfg, w.late[key].job.change))
    && (forall k :: 0 <= k < |w.commits| ==> Tidy(cfg, w.commits[k].post.job.change))
  }

  lemma TurnKeepsTidy<P(!new)>(cfg: Config<P>, commits: seq<Commit<P>>, c: Client<P>, e: Event<P>)
    requires TidyClient(cfg, c) && TidyEvent(cfg, e)
    ensures TidyClient(cfg, Turn(cfg, commits, c, e))
  {
    hide Tidy;
  }

  lemma CommitKeepsTidy<P(!new)>(cfg: Config<P>, w: World<P>, id: nat, post: Post<P>)
    requires TidyWorld(cfg, w) && Tidy(cfg, post.job.change)
    ensures TidyWorld(cfg, HandlePost(w, id, post).0)
  {
    hide Tidy, TidyClient;
  }

  lemma DeliverKeepsTidy<P(!new)>(cfg: Config<P>, w: World<P>, id: nat)
    requires TidyWorld(cfg, w) && id in w.clients
    ensures TidyWorld(cfg, Step(cfg, w, Deliver(id)))
  {
    hide Tidy, HandlePost;
    var c := w.clients[id];
    assert TidyClient(cfg, c);
    if c.phase.Posting? {
      CommitKeepsTidy(cfg, w, id, c.phase.post);
      var (w', reply) := HandlePost(w, id, c.phase.post);
      assert TidyClient(cfg, c.(phase := Answered(c.phase.post.job, c.phase.attempt, c.phase.post.next, reply)));
      hide TidyClient;
    }
  }

  lemma TakenTurnKeepsTidy<P(!new)>(cfg: Config<P>, w: World<P>, e: Event<P>)
    requires TidyWorld(cfg, w) && TidyEvent(cfg, e) && e.c in w.clients && !e.Deliver? && !e.DeliverLate?
    ensures TidyWorld(cfg, Step(cfg, w, e))
  {
    var c := w.clients[e.c];
    assert TidyClient(cfg, c);
    TurnKeepsTidy(cfg, w.commits, c, e);
    hide Tidy, Turn;
    assert c.phase.Posting? ==> Tidy(cfg, c.phase.post.job.change);
    hide TidyClient;
  }

  lemma {:induction false} StepKeepsTidy<P(!new)>(cfg: Config<P>, w: World<P>, e: Event<P>)
    requires TidyWorld(cfg, w) && TidyEvent(cfg, e)
    ensures TidyWorld(cfg, Step(cfg, w, e))
  {
    if e.c in w.clients {
      hide TidyClient, Tidy, HandlePost, Turn;
      if e.Deliver? {
        DeliverKeepsTidy(cfg, w, e.c);
      } else if e.DeliverLate? {
        if (e.c, e.ticket) in w.late { CommitKeepsTidy(cfg, w, e.c, w.late[(e.c, e.ticket)]); }
      } else {
        TakenTurnKeepsTidy(cfg, w, e);
      }
    }
  }

  lemma {:induction false} RunIsTidy<P(!new)>(cfg: Config<P>, ids: set<nat>, events: seq<Event<P>>)
    requires TidyRun(cfg, events)
    ensures TidyWorld(cfg, Run(cfg, Init(ids), events))
  {
    if events != [] {
      var n := |events| - 1;
      hide TidyEvent;
      RunIsTidy(cfg, ids, events[..n]);
      hide TidyWorld, Step;
      StepKeepsTidy(cfg, Run(cfg, Init(ids), events[..n]), events[n]);
    }
  }

  /** When every change keeps a payload that needs no repair, none ever does. */
  lemma {:induction false} NothingToRepair<P(!new)>(cfg: Config<P>, ids: set<nat>, events: seq<Event<P>>, n: nat)
    requires TidyRun(cfg, events) && n <= |Run(cfg, Init(ids), events).commits|
    ensures var p := PayloadAt(cfg, Run(cfg, Init(ids), events).commits, n); cfg.normalize(p) == p
    decreases n
  {
    var w := Run(cfg, Init(ids), events);
    RunIsTidy(cfg, ids, events);
    hide Run;
    if n > 0 {
      CommitReplaces(cfg, ids, events, n - 1);
      assert Replaced(cfg, w.commits, n - 1);
      NothingToRepair(cfg, ids, events, w.commits[n - 1].post.baseRevision);
      assert Tidy(cfg, w.commits[n - 1].post.job.change);
    }
  }

  /** Then clients hold exactly the server's payloads. */
  lemma {:induction false} TidyPairs<P(!new)>(cfg: Config<P>, ids: set<nat>, events: seq<Event<P>>, id: nat)
    requires TidyRun(cfg, events)
    ensures var w := Run(cfg, Init(ids), events);
            id in w.clients && w.clients[id].payload.Some? ==>
              var c := w.clients[id];
              c.revision <= |w.commits| && c.payload.value == PayloadAt(cfg, w.commits, c.revision)
  {
    PairsAreFromHistory(cfg, ids, events, id);
    var w := Run(cfg, Init(ids), events);
    hide Run, TidyRun;
    if id in w.clients && w.clients[id].payload.Some? {
      NothingToRepair(cfg, ids, events, w.clients[id].revision);
    }
  }

  /** The committed changes, applied in revision order to the empty payload. */
  function Fold<P>(cfg: Config<P>, commits: seq<Commit<P>>): P
  {
    if commits == [] then cfg.empty
    else commits[|commits| - 1].post.job.change(Fold(cfg, commits[..|commits| - 1]))
  }

  lemma {:induction false} TidyFold<P(!new)>(cfg: Config<P>, commits: seq<Commit<P>>, repairs: seq<bool>)
    requires |repairs| == |commits| && cfg.normalize(cfg.empty) == cfg.empty
    requires forall k :: 0 <= k < |commits| ==> Tidy(cfg, commits[k].post.job.change)
    ensures var p := Fold(cfg, commits); FoldRepaired(cfg, commits, repairs) == p && cfg.normalize(p) == p
  {
    if commits != [] {
      var n := |commits| - 1;
      TidyFold(cfg, commits[..n], repairs[..n]);
      assert Tidy(cfg, commits[n].post.job.change);
    }
  }

  /** And no lost update means exactly the fold of the changes. */
  lemma {:induction false} TidyNoLostUpdate<P(!new)>(cfg: Config<P>, ids: set<nat>, events: seq<Event<P>>, n: nat)
    requires TidyRun(cfg, events)
    requires var commits := Run(cfg, Init(ids), events).commits; n <= |commits| && Unovertaken(commits)
    ensures var commits := Run(cfg, Init(ids), events).commits;
            PayloadAt(cfg, commits, n) == Fold(cfg, commits[..n])
  {
    var repairs := NoLostUpdate(cfg, ids, events, n);
    RunIsTidy(cfg, ids, events);
    hide Run, Tidy, PayloadAt;
    TidyFold(cfg, Run(cfg, Init(ids), events).commits[..n], repairs);
  }
}
