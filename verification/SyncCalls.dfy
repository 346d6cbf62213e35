/** How often a `mutate` call posts and commits, and in which order the calls of a client do. */
module SyncCalls {
  import opened SyncModel

  /** The running call may have committed. */
  predicate Settled<P>(phase: Phase<P>) {
    phase.Finishing? || (phase.Answered? && !phase.reply.Conflict?)
  }

  /** Tickets below the returned one may have been committed; the running call itself only when it
      is settled. */
  function Frontier<P>(c: Client<P>): nat
  {
    if !c.phase.Idle? then JobOf(c.phase).ticket + (if Settled(c.phase) then 1 else 0)
    else if c.queue != [] then c.queue[0].ticket
    else c.nextTicket
  }

  /** Tickets in call order, all from `low` up to the next one to be given out. */
  ghost predicate Ascending<P>(queue: seq<Job<P>>, low: nat, next: nat)
  {
    && (forall i, j :: 0 <= i < j < |queue| ==> queue[i].ticket < queue[j].ticket)
    && (forall i :: 0 <= i < |queue| ==> low <= queue[i].ticket < next)
  }

  /** The running call is older than every waiting one, and is the only one that counts as a
      pending write. */
  ghost predicate QueueOk<P>(c: Client<P>)
  {
    if c.phase.Idle? then Ascending(c.queue, 0, c.nextTicket) && c.pendingWrites == 0
    else
      var t := JobOf(c.phase).ticket;
      Ascending(c.queue, t + 1, c.nextTicket) && t < c.nextTicket && c.pendingWrites == 1
  }

  ghost predicate CommittedBelow<P>(commits: seq<Commit<P>>, id: nat, t: nat)
  {
    forall k :: 0 <= k < |commits| && commits[k].client == id ==> commits[k].post.job.ticket < t
  }

  ghost predicate LateOk<P>(w: World<P>, id: nat, t: nat, frontier: nat)
    requires (id, t) in w.late
  {
    var post := w.late[(id, t)];
    && post.job.ticket == t && t < frontier
    && post.revision <= |w.commits|
    && (post.revision == |w.commits| ==> CommittedBelow(w.commits, id, t))
  }

  /** How many requests the running call has sent. */
  function Sent<P>(phase: Phase<P>): nat
  {
    match phase
    case Editing(_, attempt, _, _, _) => attempt
    case Posting(attempt, _) => attempt + 1
    case Answered(_, attempt, _, _) => attempt + 1
    case Refetching(_, attempt, _) => attempt + 1
    case Refetched(_, attempt) => attempt + 1
    case _ => 0
  }

  /** A call that will post again has sent at most three requests. */
  function Allowance<P>(phase: Phase<P>): nat {
    if phase.Editing? || phase.Refetching? || phase.Refetched? then MAX_CONFLICT_RETRIES else MAX_CONFLICT_RETRIES + 1
  }

  ghost predicate PostsOk<P>(w: World<P>, id: nat, c: Client<P>)
  {
    && (forall t: nat :: w.posts[(id, t)] <= MAX_CONFLICT_RETRIES + 1)
    && (forall t: nat :: t >= c.nextTicket ==> w.posts[(id, t)] == 0)
    && (forall i :: 0 <= i < |c.queue| ==> w.posts[(id, c.queue[i].ticket)] == 0)
    && (!c.phase.Idle? && !c.phase.Finishing? ==> w.posts[(id, JobOf(c.phase).ticket)] == Sent(c.phase))
    && Sent(c.phase) <= Allowance(c.phase)
  }

  /** No client is ahead of the server. */
  ghost predicate RevisionsOk<P>(n: nat, c: Client<P>)
  {
    && c.revision <= n
    && (c.phase.Posting? ==> c.phase.post.revision <= n)
    && (c.phase.Answered? && c.phase.reply.Accepted? ==> c.phase.reply.revision <= n)
    && (c.phase.Refetching? && !c.phase.refresh.Asked? ==> c.phase.refresh.revision <= n)
    && (forall poll :: poll in c.polls && !c.polls[poll].Asked? ==> c.polls[poll].revision <= n)
  }

  ghost predicate CallsOk<P>(w: World<P>, id: nat, c: Client<P>)
  {
    && RevisionsOk(|w.commits|, c)
    && QueueOk(c)
    && CommittedBelow(w.commits, id, Frontier(c))
    && (forall t: nat :: (id, t) in w.late ==> LateOk(w, id, t, Frontier(c)))
    && PostsOk(w, id, c)
  }

  ghost predicate InOrder<P>(commits: seq<Commit<P>>)
  {
    forall i, j :: 0 <= i < j < |commits| && commits[i].client == commits[j].client ==>
      commits[i].post.job.ticket < commits[j].post.job.ticket
  }

  ghost predicate Orderly<P>(w: World<P>)
  {
    && InOrder(w.commits)
    && forall id :: id in w.clients ==> CallsOk(w, id, w.clients[id])
  }

  // ----- one step -----

  /** Taking a post in: committed or not, it stays below `frontier`. */
  lemma HandleKept<P>(w: World<P>, id: nat, post: Post<P>, frontier: nat)
    requires InOrder(w.commits) && CommittedBelow(w.commits, id, frontier) && post.job.ticket < frontier
    requires post.revision == |w.commits| ==> CommittedBelow(w.commits, id, post.job.ticket)
    requires forall t: nat :: (id, t) in w.late ==> LateOk(w, id, t, frontier)
    ensures var w' := HandlePost(w, id, post).0;
            && InOrder(w'.commits) && CommittedBelow(w'.commits, id, frontier)
            && (forall t: nat :: (id, t) in w'.late ==> LateOk(w', id, t, frontier))
            && (w'.commits == w.commits || w'.commits == w.commits + [Commit(id, post)])
            && w' == w.(commits := w'.commits)
  {
    var w' := HandlePost(w, id, post).0;
    assert forall t: nat :: (id, t) in w'.late ==> LateOk(w, id, t, frontier);
  }

  lemma TurnRevisions<P>(cfg: Config<P>, commits: seq<Commit<P>>, c: Client<P>, e: Event<P>)
    requires RevisionsOk(|commits|, c)
    ensures RevisionsOk(|commits|, Turn(cfg, commits, c, e))
  {
  }

  lemma AssignFrame<P>(cfg: Config<P>, c: Client<P>, r: Refresh<P>)
    ensures var d := Assign(cfg, c, r);
            && d.queue == c.queue && d.nextTicket == c.nextTicket && d.pendingWrites == c.pendingWrites
            && (c.phase.Idle? <==> d.phase.Idle?) && (c.phase.Editing? <==> d.phase.Editing?)
            && (!c.phase.Idle? ==> JobOf(d.phase) == JobOf(c.phase))
            && Settled(d.phase) == Settled(c.phase) && Sent(d.phase) == Sent(c.phase)
            && (!c.phase.Editing? ==> d.phase == c.phase)
  {
  }

  lemma EndQueue<P>(c: Client<P>)
    requires QueueOk(c)
    ensures QueueOk(End(c)) && Frontier(c) <= Frontier(End(c))
  {
  }

  lemma BeginQueue<P>(c: Client<P>)
    requires QueueOk(c)
    ensures QueueOk(Begin(c)) && Frontier(c) <= Frontier(Begin(c))
  {
    if c.phase.Idle? && c.queue != [] {
      var job, rest := c.queue[0], c.queue[1..];
      assert Ascending(rest, job.ticket + 1, c.nextTicket);
    }
  }

  lemma CallQueue<P>(c: Client<P>, change: P -> P)
    requires QueueOk(c)
    ensures QueueOk(Call(c, change)) && Frontier(c) <= Frontier(Call(c, change))
  {
  }

  /** What a turn does to the queue, the tickets and the frontier. */
  lemma {:induction false} TurnQueue<P>(cfg: Config<P>, commits: seq<Commit<P>>, c: Client<P>, e: Event<P>)
    requires QueueOk(c)
    ensures var d := Turn(cfg, commits, c, e);
            QueueOk(d) && Frontier(c) <= Frontier(d)
  {
    hide Assign, Serve, End, Begin, Call, Ascending;
    EndQueue(c);
    match e
    case DoCall(_, change) => CallQueue(c, change);
    case DoBegin(_) => BeginQueue(c);
    case RefetchApplied(_) => if c.phase.Refetching? { AssignFrame(cfg, c, c.phase.refresh); }
    case PollApplied(_, poll) => if poll in c.polls { AssignFrame(cfg, c, c.polls[poll]); }
    case _ =>
  }

  lemma {:induction false} TurnLate<P>(cfg: Config<P>, w: World<P>, c: Client<P>, e: Event<P>)
    requires e.c in w.clients && c == w.clients[e.c] && !e.Deliver? && !e.DeliverLate?
    requires CallsOk(w, e.c, c)
    ensures var w' := Step(cfg, w, e);
            var d := Turn(cfg, w.commits, c, e);
            && w'.commits == w.commits
            && CommittedBelow(w.commits, e.c, Frontier(d))
            && forall t: nat :: (e.c, t) in w'.late ==> LateOk(w', e.c, t, Frontier(d))
  {
    TurnQueue(cfg, w.commits, c, e);
    var w' := Step(cfg, w, e);
    var d := Turn(cfg, w.commits, c, e);
    forall t: nat | (e.c, t) in w'.late ensures LateOk(w', e.c, t, Frontier(d)) {
      if e.GiveUp? && c.phase.Posting? && t == c.phase.post.job.ticket {
        assert d.phase.Answered? && Frontier(d) == t + 1;
      } else {
        hide Turn;
        assert (e.c, t) in w.late && LateOk(w, e.c, t, Frontier(c));
      }
    }
  }

  lemma PostsKeep<P>(w: World<P>, w': World<P>, id: nat, c: Client<P>, d: Client<P>)
    requires PostsOk(w, id, c) && w'.posts == w.posts
    requires d.queue == c.queue && d.nextTicket == c.nextTicket
    requires !d.phase.Idle? && !d.phase.Finishing? ==>
               !c.phase.Idle? && !c.phase.Finishing? && JobOf(d.phase) == JobOf(c.phase) && Sent(d.phase) == Sent(c.phase)
    requires Sent(d.phase) <= Allowance(d.phase)
    ensures PostsOk(w', id, d)
  {
  }

  lemma PostsBegin<P>(w: World<P>, w': World<P>, id: nat, c: Client<P>)
    requires PostsOk(w, id, c) && w'.posts == w.posts
    ensures PostsOk(w', id, Begin(c))
  {
    if c.phase.Idle? && c.queue != [] {
      assert w.posts[(id, c.queue[0].ticket)] == 0;
    }
  }

  lemma PostsSend<P>(cfg: Config<P>, w: World<P>, c: Client<P>, e: Event<P>)
    requires e.c in w.clients && c == w.clients[e.c] && e.DoSend?
    requires QueueOk(c) && PostsOk(w, e.c, c)
    ensures PostsOk(Step(cfg, w, e), e.c, Send(c))
  {
    PostsGrow(cfg, w, c, e);
  }

  /** Any turn but a call, a start and a sending leaves the tickets and the count of requests. */
  lemma TurnFrame<P>(cfg: Config<P>, commits: seq<Commit<P>>, c: Client<P>, e: Event<P>)
    requires !e.DoCall? && !e.DoBegin? && !e.DoSend? && Sent(c.phase) <= Allowance(c.phase)
    ensures var d := Turn(cfg, commits, c, e);
            && d.queue == c.queue && d.nextTicket == c.nextTicket
            && (!d.phase.Idle? && !d.phase.Finishing? ==>
                  !c.phase.Idle? && !c.phase.Finishing? && JobOf(d.phase) == JobOf(c.phase) && Sent(d.phase) == Sent(c.phase))
            && Sent(d.phase) <= Allowance(d.phase)
  {
    hide Assign, Serve;
    match e
    case RefetchApplied(_) => if c.phase.Refetching? { AssignFrame(cfg, c, c.phase.refresh); }
    case PollApplied(_, poll) => if poll in c.polls { AssignFrame(cfg, c, c.polls[poll]); }
    case _ =>
  }

  lemma {:induction false} TurnPosts<P>(cfg: Config<P>, w: World<P>, c: Client<P>, e: Event<P>)
    requires e.c in w.clients && c == w.clients[e.c] && !e.Deliver? && !e.DeliverLate?
    requires QueueOk(c) && PostsOk(w, e.c, c)
    ensures PostsOk(Step(cfg, w, e), e.c, Turn(cfg, w.commits, c, e))
  {
    var w' := Step(cfg, w, e);
    assert Sent(c.phase) <= Allowance(c.phase);
    match e
    case DoCall(_, change) =>
    case DoBegin(_) => PostsBegin(w, w', e.c, c);
    case DoSend(_) => PostsSend(cfg, w, c, e);
    case _ =>
      hide PostsOk, Turn;
      TurnFrame(cfg, w.commits, c, e);
      PostsKeep(w, w', e.c, c, Turn(cfg, w.commits, c, e));
  }

  lemma PostsGrow<P>(cfg: Config<P>, w: World<P>, c: Client<P>, e: Event<P>)
    requires e.c in w.clients && c == w.clients[e.c] && !e.Deliver? && !e.DeliverLate?
    ensures forall key ::
              Step(cfg, w, e).posts[key] ==
              w.posts[key] + (if e.DoSend? && c.phase.Editing? && key == (e.c, JobOf(c.phase).ticket) then 1 else 0)
  {
    hide Turn;
  }

  lemma DeliverKept<P>(cfg: Config<P>, w: World<P>, id: nat)
    requires id in w.clients && w.clients[id].phase.Posting?
    requires InOrder(w.commits) && CallsOk(w, id, w.clients[id])
    ensures var w' := Step(cfg, w, Deliver(id));
            && InOrder(w'.commits) && CallsOk(w', id, w'.clients[id])
            && (w'.commits == w.commits || w'.commits == w.commits + [Commit(id, w.clients[id].phase.post)])
            && w'.late == w.late && w'.posts == w.posts && w'.clients == w.clients[id := w'.clients[id]]
  {
    var c := w.clients[id];
    var post := c.phase.post;
    var t := post.job.ticket;
    assert forall s: nat :: (id, s) in w.late ==> LateOk(w, id, s, t + 1);
    HandleKept(w, id, post, t + 1);
    var w' := Step(cfg, w, Deliver(id));
    var d := w'.clients[id];
    var w1 := HandlePost(w, id, post).0;
    assert forall s: nat :: (id, s) in w'.late ==> LateOk(w1, id, s, t + 1) && LateOk(w, id, s, t);
    hide PostsOk, Ascending;
    PostsKeep(w, w', id, c, d);
  }

  lemma DeliverLateKept<P>(cfg: Config<P>, w: World<P>, id: nat, ticket: nat)
    requires id in w.clients && (id, ticket) in w.late
    requires InOrder(w.commits) && CallsOk(w, id, w.clients[id])
    ensures var w' := Step(cfg, w, DeliverLate(id, ticket));
            && InOrder(w'.commits) && CallsOk(w', id, w.clients[id])
            && (w'.commits == w.commits || w'.commits == w.commits + [Commit(id, w.late[(id, ticket)])])
            && w'.late == w.late - {(id, ticket)} && w'.posts == w.posts && w'.clients == w.clients
  {
    var c := w.clients[id];
    assert LateOk(w, id, ticket, Frontier(c));
    hide PostsOk, QueueOk, Frontier;
    HandleKept(w, id, w.late[(id, ticket)], Frontier(c));
    var w1 := HandlePost(w, id, w.late[(id, ticket)]).0;
    var w' := Step(cfg, w, DeliverLate(id, ticket));
    assert forall s: nat :: (id, s) in w'.late ==> LateOk(w1, id, s, Frontier(c));
    PostsKeep(w, w', id, c, c);
  }

  /** Only client `id` has moved, and at most one commit, its own, has been added. */
  ghost predicate OnlyMoves<P(!new)>(w: World<P>, w': World<P>, id: nat)
  {
    && w'.clients.Keys == w.clients.Keys
    && (w'.commits == w.commits || exists post :: w'.commits == w.commits + [Commit(id, post)])
    && (forall other :: other in w.clients && other != id ==> w'.clients[other] == w.clients[other])
    && (forall key :: key in w'.late && key.0 != id ==> key in w.late && w'.late[key] == w.late[key])
    && (forall key: (nat, nat) :: key.0 != id ==> w'.posts[key] == w.posts[key])
  }

  /** A step by one client leaves what is known of the others. */
  lemma OthersKept<P(!new)>(w: World<P>, w': World<P>, id: nat, other: nat)
    requires OnlyMoves(w, w', id) && other != id
    requires other in w.clients && CallsOk(w, other, w.clients[other])
    ensures other in w'.clients && CallsOk(w', other, w'.clients[other])
  {
    hide QueueOk, Ascending, Frontier;
    var c := w.clients[other];
    assert forall t: nat :: (other, t) in w'.late ==> LateOk(w, other, t, Frontier(c));
  }

  lemma StepOnlyMoves<P(!new)>(cfg: Config<P>, w: World<P>, e: Event<P>)
    requires e.c in w.clients
    ensures OnlyMoves(w, Step(cfg, w, e), e.c)
  {
    hide Turn;
  }

  lemma TurnStep<P>(cfg: Config<P>, w: World<P>, e: Event<P>)
    requires e.c in w.clients && !e.Deliver? && !e.DeliverLate?
    ensures var w' := Step(cfg, w, e);
            w'.commits == w.commits && w'.clients == w.clients[e.c := Turn(cfg, w.commits, w.clients[e.c], e)]
  {
    hide Turn, HandlePost, LateAfter, PostsAfter;
  }

  lemma {:induction false} OwnStepKept<P(!new)>(cfg: Config<P>, w: World<P>, e: Event<P>)
    requires Orderly(w) && e.c in w.clients
    ensures var w' := Step(cfg, w, e);
            InOrder(w'.commits) && e.c in w'.clients && CallsOk(w', e.c, w'.clients[e.c])
  {
    var c := w.clients[e.c];
    hide Turn, CallsOk, InOrder, HandlePost, LateAfter, PostsAfter;
    if e.Deliver? {
      if c.phase.Posting? { DeliverKept(cfg, w, e.c); }
    } else if e.DeliverLate? {
      if (e.c, e.ticket) in w.late { DeliverLateKept(cfg, w, e.c, e.ticket); }
    } else {
      TurnStep(cfg, w, e);
      hide Step;
      OwnTurnKept(cfg, w, c, e);
    }
  }

  /** Every step of every run keeps it, whatever the changes are and wherever refreshes land. */
  lemma {:induction false} StepKeepsOrderly<P(!new)>(cfg: Config<P>, w: World<P>, e: Event<P>)
    requires Orderly(w)
    ensures Orderly(Step(cfg, w, e))
  {
    if e.c in w.clients {
      OwnStepKept(cfg, w, e);
      StepOnlyMoves(cfg, w, e);
      hide Step, CallsOk, InOrder;
      var w' := Step(cfg, w, e);
      assert w'.clients.Keys == w.clients.Keys;
      hide OnlyMoves;
      forall id | id in w.clients && id != e.c ensures id in w'.clients && CallsOk(w', id, w'.clients[id]) {
        OthersKept(w, w', e.c, id);
      }
    }
  }

  lemma {:induction false} OwnTurnKept<P>(cfg: Config<P>, w: World<P>, c: Client<P>, e: Event<P>)
    requires e.c in w.clients && c == w.clients[e.c] && !e.Deliver? && !e.DeliverLate?
    requires CallsOk(w, e.c, c)
    ensures CallsOk(Step(cfg, w, e), e.c, Turn(cfg, w.commits, c, e))
  {
    hide Turn, RevisionsOk, QueueOk, PostsOk, Frontier;
    TurnRevisions(cfg, w.commits, c, e);
    TurnQueue(cfg, w.commits, c, e);
    TurnLate(cfg, w, c, e);
    TurnPosts(cfg, w, c, e);
  }

  lemma {:induction false} RunIsOrderly<P(!new)>(cfg: Config<P>, ids: set<nat>, events: seq<Event<P>>)
    ensures Orderly(Run(cfg, Init(ids), events))
  {
    if events != [] {
      hide Orderly, Step;
      RunIsOrderly(cfg, ids, events[..|events| - 1]);
      StepKeepsOrderly(cfg, Run(cfg, Init(ids), events[..|events| - 1]), events[|events| - 1]);
    }
  }

  /** A call commits at most once, and the commits of one client are in the order of its calls. */
  lemma {:induction false} CommitsOnceInCallOrder<P(!new)>(cfg: Config<P>, ids: set<nat>, events: seq<Event<P>>, i: nat, j: nat)
    requires var commits := Run(cfg, Init(ids), events).commits;
             i < j < |commits| && commits[i].client == commits[j].client
    ensures var commits := Run(cfg, Init(ids), events).commits;
            commits[i].post.job.ticket < commits[j].post.job.ticket
  {
    hide Run, CallsOk;
    RunIsOrderly(cfg, ids, events);
  }

  /** A call sends at most four requests. */
  lemma AtMostFourPosts<P(!new)>(cfg: Config<P>, ids: set<nat>, events: seq<Event<P>>, id: nat, ticket: nat)
    ensures var w := Run(cfg, Init(ids), events); id in w.clients ==> w.posts[(id, ticket)] <= 4
  {
    hide Run, InOrder, QueueOk, LateOk, RevisionsOk, CommittedBelow;
    RunIsOrderly(cfg, ids, events);
    var w := Run(cfg, Init(ids), events);
    assert id in w.clients ==> CallsOk(w, id, w.clients[id]);
  }

  /** The poll guard sees at most the one running call, never the calls that wait behind it. */
  lemma {:induction false} PendingWritesIsZeroOrOne<P(!new)>(cfg: Config<P>, ids: set<nat>, events: seq<Event<P>>, id: nat)
    ensures var w := Run(cfg, Init(ids), events);
            id in w.clients ==> w.clients[id].pendingWrites == (if w.clients[id].phase.Idle? then 0 else 1)
  {
    hide Run, InOrder, LateOk, RevisionsOk, CommittedBelow, PostsOk, Ascending;
    RunIsOrderly(cfg, ids, events);
    var w := Run(cfg, Init(ids), events);
    assert id in w.clients ==> CallsOk(w, id, w.clients[id]);
  }

  // ----- the guard of the poll -----

  /** Every unforced poll of `d` is one of `c`. */
  ghost predicate NoNewPoll<P>(c: Client<P>, d: Client<P>)
  {
    forall poll :: poll in d.polls && !d.polls[poll].force ==> poll in c.polls && !c.polls[poll].force
  }

  lemma TurnStartsNoPoll<P>(cfg: Config<P>, commits: seq<Commit<P>>, c: Client<P>, e: Event<P>)
    requires c.pendingWrites > 0
    ensures NoNewPoll(c, Turn(cfg, commits, c, e))
  {
    hide Check, Assign;
    match e
    case PollChecked(_, poll) =>
    case PollApplied(_, poll) => if poll in c.polls { AssignPolls(cfg, c, c.polls[poll]); }
    case RefetchApplied(_) => if c.phase.Refetching? { AssignPolls(cfg, c, c.phase.refresh); }
    case _ =>
  }

  lemma AssignPolls<P>(cfg: Config<P>, c: Client<P>, r: Refresh<P>)
    ensures Assign(cfg, c, r).polls == c.polls
  {
  }

  lemma {:induction false} StepStartsNoPoll<P(!new)>(cfg: Config<P>, w: World<P>, e: Event<P>, id: nat)
    requires Orderly(w) && id in w.clients && !w.clients[id].phase.Idle?
    ensures id in Step(cfg, w, e).clients && NoNewPoll(w.clients[id], Step(cfg, w, e).clients[id])
  {
    var c := w.clients[id];
    RunningIsPending(w, id);
    hide Turn, Orderly, OnlyMoves;
    if e.c !in w.clients { return; }
    hide Step;
    if e.c == id {
      TurnStartsNoPoll(cfg, w.commits, c, e);
      if !e.Deliver? && !e.DeliverLate? { TurnStep(cfg, w, e); } else { DeliveryKeepsPolls(cfg, w, e); }
    } else {
      StepOnlyMoves(cfg, w, e);
      OthersPolls(w, Step(cfg, w, e), e.c, id);
    }
  }

  lemma RunningIsPending<P>(w: World<P>, id: nat)
    requires Orderly(w) && id in w.clients && !w.clients[id].phase.Idle?
    ensures w.clients[id].pendingWrites == 1
  {
    hide InOrder, RevisionsOk, PostsOk;
    assert CallsOk(w, id, w.clients[id]);
  }

  lemma OthersPolls<P(!new)>(w: World<P>, w': World<P>, id: nat, other: nat)
    requires OnlyMoves(w, w', id) && other != id && other in w.clients
    ensures other in w'.clients && NoNewPoll(w.clients[other], w'.clients[other])
  {
  }

  lemma DeliveryKeepsPolls<P(!new)>(cfg: Config<P>, w: World<P>, e: Event<P>)
    requires e.c in w.clients && (e.Deliver? || e.DeliverLate?)
    ensures e.c in Step(cfg, w, e).clients && NoNewPoll(w.clients[e.c], Step(cfg, w, e).clients[e.c])
  {
  }

  /** While a call of a client runs, none of its unforced polls starts: one that overtakes the call
      was under way when the call began. */
  lemma {:induction false} OvertakingPollIsOlder<P(!new)>(cfg: Config<P>, ids: set<nat>, past: seq<Event<P>>, events: seq<Event<P>>, id: nat)
    requires id in Run(cfg, Init(ids), past).clients
    requires forall k :: 0 <= k < |events| ==>
               var w := Run(cfg, Run(cfg, Init(ids), past), events[..k]); id in w.clients && !w.clients[id].phase.Idle?
    ensures var w := Run(cfg, Init(ids), past);
            id in Run(cfg, w, events).clients && NoNewPoll(w.clients[id], Run(cfg, w, events).clients[id])
  {
    var w := Run(cfg, Init(ids), past);
    if events != [] {
      var n := |events| - 1;
      var before := events[..n];
      hide Step, Orderly;
      forall k | 0 <= k < |before|
        ensures id in Run(cfg, w, before[..k]).clients && !Run(cfg, w, before[..k]).clients[id].phase.Idle?
      {
        assert before[..k] == events[..k];
      }
      OvertakingPollIsOlder(cfg, ids, past, before, id);
      RunIsOrderly(cfg, ids, past);
      RunKeepsOrderly(cfg, w, before);
      assert id in Run(cfg, w, events[..n]).clients && !Run(cfg, w, events[..n]).clients[id].phase.Idle?;
      StepStartsNoPoll(cfg, Run(cfg, w, before), events[n], id);
    }
  }

  lemma {:induction false} RunKeepsOrderly<P(!new)>(cfg: Config<P>, w: World<P>, events: seq<Event<P>>)
    requires Orderly(w)
    ensures Orderly(Run(cfg, w, events))
  {
    if events != [] {
      hide Orderly, Step;
      RunKeepsOrderly(cfg, w, events[..|events| - 1]);
      StepKeepsOrderly(cfg, Run(cfg, w, events[..|events| - 1]), events[|events| - 1]);
    }
  }
}
