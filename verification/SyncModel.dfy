/** The optimistic sync protocol (store.js against sync.go) as interleaved steps, one per turn
    between two `await`s, for one account and any number of dashboard clients. */
module SyncModel {
  import opened Results

  const MAX_CONFLICT_RETRIES := 3

  /** The payload a fresh account starts from, and the repair `refresh` applies to what it decrypts. */
  datatype Config<!P> = Config(empty: P, normalize: P -> P)

  /** One call of `mutate`; tickets number the calls of a client. */
  datatype Job<!P> = Job(ticket: nat, change: P -> P)

  datatype Reply = Accepted(revision: nat) | Conflict | Failed

  /** A refresh in flight. `Asked`: the GET is on its way; `Got`: the answer is on its way; `Taken`:
      its revision was not the client's own, or did not matter, and the blob is being decrypted. */
  datatype Refresh<+P> =
    | Asked(force: bool)
    | Got(force: bool, revision: nat, blob: Option<P>)
    | Taken(force: bool, revision: nat, blob: Option<P>)

  /** A request to replace the blob: `next` is the job's change of `base`, the payload that was
      cloned at `baseRevision`; `overtaken` says that a refresh assigned another revision's state
      between the clone and the reading of `revision`. */
  datatype Post<!P> = Post(job: Job<P>, base: P, baseRevision: nat, overtaken: bool, next: P, revision: nat)

  /** Where a client's running `mutate` call stands. */
  datatype Phase<!P> =
    | Idle
    | Editing(job: Job<P>, attempt: nat, base: P, baseRevision: nat, overtaken: bool)
    | Posting(attempt: nat, post: Post<P>)
    | Answered(job: Job<P>, attempt: nat, next: P, reply: Reply)
    | Finishing(job: Job<P>)
    | Refetching(job: Job<P>, attempt: nat, refresh: Refresh<P>)
    | Refetched(job: Job<P>, attempt: nat)

  /** The running call. */
  function JobOf<P>(phase: Phase<P>): Job<P>
    requires !phase.Idle?
  {
    match phase
    case Editing(job, _, _, _, _) => job
    case Posting(_, post) => post.job
    case Answered(job, _, _, _) => job
    case Finishing(job) => job
    case Refetching(job, _, _) => job
    case Refetched(job, _) => job
  }

  datatype Client<!P> = Client(
    payload: Option<P>,
    revision: nat,
    pendingWrites: nat,
    queue: seq<Job<P>>,
    nextTicket: nat,
    phase: Phase<P>,
    polls: map<nat, Refresh<P>>)

  function NewClient<P>(): Client<P> {
    Client(None, 0, 0, [], 0, Idle, map[])
  }

  // ----- the server -----

  /** Revision `k + 1` is the post at index `k`. */
  datatype Commit<!P> = Commit(client: nat, post: Post<P>)

  /** The server's payload at revision `n`, as a client decrypts it: no blob stands for `empty`. */
  function PayloadAt<P>(cfg: Config<P>, commits: seq<Commit<P>>, n: nat): P
    requires n <= |commits|
  {
    if n == 0 then cfg.empty else commits[n - 1].post.next
  }

  function BlobAt<P>(commits: seq<Commit<P>>): Option<P>
  {
    if commits == [] then None else Some(commits[|commits| - 1].post.next)
  }

  // ----- the turns of one client -----

  /** `clone`: the start of an attempt. Without a payload `next.data` throws and the call ends. */
  function Clone<P>(c: Client<P>, job: Job<P>, attempt: nat): Client<P>
  {
    match c.payload
    case None => End(c)
    case Some(p) => c.(phase := Editing(job, attempt, p, c.revision, false))
  }

  /** The `finally` of `run`. */
  function End<P>(c: Client<P>): Client<P>
  {
    c.(phase := Idle, pendingWrites := if c.pendingWrites > 0 then c.pendingWrites - 1 else 0)
  }

  function Call<P>(c: Client<P>, change: P -> P): Client<P>
  {
    c.(queue := c.queue + [Job(c.nextTicket, change)], nextTicket := c.nextTicket + 1)
  }

  function Begin<P>(c: Client<P>): Client<P>
  {
    if !c.phase.Idle? || c.queue == [] then c
    else Clone(c.(queue := c.queue[1..], pendingWrites := c.pendingWrites + 1), c.queue[0], 0)
  }

  /** The edit and the encryption are done; only now is `state.revision` read for the request. */
  function Send<P>(c: Client<P>): Client<P>
  {
    match c.phase
    case Editing(job, attempt, base, baseRevision, overtaken) =>
      c.(phase := Posting(attempt, Post(job, base, baseRevision, overtaken, job.change(base), c.revision)))
    case _ => c
  }

  /** The edit or the encryption throws. */
  function Abandon<P>(c: Client<P>): Client<P>
  {
    if c.phase.Editing? then End(c) else c
  }

  function Receive<P>(c: Client<P>): Client<P>
  {
    match c.phase
    case Answered(job, _, next, Accepted(r)) => c.(payload := Some(next), revision := r, phase := Finishing(job))
    case Answered(job, attempt, _, Conflict) =>
      if attempt < MAX_CONFLICT_RETRIES then c.(phase := Refetching(job, attempt, Asked(true))) else End(c)
    case Answered(_, _, _, Failed) => End(c)
    case _ => c
  }

  /** The answer of a refresh has arrived: unless forced, it is dropped when the client already has
      that revision. */
  function Check<P>(c: Client<P>, r: Refresh<P>): (next: Option<Refresh<P>>)
    ensures next.Some? ==> next.value.force == r.force && (!r.Asked? ==> !next.value.Asked?)
  {
    match r
    case Got(force, revision, blob) =>
      if !force && c.payload.Some? && revision == c.revision then None else Some(Taken(force, revision, blob))
    case _ => Some(r)
  }

  /** The decrypted answer is taken in: both assignments happen in one turn. */
  function Assign<P>(cfg: Config<P>, c: Client<P>, r: Refresh<P>): Client<P>
  {
    if r.Asked? then c
    else
      var p := if r.blob.Some? then r.blob.value else cfg.empty;
      var phase := match c.phase
                   case Editing(job, attempt, base, baseRevision, overtaken) =>
                     Editing(job, attempt, base, baseRevision, overtaken || r.revision != baseRevision)
                   case other => other;
      c.(payload := Some(cfg.normalize(p)), revision := r.revision, phase := phase)
  }

  function Serve<P>(commits: seq<Commit<P>>, r: Refresh<P>): Refresh<P>
  {
    if r.Asked? then Got(r.force, |commits|, BlobAt(commits)) else r
  }

  // ----- the whole system -----

  /** `late` holds requests whose sender has given up on them and which may still arrive;
      `posts` counts the requests sent for each (client, ticket). */
  datatype World<!P> = World(
    commits: seq<Commit<P>>,
    clients: map<nat, Client<P>>,
    late: map<(nat, nat), Post<P>>,
    posts: multiset<(nat, nat)>)

  datatype Event<!P> =
    | DoCall(c: nat, change: P -> P)
    | DoBegin(c: nat)
    | DoSend(c: nat)
    | DoAbandon(c: nat)
    | Deliver(c: nat)
    | GiveUp(c: nat)
    | DeliverLate(c: nat, ticket: nat)
    | DoReceive(c: nat)
    | RefetchServed(c: nat)
    | RefetchApplied(c: nat)
    | RefetchFailed(c: nat)
    | NextAttempt(c: nat)
    | Finish(c: nat)
    | PollStarted(c: nat, id: nat, force: bool)
    | PollServed(c: nat, id: nat)
    | PollChecked(c: nat, id: nat)
    | PollApplied(c: nat, id: nat)
    | PollFailed(c: nat, id: nat)

  function Init<P>(ids: set<nat>): World<P>
  {
    World([], map c | c in ids :: NewClient(), map[], multiset{})
  }

  function WithClient<P>(w: World<P>, id: nat, c: Client<P>): World<P>
  {
    w.(clients := w.clients[id := c])
  }

  /** The server compares revisions and replaces the blob, under its lock. */
  function HandlePost<P>(w: World<P>, id: nat, post: Post<P>): (World<P>, Reply)
  {
    if post.revision == |w.commits| then
      (w.(commits := w.commits + [Commit(id, post)]), Accepted(post.revision + 1))
    else (w, Conflict)
  }

  /** What one turn does to the client that takes it. */
  function Turn<P>(cfg: Config<P>, commits: seq<Commit<P>>, c: Client<P>, e: Event<P>): Client<P>
  {
    match e
    case DoCall(_, change) => Call(c, change)
    case DoBegin(_) => Begin(c)
    case DoSend(_) => Send(c)
    case DoAbandon(_) => Abandon(c)
    case GiveUp(_) =>
      // the network fails the request or its answer, or the server refuses it for another reason
      (match c.phase
       case Posting(attempt, post) => c.(phase := Answered(post.job, attempt, post.next, Failed))
       case Answered(job, attempt, next, _) => c.(phase := Answered(job, attempt, next, Failed))
       case _ => c)
    case DoReceive(_) => Receive(c)
    case RefetchServed(_) =>
      if c.phase.Refetching? then c.(phase := c.phase.(refresh := Serve(commits, c.phase.refresh))) else c
    case RefetchApplied(_) =>
      if c.phase.Refetching? && c.phase.refresh.Got? then
        Assign(cfg, c, c.phase.refresh).(phase := Refetched(c.phase.job, c.phase.attempt))
      else c
    case RefetchFailed(_) => if c.phase.Refetching? then End(c) else c
    case NextAttempt(_) => if c.phase.Refetched? then Clone(c, c.phase.job, c.phase.attempt + 1) else c
    case Finish(_) => if c.phase.Finishing? then End(c) else c
    case PollStarted(_, poll, force) =>
      if poll in c.polls || !(force || c.pendingWrites == 0) then c else c.(polls := c.polls[poll := Asked(force)])
    case PollServed(_, poll) =>
      if poll in c.polls then c.(polls := c.polls[poll := Serve(commits, c.polls[poll])]) else c
    case PollChecked(_, poll) =>
      if poll !in c.polls then c
      else
        (match Check(c, c.polls[poll])
         case None => c.(polls := c.polls - {poll})
         case Some(r) => c.(polls := c.polls[poll := r]))
    case PollApplied(_, poll) =>
      if poll in c.polls && c.polls[poll].Taken? then Assign(cfg, c, c.polls[poll]).(polls := c.polls - {poll}) else c
    case PollFailed(_, poll) => c.(polls := c.polls - {poll})
    case _ => c
  }

  /** A request that is given up on stays in the network. */
  function LateAfter<P>(w: World<P>, c: Client<P>, e: Event<P>): map<(nat, nat), Post<P>>
  {
    match c.phase
    case Posting(_, post) => if e.GiveUp? then w.late[(e.c, post.job.ticket) := post] else w.late
    case _ => w.late
  }

  function PostsAfter<P>(w: World<P>, c: Client<P>, e: Event<P>): multiset<(nat, nat)>
  {
    match c.phase
    case Editing(job, _, _, _, _) => if e.DoSend? then w.posts + multiset{(e.c, job.ticket)} else w.posts
    case _ => w.posts
  }

  function Step<P>(cfg: Config<P>, w: World<P>, e: Event<P>): World<P>
  {
    if e.c !in w.clients then w
    else
      var c := w.clients[e.c];
      match e
      case Deliver(id) =>
        (match c.phase
         case Posting(attempt, post) =>
           var (w', reply) := HandlePost(w, id, post);
           WithClient(w', id, c.(phase := Answered(post.job, attempt, post.next, reply)))
         case _ => w)
      case DeliverLate(id, ticket) =>
        if (id, ticket) in w.late then HandlePost(w, id, w.late[(id, ticket)]).0.(late := w.late - {(id, ticket)}) else w
      case _ =>
        WithClient(w, e.c, Turn(cfg, w.commits, c, e)).(late := LateAfter(w, c, e), posts := PostsAfter(w, c, e))
  }

  function Run<P>(cfg: Config<P>, w: World<P>, events: seq<Event<P>>): World<P>
  {
    if events == [] then w
    else Step(cfg, Run(cfg, w, events[..|events| - 1]), events[|events| - 1])
  }
}
