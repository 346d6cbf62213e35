/** store.js and sync.go as the objects they are: the module state of one dashboard client, and the
    server's table of blobs. */
module SyncStore {
  import opened Results
  import opened SyncModel
  import SyncHistory

  // ----- server -----

  const BLOB_LIMIT_BYTES := 6 * 1024 * 1024

  datatype Stored = Stored(revision: nat, blob: Option<string>)

  /** A missing entry stands for revision 0. */
  function Current(blobs: map<string, Stored>, user: string): Stored
  {
    if user in blobs then blobs[user] else Stored(0, None)
  }

  /** `base64.StdEncoding.DecodedLen`. */
  function DecodedLen(n: nat): nat {
    n / 4 * 3
  }

  datatype Request = Request(revision: int, blob: string)

  /** The status the server answers with. */
  function StatusOf(current: Stored, r: Request): nat
  {
    if r.revision < 0 then 400
    else if DecodedLen(|r.blob|) > BLOB_LIMIT_BYTES then 413
    else if r.revision != current.revision then 409
    else 200
  }

  function AfterPost(blobs: map<string, Stored>, user: string, r: Request): map<string, Stored>
  {
    var current := Current(blobs, user);
    if StatusOf(current, r) == 200 then blobs[user := Stored(current.revision + 1, Some(r.blob))] else blobs
  }

  class SyncServer {
    var blobs: map<string, Stored>

    constructor ()
      ensures blobs == map[]
    {
      blobs := map[];
    }

    method HandleGet(user: string) returns (s: Stored)
      ensures s == Current(blobs, user)
    {
      s := if user in blobs then blobs[user] else Stored(0, None);
    }

    method HandlePost(user: string, r: Request) returns (status: nat, revision: nat)
      modifies this
      ensures status == StatusOf(Current(old(blobs), user), r)
      ensures blobs == AfterPost(old(blobs), user, r)
      ensures status == 200 ==> revision == Current(blobs, user).revision
    {
      revision := 0;
      if r.revision < 0 {
        status := 400;
        return;
      }
      if DecodedLen(|r.blob|) > BLOB_LIMIT_BYTES {
        status := 413;
        return;
      }
      var current := HandleGet(user);
      if r.revision != current.revision {
        status := 409;
        return;
      }
      blobs := blobs[user := Stored(current.revision + 1, Some(r.blob))];
      status, revision := 200, current.revision + 1;
    }
  }

  datatype Posted = Posted(user: string, request: Request)

  function AfterAll(blobs: map<string, Stored>, posts: seq<Posted>): map<string, Stored>
  {
    if posts == [] then blobs
    else AfterPost(AfterAll(blobs, posts[..|posts| - 1]), posts[|posts| - 1].user, posts[|posts| - 1].request)
  }

  /** The requests of `user` that were answered with 200, in the order they were handled. */
  function Taken(blobs: map<string, Stored>, posts: seq<Posted>, user: string): seq<Request>
  {
    if posts == [] then []
    else
      var before := posts[..|posts| - 1];
      var last := posts[|posts| - 1];
      Taken(blobs, before, user)
      + if last.user == user && StatusOf(Current(AfterAll(blobs, before), user), last.request) == 200
        then [last.request] else []
  }

  lemma OnePost(blobs: map<string, Stored>, p: Posted, user: string)
    ensures var before, after := Current(blobs, user), Current(AfterPost(blobs, p.user, p.request), user);
            if p.user == user && StatusOf(before, p.request) == 200
            then p.request.revision == before.revision && after == Stored(before.revision + 1, Some(p.request.blob))
            else after == before
  {
  }

  /** Compare-and-set, over any sequence of posts by any users: the accepted requests of a user
      named the revisions `r, r + 1, ...` one after the other, so no two of them the same one; the
      stored revision counts them, and the stored blob is the last of them. */
  lemma {:induction false} AcceptedRevisionsAreConsecutive(blobs: map<string, Stored>, posts: seq<Posted>, user: string)
    ensures var start := Current(blobs, user).revision;
            var taken := Taken(blobs, posts, user);
            var now := Current(AfterAll(blobs, posts), user);
            && (forall k :: 0 <= k < |taken| ==> taken[k].revision == start + k)
            && now.revision == start + |taken|
            && (taken != [] ==> now.blob == Some(taken[|taken| - 1].blob))
            && (taken == [] ==> now == Current(blobs, user))
  {
    if posts != [] {
      hide StatusOf, AfterPost, Current;
      var before, last := posts[..|posts| - 1], posts[|posts| - 1];
      AcceptedRevisionsAreConsecutive(blobs, before, user);
      OnePost(AfterAll(blobs, before), last, user);
      assert AfterAll(blobs, posts) == AfterPost(AfterAll(blobs, before), last.user, last.request);
    }
  }

  // ----- client -----

  class Store<P> {
    const cfg: Config<P>
    var payload: Option<P>
    var revision: nat
    var pendingWrites: nat
    var queue: seq<Job<P>>
    var nextTicket: nat
    var phase: Phase<P>
    var polls: map<nat, Refresh<P>>

    ghost function Contents(): Client<P>
      reads this
    {
      Client(payload, revision, pendingWrites, queue, nextTicket, phase, polls)
    }

    constructor (cfg: Config<P>)
      ensures Contents() == NewClient() && this.cfg == cfg
    {
      this.cfg := cfg;
      payload, revision, pendingWrites, queue, nextTicket, phase, polls := None, 0, 0, [], 0, Idle, map[];
    }

    /** `mutate`: chain the call behind the earlier ones. */
    method Mutate(change: P -> P)
      modifies this
      ensures Contents() == Call(old(Contents()), change)
    {
      queue := queue + [Job(nextTicket, change)];
      nextTicket := nextTicket + 1;
    }

    /** The chained call starts, up to its first `await`. */
    method RunNext()
      requires phase.Idle? && queue != []
      modifies this
      ensures Contents() == Begin(old(Contents()))
    {
      var job := queue[0];
      queue := queue[1..];
      pendingWrites := pendingWrites + 1;
      CloneState(job, 0);
    }

    method CloneState(job: Job<P>, attempt: nat)
      modifies this
      ensures Contents() == Clone(old(Contents()), job, attempt)
    {
      match payload
      case None => EndRun();
      case Some(p) => phase := Editing(job, attempt, p, revision, false);
    }

    method EndRun()
      modifies this
      ensures Contents() == End(old(Contents()))
    {
      pendingWrites := if pendingWrites > 0 then pendingWrites - 1 else 0;
      phase := Idle;
    }

    /** The change has been made and encrypted: read the revision and post. */
    method SendPost()
      requires phase.Editing?
      modifies this
      ensures Contents() == Send(old(Contents())) && phase.Posting? && phase.post.revision == old(revision)
    {
      match phase
      case Editing(job, attempt, base, baseRevision, overtaken) =>
        var next := job.change(base);
        phase := Posting(attempt, Post(job, base, baseRevision, overtaken, next, revision));
    }

    /** The answer to the post, or its failure. */
    method ReceiveReply()
      requires phase.Answered?
      modifies this
      ensures Contents() == Receive(old(Contents()))
    {
      match phase
      case Answered(job, attempt, next, reply) =>
        match reply {
          case Accepted(r) =>
            payload, revision := Some(next), r;
            phase := Finishing(job);
          case Conflict =>
            if attempt < MAX_CONFLICT_RETRIES {
              phase := Refetching(job, attempt, Asked(true));
            } else {
              EndRun();
            }
          case Failed =>
            EndRun();
        }
    }

    /** `refresh` when its answer has arrived: whether to go on with it. */
    method CheckAnswer(id: nat)
      requires id in polls
      modifies this
      ensures Contents() == Turn(cfg, [], old(Contents()), PollChecked(0, id))
    {
      match polls[id]
      case Got(force, revision, blob) =>
        if !force && payload.Some? && revision == this.revision {
          polls := polls - {id};
        } else {
          polls := polls[id := Taken(force, revision, blob)];
        }
      case r => polls := polls[id := r];
    }

    /** `refresh`, once the blob is decrypted. */
    method TakeRefresh(r: Refresh<P>)
      requires !r.Asked?
      modifies this
      ensures Contents() == Assign(cfg, old(Contents()), r)
    {
      var p := if r.blob.Some? then r.blob.value else cfg.empty;
      payload, revision := Some(cfg.normalize(p)), r.revision;
      match phase
      case Editing(job, attempt, base, baseRevision, overtaken) =>
        phase := Editing(job, attempt, base, baseRevision, overtaken || r.revision != baseRevision);
      case _ =>
    }

    /** `refresh` as `unlock` calls it (`force`), and as its timer does: only while no write is running
        and the page is visible. */
    method StartPoll(id: nat, force: bool, visible: bool) returns (started: bool)
      requires id !in polls
      modifies this
      ensures started <==> force || (old(pendingWrites) == 0 && visible)
      ensures Contents() == if force || visible then Turn(cfg, [], old(Contents()), PollStarted(0, id, force)) else old(Contents())
      ensures polls == if started then old(polls)[id := Asked(force)] else old(polls)
    {
      started := force || (pendingWrites == 0 && visible);
      if started {
        polls := polls[id := Asked(force)];
      }
    }
  }

  // ----- what `refresh` repairs -----

  /** A parsed value, as far as `normalize` looks at it: arrays and objects both have the type
      "object". */
  datatype Json = List(rows: seq<string>) | Object(fields: map<string, string>) | Scalar

  /** Anything may be missing or of another type in what another client wrote. */
  datatype Data = Data(tables: map<string, Json>, settings: Option<Json>)

  type Payload = Option<Data>

  const TABLES: seq<string> :=
    ["hosts", "groups", "identities", "knownHosts", "snippets", "sessionLogs", "themes", "tunnels"]

  function TablesOf(tables: map<string, Json>): map<string, Json>
  {
    map t | t in tables.Keys + (set x | x in TABLES) ::
      if t in tables && (t !in TABLES || tables[t].List?) then tables[t] else List([])
  }

  function Normalize(p: Payload): Payload
  {
    var d := if p.Some? then p.value else Data(map[], None);
    Some(Data(TablesOf(d.tables),
              Some(if d.settings.Some? && !d.settings.value.Scalar? then d.settings.value else Object(map[]))))
  }

  ghost predicate Whole(p: Payload)
  {
    && p.Some?
    && (forall t :: t in TABLES ==> t in p.value.tables && p.value.tables[t].List?)
    && p.value.settings.Some? && !p.value.settings.value.Scalar?
  }

  /** The repair makes a payload whole, keeps every row, table and setting that is in order, and
      leaves exactly the whole payloads alone. */
  lemma NormalizeRepairs(p: Payload)
    ensures Whole(Normalize(p))
    ensures p.Some? ==> forall t :: t in p.value.tables && (t in TABLES ==> p.value.tables[t].List?) ==>
              t in Normalize(p).value.tables && Normalize(p).value.tables[t] == p.value.tables[t]
    ensures Normalize(p) == p <==> Whole(p)
  {
    if Whole(p) {
      assert TablesOf(p.value.tables) == p.value.tables;
    }
  }

  const EMPTY: Payload := Some(Data(map t | t in TABLES :: List([]), Some(Object(map[]))))

  /** The protocol on the payloads of the dashboard. */
  const DASHBOARD: Config<Payload> := Config(EMPTY, Normalize)

  /** Runs in which `refresh` has nothing to repair are those whose changes keep whole payloads whole. */
  lemma WholeChangesAreTidy(events: seq<Event<Payload>>)
    ensures SyncHistory.TidyRun(DASHBOARD, events) <==>
            forall k :: 0 <= k < |events| && events[k].DoCall? ==> KeepsWhole(events[k].change)
  {
    NormalizeRepairs(EMPTY);
    forall k | 0 <= k < |events| && events[k].DoCall?
      ensures SyncHistory.Tidy(DASHBOARD, events[k].change) <==> KeepsWhole(events[k].change)
    {
      TidyIsWhole(events[k].change);
    }
    hide SyncHistory.Tidy, KeepsWhole;
    assert forall k :: 0 <= k < |events| ==>
      (SyncHistory.TidyEvent(DASHBOARD, events[k]) <==> (events[k].DoCall? ==> KeepsWhole(events[k].change)));
  }

  ghost predicate KeepsWhole(change: Payload -> Payload)
  {
    forall p :: Whole(p) ==> Whole(change(p))
  }

  lemma TidyIsWhole(change: Payload -> Payload)
    ensures SyncHistory.Tidy(DASHBOARD, change) <==> KeepsWhole(change)
  {
    forall p ensures Normalize(p) == p <==> Whole(p) { NormalizeRepairs(p); }
    hide Normalize, Whole;
    forall p ensures (DASHBOARD.normalize(p) == p ==> DASHBOARD.normalize(change(p)) == change(p))
                     <==> (Whole(p) ==> Whole(change(p)))
    {
      assert Normalize(change(p)) == change(p) <==> Whole(change(p));
    }
  }
}
