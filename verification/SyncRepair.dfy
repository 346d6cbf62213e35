/** When clients hold exactly the server's payloads: if and only if `refresh` never has anything to
    repair. */
module SyncRepair {
  import opened Results
  import opened SyncModel
  import opened SyncRuns
  import opened SyncHistory
  import opened SyncStore

  /** The client's payload, if it has one, is the server's payload at the client's revision. */
  ghost predicate Exact<P>(cfg: Config<P>, ids: set<nat>, events: seq<Event<P>>, id: nat)
  {
    var w := Run(cfg, Init(ids), events);
    id in w.clients && w.clients[id].payload.Some? ==>
      var c := w.clients[id];
      c.revision <= |w.commits| && c.payload.value == PayloadAt(cfg, w.commits, c.revision)
  }

  /** Every change is `f`, or one that makes no repair necessary. */
  ghost predicate Uses<P(!new)>(cfg: Config<P>, f: P -> P, events: seq<Event<P>>)
  {
    forall k :: 0 <= k < |events| && events[k].DoCall? ==> events[k].change == f || Tidy(cfg, events[k].change)
  }

  function Constant<P>(p: P): P -> P
  {
    (q: P) => p
  }

  /** Client 0 writes `p`, client 1 writes `f`, and client 2 unlocks. */
  function Witness<P>(f: P -> P, p: P): seq<Event<P>>
  {
    Unlock(0) + Write(0, Constant(p)) + Unlock(1) + Write(1, f) + Unlock(2)
  }

  lemma WitnessUses<P(!new)>(cfg: Config<P>, f: P -> P, p: P)
    requires cfg.normalize(p) == p
    ensures Uses(cfg, f, Witness(f, p))
  {
    assert Tidy(cfg, Constant(p));
    hide Tidy;
    var events := Witness(f, p);
    forall k | 0 <= k < |events| && events[k].DoCall? ensures events[k].change == f || events[k].change == Constant(p) {
      assert events == Unlock(0) + Write(0, Constant(p)) + Unlock(1) + Write(1, f) + Unlock(2);
      assert k == 4 || k == 12;
    }
  }

  /** The last client then holds the repaired form of what the server stores. */
  lemma WitnessRun<P>(cfg: Config<P>, f: P -> P, p: P)
    requires cfg.normalize(p) == p
    ensures var w := Run(cfg, Init({0, 1, 2}), Witness(f, p));
            && |w.commits| == 2 && PayloadAt(cfg, w.commits, 2) == f(p)
            && 2 in w.clients && w.clients[2].revision == 2 && w.clients[2].payload == Some(cfg.normalize(f(p)))
  {
    hide Run;
    var w0 := Init<P>({0, 1, 2});
    var a, b, c, d, e := Unlock<P>(0), Write(0, Constant(p)), Unlock<P>(1), Write(1, f), Unlock<P>(2);
    RunConcat(cfg, w0, a, b);
    RunConcat(cfg, w0, a + b, c);
    RunConcat(cfg, w0, a + b + c, d);
    RunConcat(cfg, w0, a + b + c + d, e);
    assert Witness(f, p) == a + b + c + d + e;
    hide Unlock, Write;
    UnlockRun(cfg, w0, 0);
    var w1 := Run(cfg, w0, a);
    WriteRun(cfg, w1, 0, Constant(p));
    var w2 := Run(cfg, w1, b);
    UnlockRun(cfg, w2, 1);
    var w3 := Run(cfg, w2, c);
    WriteRun(cfg, w3, 1, f);
    var w4 := Run(cfg, w3, d);
    UnlockRun(cfg, w4, 2);
  }

  lemma WitnessIsExact<P(!new)>(cfg: Config<P>, f: P -> P, p: P)
    requires cfg.normalize(p) == p && Exact(cfg, {0, 1, 2}, Witness(f, p), 2)
    ensures cfg.normalize(f(p)) == f(p)
  {
    hide Run, Witness;
    WitnessRun(cfg, f, p);
  }

  lemma UnlockIsExact<P(!new)>(cfg: Config<P>)
    requires Exact(cfg, {0}, Unlock(0), 0)
    ensures cfg.normalize(cfg.empty) == cfg.empty
  {
    hide Run;
    UnlockRun(cfg, Init<P>({0}), 0);
  }

  /** All clients of all runs that use `f` hold exactly the server's payloads if and only if the empty
      payload needs no repair and `f` never makes one necessary. */
  lemma {:induction false} ExactExactlyWhenTidy<P(!new)>(cfg: Config<P>, f: P -> P)
    ensures (forall ids: set<nat>, events: seq<Event<P>>, id: nat :: Uses(cfg, f, events) ==> Exact(cfg, ids, events, id))
            <==> cfg.normalize(cfg.empty) == cfg.empty && Tidy(cfg, f)
  {
    if cfg.normalize(cfg.empty) == cfg.empty && Tidy(cfg, f) {
      forall ids: set<nat>, events: seq<Event<P>>, id: nat | Uses(cfg, f, events) ensures Exact(cfg, ids, events, id) {
        TidyPairs(cfg, ids, events, id);
      }
    }
    if forall ids: set<nat>, events: seq<Event<P>>, id: nat :: Uses(cfg, f, events) ==> Exact(cfg, ids, events, id) {
      assert Uses(cfg, f, Unlock(0));
      UnlockIsExact(cfg);
      hide Exact;
      forall p | cfg.normalize(p) == p ensures cfg.normalize(f(p)) == f(p) {
        WitnessUses(cfg, f, p);
        WitnessIsExact(cfg, f, p);
      }
    }
  }

  // ----- the dashboard -----

  /** On the payloads of the dashboard: if and only if `f` keeps whole payloads whole. */
  lemma {:induction false} DashboardIsExactlyWhole(f: Payload -> Payload)
    ensures (forall ids: set<nat>, events: seq<Event<Payload>>, id: nat ::
               Uses(DASHBOARD, f, events) ==> Exact(DASHBOARD, ids, events, id))
            <==> KeepsWhole(f)
  {
    NormalizeRepairs(EMPTY);
    TidyIsWhole(f);
    hide Exact, Uses, Tidy, KeepsWhole, Normalize;
    ExactExactlyWhenTidy(DASHBOARD, f);
  }

  function DropHosts(): Payload -> Payload
  {
    (p: Payload) => if p.Some? then Some(p.value.(tables := p.value.tables - {"hosts"})) else None
  }

  /** A client has saved a payload without its table of hosts: the server has none, the next client
      that unlocks holds an empty one at the same revision. */
  lemma RepairIsSeen()
    ensures var w := Run(DASHBOARD, Init({0, 1, 2}), Witness(DropHosts(), EMPTY));
            && 2 in w.clients && w.clients[2].payload.Some? && w.clients[2].revision == 2 == |w.commits|
            && var held, stored := w.clients[2].payload.value, PayloadAt(DASHBOARD, w.commits, 2);
               && held.Some? && stored.Some?
               && "hosts" !in stored.value.tables
               && "hosts" in held.value.tables && held.value.tables["hosts"] == List([])
    ensures !Exact(DASHBOARD, {0, 1, 2}, Witness(DropHosts(), EMPTY), 2)
  {
    NormalizeRepairs(EMPTY);
    hide Run, Witness;
    WitnessRun(DASHBOARD, DropHosts(), EMPTY);
  }
}
