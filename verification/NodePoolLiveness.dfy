/** Progress of node pool upgrades: exactly when a cordon pass and a drain pass succeed, and how many
    passes an upgrade without errors takes. */
module NodePoolLiveness {
  import opened Common
  import opened Drainer
  import opened NodePool
  import opened NodePoolRuns

  /** All calls succeed: nothing is being deleted, masters are up to date, evictions are accepted or
      refused. */
  ghost predicate Clean(w: World, env: Env) {
    && GateOpen(w.cfg, env) && env.setup && !env.poolDeleting && !env.clusterDeleting
    && env.instanceView && env.deploymentGet && env.vmssGet.Found? && env.split.Granted? && env.tenant.Granted?
    && env.listNodes && env.autoscalerWrite && env.scaleWrite && env.deleteWrite && env.save.Saved?
    && NodesReachable(env)
  }

  ghost predicate NodesReachable(env: Env) {
    forall id :: Reachable(env.node(id))
  }

  ghost predicate Reachable(api: Api) {
    api.get && api.write.Written? && api.list && forall p :: api.evict(p) != Broken
  }

  // ---------------------------------------------------------------- cordoning

  predicate Distinct(ids: seq<nat>) {
    forall i, j :: 0 <= i < j < |ids| ==> ids[i] != ids[j]
  }

  predicate SomeUnschedulable(ids: seq<nat>, nodes: map<nat, Node>) {
    exists id <- ids :: id in nodes && nodes[id].unschedulable
  }

  lemma {:induction false} CordonAllIff(ids: seq<nat>, nodes: map<nat, Node>, env: Env)
    requires Distinct(ids) && NodesReachable(env)
    ensures var (failed, nodes') := CordonAll(ids, nodes, env);
      && (failed <==> SomeUnschedulable(ids, nodes))
      && (!failed ==> nodes'.Keys == nodes.Keys
                      && forall id <- nodes :: nodes'[id] == if id in ids
                          then nodes[id].(unschedulable := true) else nodes[id])
  {
    if ids != [] {
      var (o, nodes') := CordonSpec(nodes, ids[0], env.node(ids[0]));
      CordonOne(nodes, ids[0], env.node(ids[0]));
      SplitUnschedulable(ids, nodes);
      hide CordonSpec, Reachable, SomeUnschedulable;
      if !o.Fails() {
        CordonAllIff(ids[1..], nodes', env);
        SameUnschedulable(ids[1..], nodes, nodes');
        assert forall id :: id in ids <==> id == ids[0] || id in ids[1..];
      }
    }
  }

  lemma SplitUnschedulable(ids: seq<nat>, nodes: map<nat, Node>)
    requires ids != []
    ensures SomeUnschedulable(ids, nodes) <==>
      (ids[0] in nodes && nodes[ids[0]].unschedulable) || SomeUnschedulable(ids[1..], nodes)
  {
    assert forall id :: id in ids <==> id == ids[0] || id in ids[1..];
  }

  lemma SameUnschedulable(ids: seq<nat>, nodes: map<nat, Node>, nodes': map<nat, Node>)
    requires forall id <- ids :: (id in nodes <==> id in nodes') && (id in nodes ==> nodes[id] == nodes'[id])
    ensures SomeUnschedulable(ids, nodes) <==> SomeUnschedulable(ids, nodes')
  {}

  lemma CordonOne(nodes: map<nat, Node>, id: nat, api: Api)
    requires Reachable(api)
    ensures var (o, nodes') := CordonSpec(nodes, id, api);
      && (o.Fails() <==> id in nodes && nodes[id].unschedulable)
      && nodes' == if id in nodes then nodes[id := nodes[id].(unschedulable := true)] else nodes
  {
    if id in nodes && nodes[id].unschedulable { assert nodes == nodes[id := nodes[id].(unschedulable := true)]; }
  }

  lemma OldIdsDistinct(w: World)
    requires DistinctIds(w.vmss.instances)
    ensures Distinct(OldIds(w))
  {
    SelectIsDistinct(w, w.vmss.instances, true);
    hide Select;
  }

  /** Without API errors, a cordon pass succeeds exactly when no outdated node is unschedulable yet. */
  lemma CordonIff(w: World, env: Env)
    requires WellFormed(w) && !w.cfg.spot && OldIds(w) != [] && Clean(w, env)
    ensures var s := Cordon(w, env);
      && (s.failed <==> SomeUnschedulable(OldIds(w), w.nodes))
      && (!s.failed ==>
            && s.next == DRAIN && s.world == w.(nodes := s.world.nodes, history := s.world.history)
            && s.world.nodes.Keys == w.nodes.Keys
            && forall id <- w.nodes :: s.world.nodes[id] ==
                 if id in OldIds(w) then w.nodes[id].(unschedulable := true) else w.nodes[id])
  {
    OldIdsDistinct(w);
    CordonAllIff(OldIds(w), w.nodes, env);
    hide CordonAll, Select, IsOld, SomeUnschedulable;
  }

  /** A pool in the cordon state with an outdated node that is unschedulable. */
  predicate Stuck(w: World) { !w.cfg.spot && w.State() == CORDON && SomeUnschedulable(OldIds(w), w.nodes) }

  lemma {:induction false} CordonAllFails(ids: seq<nat>, nodes: map<nat, Node>, env: Env)
    requires SomeUnschedulable(ids, nodes)
    ensures CordonAll(ids, nodes, env).0 && SomeUnschedulable(ids, CordonAll(ids, nodes, env).1)
  {
    var id :| id in ids && id in nodes && nodes[id].unschedulable;
    var (o, nodes') := CordonSpec(nodes, ids[0], env.node(ids[0]));
    assert id in nodes' && nodes'[id].unschedulable;
    if !o.Fails() { CordonAllFails(ids[1..], nodes', env); }
  }

  /** Whatever the replies, a stuck pool stays stuck, and deletes nothing. */
  lemma PassStaysStuck(w: World, env: Env)
    requires Stuck(w)
    ensures var w' := EnsureCreated(w, env);
      Stuck(w') && OldIds(w') == OldIds(w) && w'.history.deleted == w.history.deleted
  {
    hide CordonAll, Select, IsOld;
    CordonAllFails(OldIds(w), w.nodes, env);
    CordonCases(w, env);
    var s := Cordon(w, env);
    assert OldIds(w) != [];
    hide OldIds, NewIds, SomeUnschedulable;
    assert s.world.history.deleted == w.history.deleted && (s.failed || s.next == CORDON);
    assert s.world == w || s.world.nodes == CordonAll(OldIds(w), w.nodes, env).1;
    hide Cordon;
    SameClassification(w, s.world);
    hide Uninitialized, ScaleUp, WaitForWorkers, Drain, Terminate;
  }

  /** A step of the environment that does not help a stuck pool: nobody else writes the persisted state, and some
      unschedulable node of an outdated instance stays one. */
  predicate Unhelpful(w: World, w': World) {
    && w'.cfg.spot == w.cfg.spot && w'.annotation == w.annotation && w'.history == w.history
    && (SomeUnschedulable(OldIds(w), w.nodes) ==> SomeUnschedulable(OldIds(w'), w'.nodes))
  }

  /** The calls for a node that is not unschedulable succeed, and cordon it. */
  predicate Answers(nodes: map<nat, Node>, id: nat, env: Env) {
    env.node(id).get && (id in nodes ==> !env.node(id).write.WriteFailed?)
  }

  predicate Cordons(nodes: map<nat, Node>, id: nat, env: Env) {
    id in nodes && env.node(id).get && env.node(id).write.Written?
  }

  /** The loop cordons a node: all calls for earlier nodes succeed, and then those for that one. */
  predicate CordonsSome(ids: seq<nat>, nodes: map<nat, Node>, env: Env) {
    exists i :: 0 <= i < |ids| && Cordons(nodes, ids[i], env) && forall j :: 0 <= j < i ==> Answers(nodes, ids[j], env)
  }

  predicate AllAnswer(ids: seq<nat>, nodes: map<nat, Node>, env: Env) { forall id <- ids :: Answers(nodes, id, env) }

  lemma CordonsSomeStep(ids: seq<nat>, nodes: map<nat, Node>, nodes': map<nat, Node>, env: Env)
    requires ids != [] && nodes'.Keys == nodes.Keys
    ensures CordonsSome(ids, nodes, env) <==>
      Cordons(nodes, ids[0], env) || (Answers(nodes, ids[0], env) && CordonsSome(ids[1..], nodes', env))
    ensures AllAnswer(ids, nodes, env) <==> Answers(nodes, ids[0], env) && AllAnswer(ids[1..], nodes', env)
  {
    assert forall id :: Answers(nodes', id, env) == Answers(nodes, id, env);
    assert forall id :: Cordons(nodes', id, env) == Cordons(nodes, id, env);
    hide Answers, Cordons;
    var rest := ids[1..];
    assert ids == [ids[0]] + rest && forall id :: id in ids <==> id == ids[0] || id in rest;
    if CordonsSome(ids, nodes, env) && !Cordons(nodes, ids[0], env) {
      var i :| 0 <= i < |ids| && Cordons(nodes, ids[i], env) && forall j :: 0 <= j < i ==> Answers(nodes, ids[j], env);
      assert rest[i - 1] == ids[i] && forall j :: 0 <= j < i - 1 ==> rest[j] == ids[j + 1];
    }
    if Answers(nodes, ids[0], env) && CordonsSome(rest, nodes', env) {
      var i :| 0 <= i < |rest| && Cordons(nodes', rest[i], env)
               && forall j :: 0 <= j < i ==> Answers(nodes', rest[j], env);
      assert ids[i + 1] == rest[i] && forall j :: 0 < j < i + 1 ==> ids[j] == rest[j - 1];
    }
  }

  lemma {:induction false} CordonAllFrame(ids: seq<nat>, nodes: map<nat, Node>, env: Env, id: nat)
    requires id !in ids
    ensures var nodes' := CordonAll(ids, nodes, env).1;
      (id in nodes' <==> id in nodes) && (id in nodes ==> nodes'[id] == nodes[id])
  {
    if ids != [] { CordonAllFrame(ids[1..], CordonSpec(nodes, ids[0], env.node(ids[0])).1, env, id); }
  }

  lemma CordonFirst(nodes: map<nat, Node>, id: nat, env: Env)
    requires !(id in nodes && nodes[id].unschedulable)
    ensures var (o, nodes') := CordonSpec(nodes, id, env.node(id));
      && nodes'.Keys == nodes.Keys && (forall j <- nodes :: j != id ==> nodes'[j] == nodes[j])
      && (o.Fails() <==> !Answers(nodes, id, env)) && (Cordons(nodes, id, env) ==> Answers(nodes, id, env))
      && (id in nodes' && nodes'[id].unschedulable <==> Cordons(nodes, id, env))
  {}

  /** What the loop does to nodes of which none is unschedulable, for all replies. */
  lemma {:induction false} CordonAllLoop(ids: seq<nat>, nodes: map<nat, Node>, env: Env)
    requires Distinct(ids) && !SomeUnschedulable(ids, nodes)
    ensures var (failed, nodes') := CordonAll(ids, nodes, env);
      && (failed <==> !AllAnswer(ids, nodes, env))
      && (SomeUnschedulable(ids, nodes') <==> CordonsSome(ids, nodes, env))
  {
    if ids != [] {
      var id, rest := ids[0], ids[1..];
      var (o, nodes1) := CordonSpec(nodes, id, env.node(id));
      var nodes' := CordonAll(ids, nodes, env).1;
      SplitUnschedulable(ids, nodes);
      SplitUnschedulable(ids, nodes');
      CordonFirst(nodes, id, env);
      CordonsSomeStep(ids, nodes, nodes1, env);
      assert id !in rest;
      SameUnschedulable(rest, nodes, nodes1);
      hide CordonSpec, SomeUnschedulable, CordonsSome, AllAnswer, Answers, Cordons;
      if !o.Fails() {
        CordonAllLoop(rest, nodes1, env);
        CordonAllFrame(rest, nodes1, env, id);
      }
    }
  }

  /** The pass comes to the loop over the nodes. */
  predicate LoopReached(w: World, env: Env) {
    GateOpen(w.cfg, env) && env.setup && !env.clusterDeleting && env.split.Granted? && env.tenant.Granted?
  }

  /** Exactly when a pass in the cordon state leaves it blocked: an outdated node was unschedulable before, or the pass
      cordons one, and then a call for a later one fails or the next state is not saved. */
  predicate Sticks(w: World, env: Env) {
    || SomeUnschedulable(OldIds(w), w.nodes)
    || (&& LoopReached(w, env) && CordonsSome(OldIds(w), w.nodes, env)
        && !(AllAnswer(OldIds(w), w.nodes, env) && env.save.Saved?))
  }

  lemma CordonReaches(w: World, env: Env)
    requires !w.cfg.spot && w.State() == CORDON
    ensures var s := Cordon(w, env); var w' := EnsureCreated(w, env);
      if LoopReached(w, env) && OldIds(w) != [] then
        var (failed, nodes) := CordonAll(OldIds(w), w.nodes, env);
        w'.nodes == nodes && (w'.State() == CORDON <==> failed || !env.save.Saved?)
      else w'.nodes == w.nodes
  {
    hide CordonAll, Select, IsOld, OldIds, NewIds, Uninitialized, ScaleUp, WaitForWorkers, Drain, Terminate;
  }

  lemma SticksIff(w: World, env: Env)
    requires DistinctIds(w.vmss.instances) && !w.cfg.spot && w.State() == CORDON
    ensures Stuck(EnsureCreated(w, env)) <==> Sticks(w, env)
  {
    if SomeUnschedulable(OldIds(w), w.nodes) {
      PassStaysStuck(w, env);
    } else {
      OldIdsDistinct(w);
      CordonAllLoop(OldIds(w), w.nodes, env);
      CordonReaches(w, env);
      CordonKeepsClassification(w, env);
      hide CordonAll, OldIds, SomeUnschedulable, AllAnswer, LoopReached, EnsureCreated;
    }
  }

  lemma CordonKeepsClassification(w: World, env: Env)
    requires w.State() == CORDON
    ensures var w' := EnsureCreated(w, env); w'.cfg == w.cfg && OldIds(w') == OldIds(w)
  {
    PassCases(w, env);
    CordonCases(w, env);
    var s, w' := Cordon(w, env), EnsureCreated(w, env);
    hide EnsureCreated, Uninitialized, ScaleUp, WaitForWorkers, Cordon, Drain, Terminate, OldIds;
    SameVersionsReflexive(w.nodes);
    SameClassification(w, w');
  }

  /** A pass that leaves the pool stuck blocks the upgrade: in every run after it, with any replies, the pool stays in
      the cordon state and deletes nothing, until the environment uncordons, removes or reclassifies the last
      unschedulable node of an outdated instance. */
  lemma {:induction false} CordonConflictBlocks(w: World, env: Env, tr: seq<World>)
    requires DistinctIds(w.vmss.instances) && !w.cfg.spot && w.State() == CORDON
    requires |tr| > 0 && tr[0] == EnsureCreated(w, env)
    requires forall i :: 0 <= i < |tr| - 1 ==> Pass(tr[i], tr[i + 1]) || Unhelpful(tr[i], tr[i + 1])
    ensures Stuck(tr[0]) <==> Sticks(w, env)
    ensures Stuck(tr[0]) ==> forall i :: 0 <= i < |tr| ==>
        Stuck(tr[i]) && tr[i].history.deleted == tr[0].history.deleted
  {
    SticksIff(w, env);
    hide Stuck, EnsureCreated, Sticks;
    if Stuck(tr[0]) {
      for n := 1 to |tr|
        invariant forall i :: 0 <= i < n ==> Stuck(tr[i]) && tr[i].history.deleted == tr[0].history.deleted
      {
        if Pass(tr[n - 1], tr[n - 1 + 1]) {
          var env' :| tr[n] == EnsureCreated(tr[n - 1], env');
          PassStaysStuck(tr[n - 1], env');
        } else {
          UnhelpfulStaysStuck(tr[n - 1], tr[n]);
        }
      }
    }
  }

  lemma UnhelpfulStaysStuck(w: World, w': World)
    requires Stuck(w) && Unhelpful(w, w')
    ensures Stuck(w') && w'.history.deleted == w.history.deleted
  {
    hide SomeUnschedulable, OldIds;
  }

  // ---------------------------------------------------------------- draining

  function Stamped(n: Node, now: int): Node {
    if n.stamp.Started? then n else n.(stamp := Started(now / SECOND))
  }

  lemma DrainOne(nodes: map<nat, Node>, id: nat, now: int, api: Api)
    requires Reachable(api)
    ensures var (v, nodes', _) := DrainSpec(nodes, id, DRAIN_TIMEOUT, now, api);
      && !v.Failed? && (v.InProgress? <==> !DoneDraining(nodes, id, now))
      && nodes' == (if id in nodes then nodes[id := Stamped(nodes[id], now)] else nodes)
      && (forall j :: DoneDraining(nodes', j, now) == DoneDraining(nodes, j, now))
  {
    if id in nodes {
      EvictionDiscipline(nodes[id].pods, api);
      assert !Breaks(Targets(nodes[id].pods), api.evict);
      hide Targets, Exempt;
      assert now - now / SECOND * SECOND < SECOND;
    }
  }

  lemma {:induction false} DrainAllIff(ids: seq<nat>, d: Draining, now: int, env: Env)
    requires !d.failed && NodesReachable(env)
    ensures var r := DrainAll(ids, d, now, env);
      && !r.failed && (r.completed <==> d.completed && forall id <- ids :: DoneDraining(d.nodes, id, now))
      && r.nodes.Keys == d.nodes.Keys
      && (forall id <- d.nodes :: r.nodes[id] == if id in ids then Stamped(d.nodes[id], now) else d.nodes[id])
  {
    if ids != [] {
      assert Reachable(env.node(ids[0]));
      DrainOne(d.nodes, ids[0], now, env.node(ids[0]));
      var (v, nodes, sent) := DrainSpec(d.nodes, ids[0], DRAIN_TIMEOUT, now, env.node(ids[0]));
      var d' := Draining(v.Failed?, d.completed && !v.InProgress?, nodes, d.evictions + sent);
      DrainAllIff(ids[1..], d', now, env);
      hide DoneDraining, DrainSpec;
      assert forall id :: id in ids <==> id == ids[0] || id in ids[1..];
    }
  }

  /** Without API errors, the drain state is left exactly in a pass that finds every outdated node gone,
      without evictable pods, or past its time limit; every other outdated node has a start time then. */
  lemma DrainIff(w: World, env: Env)
    requires !w.cfg.spot && OldIds(w) != [] && Clean(w, env)
    ensures var s := Drain(w, env);
      && !s.failed
      && s.next == (if forall id <- OldIds(w) :: DoneDraining(w.nodes, id, w.now) then TERMINATE else w.State())
      && s.world == w.(nodes := s.world.nodes, history := s.world.history, evictions := s.world.evictions)
      && s.world.nodes.Keys == w.nodes.Keys
      && forall id <- w.nodes :: s.world.nodes[id] == if id in OldIds(w)
          then Stamped(w.nodes[id], w.now) else w.nodes[id]
  {
    DrainAllIff(OldIds(w), Draining(false, true, w.nodes, w.evictions), w.now, env);
    hide DrainAll, DoneDraining, Stamped, Select, IsOld;
  }

  // ---------------------------------------------------------------- a whole upgrade

  /** What the world is like when a pass starts: the deployment and all instances have succeeded and
      some worker is ready. */
  predicate Healthy(w: World) {
    && !w.cfg.spot && w.deployment == Some("Succeeded") && w.vmss.operatorTag == Some(w.cfg.version)
    && (forall i <- w.vmss.instances :: i.provisioning == "Succeeded")
    && exists id <- w.nodes :: ReadyWorker(w.nodes[id])
  }

  /** Between two passes at least a second goes by, and nobody else cordons, drains or registers nodes
      of outdated instances. */
  predicate Between(w: World, w': World) {
    && Quiet(w, w') && w'.history == w.history && w'.now >= w.now + SECOND
    && forall id <- OldIds(w) :: id in w'.nodes ==>
         id in w.nodes && w'.nodes[id].unschedulable == w.nodes[id].unschedulable
             && w'.nodes[id].stamp == w.nodes[id].stamp
  }

  ghost predicate Round(w: World, w': World) {
    exists m, env :: Between(w, m) && Healthy(m) && Clean(m, env) && w' == EnsureCreated(m, env)
  }

  ghost predicate Rounds(tr: seq<World>) {
    forall i :: 0 <= i < |tr| - 1 ==> Round(tr[i], tr[i + 1])
  }

  function Min(a: int, b: int): int { if a < b then a else b }

  /** No outdated node is cordoned; no drain of one started in the future. */
  predicate Untouched(w: World) {
    && !SomeUnschedulable(OldIds(w), w.nodes)
    && forall id <- OldIds(w) :: id in w.nodes && w.nodes[id].stamp.Started? ==>
        w.nodes[id].stamp.seconds * SECOND <= w.now
  }

  /** A pass without errors saves what the handler returns. */
  lemma CleanPass(w: World, env: Env)
    requires Known(w.State()) && Clean(w, env) && !Transition(w, env).failed
    ensures var s := Transition(w, env);
      EnsureCreated(w, env) == if s.next == w.State() then s.world else s.world.(annotation := Some(s.next))
  {
    hide Transition;
  }

  lemma ScaleUpPass(m: World, env: Env)
    requires WellFormed(m) && m.State() == SCALE_UP && OldIds(m) != [] && Healthy(m) && Clean(m, env)
    ensures var w' := EnsureCreated(m, env); var k, t := |OldIds(m)|, |m.vmss.instances|;
      && WellFormed(w') && OldIds(w') == OldIds(m) && w'.nodes == m.nodes && w'.now == m.now
      && w'.State() == (if t < 2 * k then SCALE_UP else WAIT_READY)
      && |w'.vmss.instances| == (if t < 2 * k then Min(t + SAFE_THRESHOLD, 2 * k) else t)
      && w'.history.scalings == m.history.scalings + if t < 2 * k then 1 else 0
  {
    ScaleUpClean(m, env);
    CleanPass(m, env);
    hide ScaleUp, EnsureCreated, Transition, OldIds, NewIds, SetCapacity, WellFormed, Clean, Healthy;
    if |m.vmss.instances| < 2 * |OldIds(m)| {
      ScaledKeeps(m, ScaleUp(m, env).world.history);
    } else {
      Restage(m, WAIT_READY);
    }
  }

  lemma StaysUntouched(w: World, m: World, w': World)
    requires Untouched(w) && Between(w, m) && OldIds(w') == OldIds(m) && w'.nodes == m.nodes && w'.now == m.now
    ensures Untouched(m) && Untouched(w')
  {
    hide OldIds, NewIds, WellFormed;
  }

  lemma ScaleUpRound(w: World, w': World)
    requires WellFormed(w) && w.State() == SCALE_UP && OldIds(w) != [] && Untouched(w)
    requires Round(w, w')
    ensures WellFormed(w') && OldIds(w') == OldIds(w) && Untouched(w') && w'.now >= w.now + SECOND
    ensures var k, t := |OldIds(w)|, |w.vmss.instances|;
      && w'.State() == (if t < 2 * k then SCALE_UP else WAIT_READY)
      && |w'.vmss.instances| == (if t < 2 * k then Min(t + SAFE_THRESHOLD, 2 * k) else t)
      && w'.history.scalings == w.history.scalings + if t < 2 * k then 1 else 0
  {
    var m, env :| Between(w, m) && Healthy(m) && Clean(m, env) && w' == EnsureCreated(m, env);
    hide Round, EnsureCreated, OldIds, NewIds, WellFormed, Clean, Healthy, Untouched;
    BetweenKeeps(w, m);
    ScaleUpPass(m, env);
    StaysUntouched(w, m, w');
    hide Between;
  }

  lemma BetweenKeeps(w: World, m: World)
    requires Between(w, m)
    ensures WellFormed(m) && OldIds(m) == OldIds(w) && |m.vmss.instances| == |w.vmss.instances|
        && m.State() == w.State()
    ensures m.now >= w.now + SECOND && m.history == w.history
  {
    hide OldIds, NewIds, WellFormed;
    IdsCount(w);
    IdsCount(m);
  }

  lemma ScaleUpClean(m: World, env: Env)
    requires WellFormed(m) && m.State() == SCALE_UP && OldIds(m) != [] && Healthy(m) && Clean(m, env)
    ensures var s := ScaleUp(m, env); var k := |OldIds(m)|; var off := m.vmss.(autoscaler := false);
      && !s.failed
      && (if |m.vmss.instances| < 2 * k then
            && s.next == SCALE_UP && |s.world.vmss.instances| == Min(|m.vmss.instances| + SAFE_THRESHOLD, 2 * k)
            && s.world == m.(vmss := SetCapacity(off, GetNodeCount(off.capacity, 2 * k)),
                             history := m.history.(scalings := m.history.scalings + 1))
          else s.next == WAIT_READY && s.world == m)
  {
    hide Select, IsOld, NodesReachable;
  }

  lemma WaitRound(w: World, w': World)
    requires WellFormed(w) && w.State() == WAIT_READY && Untouched(w)
    requires Round(w, w')
    ensures WellFormed(w') && OldIds(w') == OldIds(w) && Untouched(w')
    ensures w'.State() == CORDON && w'.history == w.history && w'.now >= w.now + SECOND
  {
    var m, env :| Between(w, m) && Healthy(m) && Clean(m, env) && w' == EnsureCreated(m, env);
    hide Round, EnsureCreated, OldIds, NewIds, WellFormed, Clean, Healthy, Untouched;
    BetweenKeeps(w, m);
    WaitPass(m, env);
    StaysUntouched(w, m, w');
    hide Between;
  }

  lemma WaitPass(m: World, env: Env)
    requires WellFormed(m) && m.State() == WAIT_READY && Healthy(m) && Clean(m, env)
    ensures var w' := EnsureCreated(m, env);
      && WellFormed(w') && OldIds(w') == OldIds(m) && w'.State() == CORDON
      && w'.nodes == m.nodes && w'.history == m.history && w'.now == m.now
  {
    hide OldIds, NewIds, WellFormed, NodesReachable, ScaleUp, Uninitialized, Cordon, Drain, Terminate;
    assert !WaitForWorkers(m, env).failed && WaitForWorkers(m, env).next == CORDON && WaitForWorkers(m, env).world == m;
    CleanPass(m, env);
    Restage(m, CORDON);
    hide EnsureCreated, Transition, WaitForWorkers, Clean, Healthy;
  }

  lemma CordonRound(w: World, w': World)
    requires WellFormed(w) && w.State() == CORDON && OldIds(w) != [] && Untouched(w)
    requires Round(w, w')
    ensures WellFormed(w') && OldIds(w') == OldIds(w) && !w'.cfg.spot
    ensures w'.State() == DRAIN && w'.now >= w.now + SECOND && w'.history.scalings == w.history.scalings
        && NoFutureStart(w', w'.now)
  {
    var m, env :| Between(w, m) && Healthy(m) && Clean(m, env) && w' == EnsureCreated(m, env);
    var s := Cordon(m, env);
    assert !SomeUnschedulable(OldIds(m), m.nodes);
    CordonIff(m, env);
    CordonCases(m, env);
    CordonScalings(m, env);
    CleanPass(m, env);
    hide EnsureCreated, Transition, Cordon, OldIds, NewIds, WellFormed, Clean, Healthy, SomeUnschedulable;
    SameInstancesSameIds(m, s.world);
    Restage(s.world, DRAIN);
  }

  lemma CordonScalings(m: World, env: Env)
    ensures Cordon(m, env).world.history.scalings == m.history.scalings
    ensures Drain(m, env).world.history.scalings == m.history.scalings
  {
    hide CordonAll, DrainAll, Select, IsOld;
  }

  predicate NoFutureStart(w: World, t: int) {
    forall id <- OldIds(w) :: id in w.nodes && w.nodes[id].stamp.Started? ==> w.nodes[id].stamp.seconds * SECOND <= t
  }

  predicate AllStarted(w: World) {
    forall id <- OldIds(w) :: id in w.nodes ==> w.nodes[id].stamp.Started?
  }

  lemma DrainPass(m: World, env: Env, t: int)
    requires WellFormed(m) && m.State() == DRAIN && OldIds(m) != [] && !m.cfg.spot && Clean(m, env)
        && NoFutureStart(m, t)
    ensures var w' := EnsureCreated(m, env);
      && WellFormed(w') && OldIds(w') == OldIds(m) && w'.now == m.now && AllStarted(w') && w'.cfg == m.cfg
      && (w'.State() == DRAIN || w'.State() == TERMINATE) && w'.history.scalings == m.history.scalings
      && NoFutureStart(w', if AllStarted(m) then t else Max(t, m.now))
      && (AllStarted(m) && m.now - t > DRAIN_TIMEOUT ==> w'.State() == TERMINATE)
  {
    var s := Drain(m, env);
    DrainIff(m, env);
    DrainCases(m, env);
    CordonScalings(m, env);
    CleanPass(m, env);
    hide EnsureCreated, Transition, Drain, OldIds, NewIds, WellFormed, Clean;
    SameInstancesSameIds(m, s.world);
    Restage(s.world, s.next);
    assert m.now / SECOND * SECOND <= m.now;
  }

  lemma DrainRound(w: World, w': World, t: int)
    requires WellFormed(w) && w.State() == DRAIN && OldIds(w) != [] && NoFutureStart(w, t)
    requires Round(w, w')
    ensures WellFormed(w') && OldIds(w') == OldIds(w) && w'.now >= w.now + SECOND && AllStarted(w') && !w'.cfg.spot
    ensures w'.State() == DRAIN || w'.State() == TERMINATE
    ensures w'.history.scalings == w.history.scalings
    ensures NoFutureStart(w', if AllStarted(w) then t else Max(t, w'.now))
    ensures AllStarted(w) && w.now + SECOND - t > DRAIN_TIMEOUT ==> w'.State() == TERMINATE
  {
    var m, env :| Between(w, m) && Healthy(m) && Clean(m, env) && w' == EnsureCreated(m, env);
    hide EnsureCreated, OldIds, NewIds, WellFormed, Clean;
    DrainPass(m, env, t);
    Later(w', if AllStarted(m) then t else Max(t, m.now), if AllStarted(w) then t else Max(t, w'.now));
  }

  lemma TerminateRound(w: World, w': World)
    requires WellFormed(w) && w.State() == TERMINATE
    requires Round(w, w')
    ensures WellFormed(w') && OldIds(w') == [] && NewIds(w') == NewIds(w) && w'.now >= w.now + SECOND
    ensures w'.State() == if OldIds(w) != [] then TERMINATE else UNINITIALIZED
    ensures OldIds(w) == [] ==> w'.vmss.autoscaler
  {
    var m, env :| Between(w, m) && Healthy(m) && Clean(m, env) && w' == EnsureCreated(m, env);
    var s := Terminate(m, env);
    TerminateClean(m, env);
    CleanPass(m, env);
    hide EnsureCreated, Transition, Terminate, OldIds, NewIds, WellFormed, Clean, Healthy, DeleteInstances;
    if OldIds(m) != [] {
      DeletedEffect(m, m.nodes, s.world.history, env);
    } else {
      SameInstancesSameIds(m, s.world);
      Restage(s.world, UNINITIALIZED);
    }
  }

  lemma TerminateClean(m: World, env: Env)
    requires m.State() == TERMINATE && !m.cfg.spot && Clean(m, env)
    ensures var s := Terminate(m, env);
      && !s.failed
      && (if OldIds(m) != [] then
            && s.next == TERMINATE
            && s.world == m.(vmss := DeleteInstances(m.vmss, OldIds(m)), nodes := m.nodes, history := s.world.history)
          else s.next == UNINITIALIZED && s.world == m.(vmss := m.vmss.(autoscaler := true)))
  {
    hide Select, IsOld, DeleteInstances, NodesReachable;
  }

  /** Number of scaling passes: the missing instances in steps of five. */
  function ScalingPasses(k: nat, n: nat): nat {
    (Max(0, 2 * k - n) + SAFE_THRESHOLD - 1) / SAFE_THRESHOLD
  }

  lemma ScalingPassesSuffice(k: nat, n: nat)
    ensures var d := ScalingPasses(k, n);
      && Min(n + SAFE_THRESHOLD * d, Max(n, 2 * k)) >= 2 * k
      && (d > 0 ==> n + SAFE_THRESHOLD * (d - 1) < 2 * k)
  {}

  predicate Start(w: World) {
    WellFormed(w) && w.State() == SCALE_UP && OldIds(w) != [] && Untouched(w)
  }

  /** The staircase: after i passes the scale set has min(n + 5i, max(n, 2k)) instances. */
  lemma {:induction false} Staircase(tr: seq<World>, i: nat)
    requires Rounds(tr) && 0 < |tr| && Start(tr[0])
    requires i <= ScalingPasses(|OldIds(tr[0])|, |tr[0].vmss.instances|) && i < |tr|
    ensures var k, n := |OldIds(tr[0])|, |tr[0].vmss.instances|;
      && Start(tr[i]) && OldIds(tr[i]) == OldIds(tr[0])
      && |tr[i].vmss.instances| == Min(n + SAFE_THRESHOLD * i, Max(n, 2 * k))
      && tr[i].history.scalings == tr[0].history.scalings + i
  {
    if i > 0 {
      Staircase(tr, i - 1);
      hide Round, Untouched, WellFormed, OldIds, NewIds;
      ScaleUpRound(tr[i - 1], tr[i]);
    }
  }

  predicate Draining1(w: World, t: int) {
    WellFormed(w) && w.State() == DRAIN && OldIds(w) != [] && AllStarted(w) && NoFutureStart(w, t)
  }

  /** A drain whose nodes all have a start time no later than t is over as soon as the time limit is. */
  lemma {:induction false} DrainEnds(tr: seq<World>, i: nat, t: int, b: nat) returns (j: nat)
    requires Rounds(tr) && i + b + 1 < |tr| && Draining1(tr[i], t)
    requires tr[i].now + (b + 1) * SECOND - t > DRAIN_TIMEOUT
    ensures i < j <= i + b + 1
    ensures forall e :: i <= e < j ==> tr[e].State() == DRAIN
    ensures WellFormed(tr[j]) && tr[j].State() == TERMINATE && OldIds(tr[j]) == OldIds(tr[i])
    decreases b
  {
    hide Round, NoFutureStart, AllStarted, WellFormed, OldIds, NewIds;
    DrainRound(tr[i], tr[i + 1], t);
    if tr[i + 1].State() == TERMINATE {
      j := i + 1;
    } else {
      j := DrainEnds(tr, i + 1, t, b - 1);
    }
  }

  const DRAIN_PASSES := 902

  /** The end of an upgrade: from the drain state on, at most 902 passes to the terminate state and two
      more to the initial state, with no outdated instance left. */
  lemma Finish(tr: seq<World>, i: nat) returns (j: nat)
    requires Rounds(tr) && i + DRAIN_PASSES + 2 < |tr|
    requires WellFormed(tr[i]) && tr[i].State() == DRAIN && OldIds(tr[i]) != [] && NoFutureStart(tr[i], tr[i].now)
    ensures i < j <= i + DRAIN_PASSES
    ensures forall e :: i <= e < j ==> tr[e].State() == DRAIN
    ensures tr[j].State() == TERMINATE && OldIds(tr[j]) == OldIds(tr[i])
    ensures tr[j + 1].State() == TERMINATE && OldIds(tr[j + 1]) == []
    ensures tr[j + 2].State() == UNINITIALIZED && OldIds(tr[j + 2]) == [] && tr[j + 2].vmss.autoscaler
  {
    hide Round, NoFutureStart, AllStarted, WellFormed, OldIds, NewIds;
    DrainRound(tr[i], tr[i + 1], tr[i].now);
    if tr[i + 1].State() == TERMINATE {
      j := i + 1;
    } else {
      Later(tr[i + 1], if AllStarted(tr[i]) then tr[i].now else Max(tr[i].now, tr[i + 1].now), tr[i + 1].now);
      j := DrainEnds(tr, i + 1, tr[i + 1].now, 900);
    }
    Ending(tr, j);
  }

  lemma Later(w: World, t: int, t': int)
    requires NoFutureStart(w, t) && t <= t'
    ensures NoFutureStart(w, t')
  {}

  lemma Ending(tr: seq<World>, j: nat)
    requires Rounds(tr) && j + 2 < |tr| && WellFormed(tr[j]) && tr[j].State() == TERMINATE && OldIds(tr[j]) != []
    ensures tr[j + 1].State() == TERMINATE && OldIds(tr[j + 1]) == []
    ensures tr[j + 2].State() == UNINITIALIZED && OldIds(tr[j + 2]) == [] && tr[j + 2].vmss.autoscaler
  {
    hide Round, WellFormed, OldIds, NewIds;
    TerminateRound(tr[j], tr[j + 1]);
    TerminateRound(tr[j + 1], tr[j + 2]);
  }

  lemma StraightToDrain(tr: seq<World>, d: nat)
    requires Rounds(tr) && d + 3 < |tr| && Start(tr[d]) && 2 * |OldIds(tr[d])| <= |tr[d].vmss.instances|
    ensures tr[d + 1].State() == WAIT_READY && tr[d + 2].State() == CORDON && tr[d + 3].State() == DRAIN
    ensures WellFormed(tr[d + 3]) && OldIds(tr[d + 3]) == OldIds(tr[d]) && NoFutureStart(tr[d + 3], tr[d + 3].now)
    ensures tr[d + 3].history.scalings == tr[d].history.scalings
  {
    hide Round, NoFutureStart, Untouched, WellFormed, OldIds, NewIds;
    ScaleUpRound(tr[d], tr[d + 1]);
    WaitRound(tr[d + 1], tr[d + 2]);
    CordonRound(tr[d + 2], tr[d + 3]);
  }

  /** Main result on progress. Without errors, an upgrade of k outdated instances out of n takes exactly
      ceil(max(0, 2k - n) / 5) scaling passes, then waits, cordons, drains for at most 902 passes a
      second or more apart, terminates in two passes, and ends in the initial state with no outdated
      instance left. */
  lemma UpgradeTerminates(tr: seq<World>) returns (j: nat)
    requires Rounds(tr) && 0 < |tr| && Start(tr[0])
    requires |tr| > ScalingPasses(|OldIds(tr[0])|, |tr[0].vmss.instances|) + 3 + DRAIN_PASSES + 2
    ensures var d := ScalingPasses(|OldIds(tr[0])|, |tr[0].vmss.instances|);
      && OnStairs(tr, d)
      && tr[d + 1].State() == WAIT_READY && tr[d + 2].State() == CORDON
      && tr[d + 3].history.scalings == tr[0].history.scalings + d
      && d + 3 < j <= d + 3 + DRAIN_PASSES
      && (forall i :: d + 3 <= i < j ==> tr[i].State() == DRAIN)
      && tr[j].State() == TERMINATE && tr[j + 1].State() == TERMINATE
      && tr[j + 2].State() == UNINITIALIZED && OldIds(tr[j + 2]) == [] && tr[j + 2].vmss.autoscaler
  {
    hide OnStairs, Rounds, ScalingPasses, Start, OldIds;
    ClimbStairs(tr);
    var d := TopOfStairs(tr);
    j := Descent(tr, d);
  }

  lemma TopOfStairs(tr: seq<World>) returns (d: nat)
    requires Rounds(tr) && 0 < |tr| && Start(tr[0])
    requires ScalingPasses(|OldIds(tr[0])|, |tr[0].vmss.instances|) < |tr|
    ensures d == ScalingPasses(|OldIds(tr[0])|, |tr[0].vmss.instances|)
    ensures Start(tr[d]) && OldIds(tr[d]) == OldIds(tr[0]) && 2 * |OldIds(tr[d])| <= |tr[d].vmss.instances|
    ensures tr[d].history.scalings == tr[0].history.scalings + d
  {
    var k, n := |OldIds(tr[0])|, |tr[0].vmss.instances|;
    d := ScalingPasses(k, n);
    ScalingPassesSuffice(k, n);
    hide Rounds, Start, OldIds, ScalingPasses;
    Staircase(tr, d);
  }

  lemma Descent(tr: seq<World>, d: nat) returns (j: nat)
    requires Rounds(tr) && d + 3 + DRAIN_PASSES + 2 < |tr| && Start(tr[d])
        && 2 * |OldIds(tr[d])| <= |tr[d].vmss.instances|
    ensures tr[d + 1].State() == WAIT_READY && tr[d + 2].State() == CORDON
    ensures tr[d + 3].history.scalings == tr[d].history.scalings
    ensures d + 3 < j <= d + 3 + DRAIN_PASSES && forall i :: d + 3 <= i < j ==> tr[i].State() == DRAIN
    ensures tr[j].State() == TERMINATE && tr[j + 1].State() == TERMINATE
    ensures tr[j + 2].State() == UNINITIALIZED && OldIds(tr[j + 2]) == [] && tr[j + 2].vmss.autoscaler
  {
    StartIsScaleUp(tr[d]);
    hide Rounds, Start, WellFormed, OldIds, NoFutureStart;
    StraightToDrain(tr, d);
    j := Finish(tr, d + 3);
  }

  /** The first d passes find the machine scaling up, with five more instances each time. */
  predicate OnStairs(tr: seq<World>, d: nat)
    requires d < |tr|
  {
    var k, n := |OldIds(tr[0])|, |tr[0].vmss.instances|;
    forall i :: 0 <= i <= d ==>
      tr[i].State() == SCALE_UP && |tr[i].vmss.instances| == Min(n + SAFE_THRESHOLD * i, Max(n, 2 * k))
  }

  lemma ClimbStairs(tr: seq<World>)
    requires Rounds(tr) && 0 < |tr| && Start(tr[0])
    requires ScalingPasses(|OldIds(tr[0])|, |tr[0].vmss.instances|) < |tr|
    ensures OnStairs(tr, ScalingPasses(|OldIds(tr[0])|, |tr[0].vmss.instances|))
  {
    var k, n := |OldIds(tr[0])|, |tr[0].vmss.instances|;
    hide Rounds, ScalingPasses, WellFormed, OldIds, Untouched;
    forall i | 0 <= i <= ScalingPasses(k, n)
      ensures tr[i].State() == SCALE_UP && |tr[i].vmss.instances| == Min(n + SAFE_THRESHOLD * i, Max(n, 2 * k))
    {
      Staircase(tr, i);
    }
  }

  lemma StartIsScaleUp(w: World)
    requires Start(w)
    ensures w.State() == SCALE_UP && OldIds(w) != []
  {}
}
