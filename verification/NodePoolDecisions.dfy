/** When a pass of the node pool handler moves on, submits, scales or deletes: each decision in terms of the world and
    the replies, for all of them. */
module NodePoolDecisions {
  import opened Common
  import opened Drainer
  import opened NodePool
  import opened NodePoolRuns
  import opened NodePoolLiveness

  // ---------------------------------------------------------------- who is outdated, and the gate

  /** Versions are ordered by their three numbers, the first one first. */
  lemma VersionOrder(a: Version, b: Version)
    ensures a.major < b.major ==> a.LessThan(b)
    ensures a.major == b.major && a.minor < b.minor ==> a.LessThan(b)
    ensures a.major == b.major && a.minor == b.minor && a.patch < b.patch ==> a.LessThan(b)
    ensures a == b || a.LessThan(b) || b.LessThan(a)
    ensures !(a.LessThan(b) && b.LessThan(a)) && !a.LessThan(a)
  {}

  /** An instance counts as outdated when its size or image is not that of the scale set, or its node is of an older
      operator version, another cgroup version, or reports a kubelet other than that of the instance. */
  lemma OutdatedMeans(w: World, id: nat)
    ensures id in OldIds(w) <==>
      exists i <- w.vmss.instances ::
        && i.id == id
        && (|| i.size != w.vmss.size || i.image != w.vmss.image
            || (id in w.nodes &&
                  var n := w.nodes[id];
                  || (n.operatorVersion.Some? && n.operatorVersion.value.LessThan(w.cfg.version))
                  || n.cgroup != w.cfg.cgroup
                  || (n.kubelet != "" && i.kubernetesTag.Some? && n.kubelet != "v" + i.kubernetesTag.value)))
  {
    var olds := Select(w, w.vmss.instances, true);
    forall i ensures i in olds <==> i in w.vmss.instances && IsOld(w, i) {
      SelectMembers(w, w.vmss.instances, true, i);
    }
    hide Select;
    if id in OldIds(w) {
      var k :| 0 <= k < |olds| && OldIds(w)[k] == id;
      assert olds[k] in olds && olds[k].id == id;
    }
    if i :| i in w.vmss.instances && i.id == id && IsOld(w, i) {
      var k :| 0 <= k < |olds| && olds[k] == i;
      assert OldIds(w)[k] == id;
    }
  }

  /** While a master is of another version or not ready, or nobody can tell, a pass does nothing at all. */
  lemma GateIff(w: World, env: Env)
    ensures var closed := !env.gate.Granted? || exists n <- env.clusterNodes ::
        (n.role == "master" || n.kubernetesRole == "master") && (n.version != Some(w.cfg.version) || !n.ready);
      && (closed ==> EnsureCreated(w, env) == w)
      && (w.State().UNKNOWN? && env.save.Saved? ==> (EnsureCreated(w, env).State() == SCALE_UP <==> !closed))
  {
    hide Transition;
    assert GateOpen(w.cfg, env) <==> env.gate.Granted? && forall n <- env.clusterNodes :: !MasterOutdated(w.cfg, n);
  }

  // ---------------------------------------------------------------- submitting

  lemma Int32Means(x: int)
    ensures -0x8000_0000 <= Int32(x) < 0x8000_0000 && (x - Int32(x)) % 0x1_0000_0000 == 0
    ensures -0x8000_0000 <= x < 0x8000_0000 ==> Int32(x) == x
  {}

  /** The scale set of a pool without autoscaling has another capacity than desired. */
  predicate CapacityDiffers(w: World, env: Env)
    requires env.desired.Computed?
  {
    var s := env.desired.scaling;
    s.min == s.max && env.vmssGet.Found? && s.current != Int32(w.vmss.capacity)
  }

  /** A pass in the initial state comes to the comparison of the deployments. */
  predicate Compares(w: World, env: Env) {
    && GateOpen(w.cfg, env) && env.setup && !env.poolDeleting && !env.clusterDeleting && !env.vmssGet.LookupFailed?
    && env.desired.Computed? && env.deploymentGet
  }

  lemma ChangesMean(w: World, env: Env)
    requires env.desired.Computed? && !env.vmssGet.LookupFailed?
    ensures var d := env.desired.diff;
      var changes := Changes(d, env.desired.scaling, if env.vmssGet.Found? then Some(w.vmss.capacity) else None);
      && (changes != [] <==> d != [] || CapacityDiffers(w, env))
      && (NeedsRolling(changes) <==> |d| > 1 || exists c <- d :: c != "scaling")
  {
    var d := env.desired.diff;
    if |d| == 1 { assert d[0] in d; }
    if d != [] && "scaling" !in d { assert d[0] in d; }
  }

  /** When a deployment is submitted: there is none yet, the parameters differ, or it has failed. It rolls the nodes
      exactly when there was one and something other than the capacity changed. */
  lemma SubmitsIff(w: World, env: Env)
    requires w.State() == UNINITIALIZED
    ensures var w' := EnsureCreated(w, env);
      var submits := Compares(w, env) && env.submit &&
        (|| w.deployment.None? || env.desired.diff != [] || CapacityDiffers(w, env)
         || (env.saveIds.Saved? && w.deployment.value in {"Failed", "Canceled"}));
      && w'.history.submissions == w.history.submissions + (if submits then 1 else 0)
      && w'.deployment == (if submits then Some("Accepted") else w.deployment)
      && w' == w.(deployment := w'.deployment, history := w'.history, annotation := w'.annotation)
      && w'.history == w.history.(submissions := w'.history.submissions)
  {
    if Compares(w, env) { ChangesMean(w, env); }
    hide Changes, NeedsRolling, CapacityDiffers, ScaleUp, WaitForWorkers, Cordon, Drain, Terminate;
  }

  lemma RollsIff(w: World, env: Env)
    requires w.State() == UNINITIALIZED
    ensures var g := EnsureCreated(w, env).State(); var d := if env.desired.Computed? then env.desired.diff else [];
      && (g == SCALE_UP <==> Compares(w, env) && env.submit && env.save.Saved? && w.deployment.Some?
                             && (|d| > 1 || exists c <- d :: c != "scaling"))
      && (g != SCALE_UP ==> EnsureCreated(w, env).annotation == w.annotation)
  {
    if Compares(w, env) { ChangesMean(w, env); }
    hide Changes, NeedsRolling, CapacityDiffers, ScaleUp, WaitForWorkers, Cordon, Drain, Terminate;
  }

  // ---------------------------------------------------------------- scaling

  /** A pass in the scaling state finds a deployment: its instances have all succeeded, unless they are spot ones. */
  predicate FindsDeployment(w: World, env: Env) {
    && GateOpen(w.cfg, env) && env.setup && !env.poolDeleting
    && (w.cfg.spot || (env.instanceView && forall i <- w.vmss.instances :: i.provisioning == "Succeeded"))
    && env.deploymentGet && w.deployment.Some?
  }

  /** It is in place, with the scale set of this version, and the instances can be split. */
  predicate InPlace(w: World, env: Env) {
    && FindsDeployment(w, env) && w.deployment.value == "Succeeded" && env.vmssGet.Found?
    && w.vmss.operatorTag == Some(w.cfg.version) && env.split.Granted?
  }

  /** Where the scaling state leads, and when: on to waiting with at least two instances for each outdated one, back
      when the deployment failed, is not of this version, or nothing is outdated. */
  lemma ScaleUpMoves(w: World, env: Env)
    requires w.State() == SCALE_UP
    ensures var g := EnsureCreated(w, env).State(); var k := if env.clusterDeleting then 0 else |OldIds(w)|;
      && (g == WAIT_READY <==> env.save.Saved? && InPlace(w, env) && 0 < 2 * k <= |w.vmss.instances|)
      && (g == UNINITIALIZED <==>
            && env.save.Saved? && FindsDeployment(w, env)
            && (|| w.deployment.value in {"Failed", "Canceled"}
                || (w.deployment.value == "Succeeded" && env.vmssGet.NotFound?)
                || (w.deployment.value == "Succeeded" && env.vmssGet.Found?
                      && w.vmss.operatorTag != Some(w.cfg.version))
                || (InPlace(w, env) && k == 0)))
      && (g == SCALE_UP || g == WAIT_READY || g == UNINITIALIZED)
  {
    hide SetCapacity, GetNodeCount, Select, IsOld, OldIds, Uninitialized, WaitForWorkers, Cordon, Drain, Terminate;
  }

  /** When a pass scales up: everything is in place and there are less than two instances for each outdated one. The
      autoscaler is turned off first, and stays off when the scaling fails. */
  lemma ScalesIff(w: World, env: Env)
    requires w.State() == SCALE_UP
    ensures var w' := EnsureCreated(w, env);
      var turnsOff := InPlace(w, env) && !env.clusterDeleting && |w.vmss.instances| < 2 * |OldIds(w)|
                      && env.autoscalerWrite;
      && w'.history.scalings == w.history.scalings + (if turnsOff && env.scaleWrite then 1 else 0)
      && (w'.vmss.autoscaler <==> w.vmss.autoscaler && !turnsOff)
      && (!(turnsOff && env.scaleWrite) ==>
            w'.vmss.instances == w.vmss.instances && w'.vmss.capacity == w.vmss.capacity)
  {
    hide GetNodeCount, Select, IsOld, OldIds, Uninitialized, WaitForWorkers, Cordon, Drain, Terminate;
  }

  // ---------------------------------------------------------------- waiting

  predicate SomeReadyWorker(nodes: map<nat, Node>) { exists id <- nodes :: nodes[id].worker && nodes[id].ready }

  /** The readiness gate: an on-demand pool goes on exactly when some worker is ready, a spot pool right to termination,
      and nothing else changes. */
  lemma WaitMoves(w: World, env: Env)
    requires w.State() == WAIT_READY
    ensures var w' := EnsureCreated(w, env);
      var goes := GateOpen(w.cfg, env) && env.setup && !env.clusterDeleting && env.save.Saved?;
      && (w'.State() == CORDON <==>
            goes && !w.cfg.spot && env.tenant.Granted? && env.listNodes && SomeReadyWorker(w.nodes))
      && (w'.State() == TERMINATE <==> goes && w.cfg.spot)
      && (w'.State() == WAIT_READY || w'.State() == CORDON || w'.State() == TERMINATE)
      && w' == w.(annotation := w'.annotation)
  {
    hide ScaleUp, Uninitialized, Cordon, Drain, Terminate;
  }

  predicate Rolls(w: World) { w.State() == CORDON || w.State() == DRAIN || w.State() == TERMINATE }

  /** Pass e of the run found a ready worker while waiting, and from then up to i nodes are cordoned, drained or
      terminated. */
  predicate ReadyAt(tr: seq<World>, e: nat, i: nat)
    requires e < i < |tr|
  {
    tr[e].State() == WAIT_READY && SomeReadyWorker(tr[e].nodes) && forall x :: e < x <= i ==> Rolls(tr[x])
  }

  predicate ReadyBefore(tr: seq<World>, i: nat)
    requires i < |tr|
  {
    exists e: nat :: e < i && ReadyAt(tr, e, i)
  }

  lemma RollsAfter(w: World, env: Env)
    requires !w.cfg.spot && Rolls(EnsureCreated(w, env))
    ensures Rolls(w) || (w.State() == WAIT_READY && SomeReadyWorker(w.nodes))
  {
    PersistedStateIsClosed(w, env);
    if w.State() == WAIT_READY { WaitMoves(w, env); }
    hide EnsureCreated, Transition, SomeReadyWorker;
  }

  /** In every run of an on-demand pool from the initial state, with any replies and whatever the environment does,
      nodes are cordoned, drained and terminated, and so instances deleted, only after a pass that found a ready
      worker. */
  lemma {:induction false} RollsOnlyWhenReady(tr: seq<World>, i: nat)
    requires OpenRun(tr) && i < |tr| && !tr[0].cfg.spot && tr[0].State() == UNINITIALIZED
    ensures !tr[i].cfg.spot && (Rolls(tr[i]) ==> ReadyBefore(tr, i))
    ensures i + 1 < |tr| && tr[i + 1].history.deleted != tr[i].history.deleted ==> ReadyBefore(tr, i)
  {
    hide EnsureCreated, SomeReadyWorker, Rolls;
    RunIsPrepared(tr, i);
    if i > 0 {
      RollsOnlyWhenReady(tr, i - 1);
      var w, w' := tr[i - 1], tr[i];
      assert Outside(w, tr[i - 1 + 1]) || Pass(w, tr[i - 1 + 1]);
      if !Outside(w, w') && Rolls(w') {
        var env :| w' == EnsureCreated(w, env);
        RollsAfter(w, env);
      }
      StaysRolling(w, w');
      if Rolls(w') {
        if Rolls(w) {
          var e: nat :| e < i - 1 && ReadyAt(tr, e, i - 1);
          assert ReadyAt(tr, e, i);
        } else {
          assert ReadyAt(tr, i - 1, i);
        }
      }
    } else {
      InitialIsNotRolling(tr[0]);
    }
    if i + 1 < |tr| && tr[i + 1].history.deleted != tr[i].history.deleted {
      DeletesOnlyWhenRolling(tr[i], tr[i + 1]);
    }
  }

  lemma StaysRolling(w: World, w': World)
    ensures Outside(w, w') ==> (Rolls(w') <==> Rolls(w))
  {}

  lemma InitialIsNotRolling(w: World)
    requires w.State() == UNINITIALIZED
    ensures !Rolls(w)
  {}

  lemma DeletesOnlyWhenRolling(w: World, w': World)
    requires !w.cfg.spot && (Outside(w, w') || Pass(w, w')) && w'.history.deleted != w.history.deleted
    ensures Rolls(w)
  {
    var env :| w' == EnsureCreated(w, env);
    PassPrepares(w, env);
    hide EnsureCreated, OldIds, DoneDraining, Secured;
    assert |w'.history.deleted| > |w.history.deleted|;
    assert w'.history.deleted[|w.history.deleted|] in w'.history.deleted[|w.history.deleted|..];
  }

  // ---------------------------------------------------------------- cordoning, draining, terminating

  /** Where the cordon state leads, and when. */
  lemma CordonMoves(w: World, env: Env)
    requires w.State() == CORDON && DistinctIds(w.vmss.instances)
    ensures var g := EnsureCreated(w, env).State();
      && (g == DRAIN <==> LoopReached(w, env) && env.save.Saved? && !w.cfg.spot && OldIds(w) != []
                          && !SomeUnschedulable(OldIds(w), w.nodes) && AllAnswer(OldIds(w), w.nodes, env))
      && (g == TERMINATE <==> GateOpen(w.cfg, env) && env.setup && !env.clusterDeleting && env.save.Saved?
                              && (w.cfg.spot || (env.split.Granted? && OldIds(w) == [])))
      && (g == CORDON || g == DRAIN || g == TERMINATE)
  {
    OldIdsDistinct(w);
    if SomeUnschedulable(OldIds(w), w.nodes) {
      CordonAllFails(OldIds(w), w.nodes, env);
    } else {
      CordonAllLoop(OldIds(w), w.nodes, env);
    }
    hide CordonAll, SomeUnschedulable, AllAnswer, Select, IsOld, OldIds;
    hide Uninitialized, ScaleUp, WaitForWorkers, Drain, Terminate;
  }

  /** The calls for a node that is done succeed. */
  predicate Finishes(nodes: map<nat, Node>, id: nat, now: int, api: Api) {
    && api.get
    && (id in nodes && !nodes[id].stamp.Expired(now, DRAIN_TIMEOUT) ==>
          api.list && (nodes[id].stamp.Started? || api.write.Written?))
  }

  predicate AllDone(ids: seq<nat>, nodes: map<nat, Node>, now: int, env: Env) {
    forall id <- ids :: DoneDraining(nodes, id, now) && Finishes(nodes, id, now, env.node(id))
  }

  lemma FinishedIff(nodes: map<nat, Node>, id: nat, now: int, api: Api)
    ensures var (v, nodes', _) := DrainSpec(nodes, id, DRAIN_TIMEOUT, now, api);
      && (v.Finished() <==> DoneDraining(nodes, id, now) && Finishes(nodes, id, now, api))
      && (v.Finished() <==> !v.InProgress? && !v.Failed?)
      && forall j :: j != id ==> (j in nodes' <==> j in nodes) && (j in nodes ==> nodes'[j] == nodes[j])
  {
    DrainStampAndFrame(nodes, id, DRAIN_TIMEOUT, now, api);
    if id in nodes { EvictionDiscipline(nodes[id].pods, api); }
    hide Exempt, Targets, Breaks, Attempts;
  }

  lemma SameDone(ids: seq<nat>, nodes: map<nat, Node>, nodes': map<nat, Node>, now: int, env: Env)
    requires forall id <- ids :: (id in nodes' <==> id in nodes) && (id in nodes ==> nodes'[id] == nodes[id])
    ensures AllDone(ids, nodes', now, env) <==> AllDone(ids, nodes, now, env)
  {
    forall id <- ids
      ensures DoneDraining(nodes', id, now) <==> DoneDraining(nodes, id, now)
      ensures Finishes(nodes', id, now, env.node(id)) <==> Finishes(nodes, id, now, env.node(id))
    {}
    hide DoneDraining, Finishes;
  }

  lemma AllDoneStep(ids: seq<nat>, nodes: map<nat, Node>, now: int, env: Env)
    requires ids != []
    ensures AllDone(ids, nodes, now, env) <==>
      && DoneDraining(nodes, ids[0], now) && Finishes(nodes, ids[0], now, env.node(ids[0]))
      && AllDone(ids[1..], nodes, now, env)
  {
    hide DoneDraining, Finishes;
    assert forall id :: id in ids <==> id == ids[0] || id in ids[1..];
  }

  /** The loop over the old nodes comes through with every drain completed exactly when each node is done and the calls
      for it succeed. */
  lemma {:induction false} DrainAllDone(ids: seq<nat>, d: Draining, now: int, env: Env)
    requires Distinct(ids) && !d.failed
    ensures var r := DrainAll(ids, d, now, env);
      !r.failed && r.completed <==> d.completed && AllDone(ids, d.nodes, now, env)
    decreases |ids|
  {
    if ids != [] {
      var (v, nodes, sent) := DrainSpec(d.nodes, ids[0], DRAIN_TIMEOUT, now, env.node(ids[0]));
      var d' := Draining(v.Failed?, d.completed && !v.InProgress?, nodes, d.evictions + sent);
      AllDoneStep(ids, d.nodes, now, env);
      FinishedIff(d.nodes, ids[0], now, env.node(ids[0]));
      assert ids[0] !in ids[1..];
      hide DrainSpec, DoneDraining, Finishes, AllDone;
      SameDone(ids[1..], d.nodes, nodes, now, env);
      if !v.Failed? { DrainAllDone(ids[1..], d', now, env); }
    }
  }

  /** Where the drain state leads, and when. */
  lemma DrainMoves(w: World, env: Env)
    requires w.State() == DRAIN && DistinctIds(w.vmss.instances)
    ensures var g := EnsureCreated(w, env).State();
      && (g == TERMINATE <==>
            && GateOpen(w.cfg, env) && env.setup && !env.clusterDeleting && env.save.Saved?
            && (|| w.cfg.spot
                || (env.split.Granted? && OldIds(w) == [])
                || (env.split.Granted? && env.tenant.Granted? && AllDone(OldIds(w), w.nodes, w.now, env))))
      && (g == DRAIN || g == TERMINATE)
  {
    OldIdsDistinct(w);
    DrainAllDone(OldIds(w), Draining(false, true, w.nodes, w.evictions), w.now, env);
    hide DrainAll, AllDone, Select, IsOld, OldIds, Uninitialized, ScaleUp, WaitForWorkers, Cordon, Terminate;
  }

  /** Where the terminate state leads, what it deletes, and when the autoscaler is turned on again. */
  lemma TerminateMoves(w: World, env: Env)
    requires w.State() == TERMINATE
    ensures var w' := EnsureCreated(w, env);
      var reached := GateOpen(w.cfg, env) && env.setup && !env.clusterDeleting && env.split.Granted?;
      var ends := reached && OldIds(w) == [] && env.autoscalerWrite;
      && w'.history.deleted == w.history.deleted + (if reached && env.deleteWrite then OldIds(w) else [])
      && (w'.State() == UNINITIALIZED <==> ends && env.save.Saved?)
      && (w'.State() == UNINITIALIZED || w'.State() == TERMINATE)
      && (w'.vmss.autoscaler <==> w.vmss.autoscaler || ends)
      && (!(w.cfg.spot && reached && env.deleteWrite && env.tenant.Granted?) ==> w'.nodes == w.nodes)
      && (w.cfg.spot && reached && env.deleteWrite && env.tenant.Granted? ==>
            w'.nodes == DeleteNodes(OldIds(w), w.nodes, env).1)
  {
    assert DeleteNodes([], w.nodes, env).1 == w.nodes;
    hide DeleteNodes, Select, IsOld, OldIds, Without, Uninitialized, ScaleUp, WaitForWorkers, Cordon, Drain;
  }

  /** The nodes of the first n ids are deleted, and the next one, if any, is missing or refused. */
  predicate DeletedUpTo(ids: seq<nat>, nodes: map<nat, Node>, nodes': map<nat, Node>, env: Env, n: nat) {
    && n <= |ids| && (forall j :: 0 <= j < n ==> ids[j] in nodes && env.deleteNode(ids[j]))
    && (n < |ids| ==> ids[n] !in nodes || !env.deleteNode(ids[n]))
    && nodes' == nodes - (set id <- ids[..n])
  }

  /** A spot pool deletes the nodes of its instances from the first one on, up to the first that is missing or
      refused. */
  lemma {:induction false} DeleteNodesMeans(ids: seq<nat>, nodes: map<nat, Node>, env: Env) returns (n: nat)
    requires Distinct(ids)
    ensures var (failed, nodes') := DeleteNodes(ids, nodes, env);
      DeletedUpTo(ids, nodes, nodes', env, n) && (failed <==> n < |ids|)
  {
    if ids == [] || ids[0] !in nodes || !env.deleteNode(ids[0]) {
      n := 0;
    } else {
      var rest, nodes1 := ids[1..], nodes - {ids[0]};
      var m := DeleteNodesMeans(rest, nodes1, env);
      n := m + 1;
      assert forall j :: 0 < j < |ids| ==> ids[j] == rest[j - 1];
      assert (set id <- ids[..n]) == {ids[0]} + (set id <- rest[..m]) by {
        assert ids[..n] == [ids[0]] + rest[..m];
      }
    }
  }

  // ---------------------------------------------------------------- what a pass leaves alone

  /** The pod is on the node of a listed instance, and may be evicted. */
  predicate Evictable(p: Pod, ids: seq<nat>, nodes: map<nat, Node>) {
    !Exempt(p) && exists id <- ids :: id in nodes && p in nodes[id].pods
  }

  predicate SamePods(a: map<nat, Node>, b: map<nat, Node>) {
    a.Keys == b.Keys && forall id <- a :: a[id].pods == b[id].pods
  }

  lemma EvictableAmong(p: Pod, ids: seq<nat>, more: seq<nat>, nodes: map<nat, Node>, nodes': map<nat, Node>)
    requires Evictable(p, ids, nodes') && SamePods(nodes, nodes') && forall id <- ids :: id in more
    ensures Evictable(p, more, nodes)
  {
    hide Exempt;
  }

  lemma DrainOneTouches(nodes: map<nat, Node>, id: nat, now: int, api: Api, j: nat)
    ensures var (v, nodes', sent) := DrainSpec(nodes, id, DRAIN_TIMEOUT, now, api);
      && SamePods(nodes, nodes') && (forall p <- sent :: Evictable(p, [id], nodes))
      && (j in nodes && j != id ==> nodes'[j] == nodes[j])
  {
    DrainStampAndFrame(nodes, id, DRAIN_TIMEOUT, now, api);
    if id in nodes { EvictionDiscipline(nodes[id].pods, api); }
    hide Exempt, Targets, Breaks, Attempts;
    assert id in [id];
  }

  lemma {:induction false} DrainAllTouches(ids: seq<nat>, d: Draining, now: int, env: Env, j: nat)
    requires !d.failed && j !in ids
    ensures var nodes := DrainAll(ids, d, now, env).nodes;
      nodes.Keys == d.nodes.Keys && (j in d.nodes ==> nodes[j] == d.nodes[j])
  {
    if ids != [] {
      var (v, nodes, sent) := DrainSpec(d.nodes, ids[0], DRAIN_TIMEOUT, now, env.node(ids[0]));
      var d' := Draining(v.Failed?, d.completed && !v.InProgress?, nodes, d.evictions + sent);
      DrainOneTouches(d.nodes, ids[0], now, env.node(ids[0]), j);
      hide DrainSpec, Evictable;
      if !v.Failed? { DrainAllTouches(ids[1..], d', now, env, j); }
    }
  }

  lemma {:induction false} DrainAllEvicts(ids: seq<nat>, d: Draining, now: int, env: Env)
    requires !d.failed
    ensures var r := DrainAll(ids, d, now, env);
      d.evictions <= r.evictions && forall p <- r.evictions[|d.evictions|..] :: Evictable(p, ids, d.nodes)
  {
    if ids != [] {
      var (v, nodes, sent) := DrainSpec(d.nodes, ids[0], DRAIN_TIMEOUT, now, env.node(ids[0]));
      var d' := Draining(v.Failed?, d.completed && !v.InProgress?, nodes, d.evictions + sent);
      var r := DrainAll(ids, d, now, env);
      DrainOneTouches(d.nodes, ids[0], now, env.node(ids[0]), 0);
      assert r == if v.Failed? then d' else DrainAll(ids[1..], d', now, env);
      if !v.Failed? { DrainAllEvicts(ids[1..], d', now, env); }
      hide DrainSpec, Evictable, DrainAll, SamePods;
      assert r.evictions[|d.evictions|..] == sent + r.evictions[|d'.evictions|..];
      forall p | p in r.evictions[|d.evictions|..] ensures Evictable(p, ids, d.nodes) {
        if p in sent {
          SamePodsReflexive(d.nodes);
          EvictableAmong(p, [ids[0]], ids, d.nodes, d.nodes);
        } else {
          EvictableAmong(p, ids[1..], ids, d.nodes, nodes);
        }
      }
    }
  }

  /** The pod is asked to go from a node that is still draining: it may be evicted, and no other pod goes first. */
  predicate Asked(p: Pod, n: Node, now: int) {
    && !n.stamp.Expired(now, DRAIN_TIMEOUT) && p in n.pods && !Exempt(p)
    && (p.namespace == "kube-system" ==> forall q <- n.pods :: Exempt(q) || q.namespace == "kube-system")
  }

  lemma DrainOneAsks(nodes: map<nat, Node>, id: nat, now: int, api: Api, p: Pod)
    requires Reachable(api) && id in nodes && Asked(p, nodes[id], now)
    ensures p in DrainSpec(nodes, id, DRAIN_TIMEOUT, now, api).2
  {
    EvictionDiscipline(nodes[id].pods, api);
    hide Exempt, Targets, Attempts;
    assert !Breaks(Targets(nodes[id].pods), api.evict);
  }

  /** With good replies every such pod is asked in the same pass. */
  lemma {:induction false} DrainAllAsks(ids: seq<nat>, d: Draining, now: int, env: Env, id: nat, p: Pod)
    requires !d.failed && NodesReachable(env) && id in ids && id in d.nodes && Asked(p, d.nodes[id], now)
    ensures p in DrainAll(ids, d, now, env).evictions
  {
    var (v, nodes, sent) := DrainSpec(d.nodes, ids[0], DRAIN_TIMEOUT, now, env.node(ids[0]));
    var d' := Draining(v.Failed?, d.completed && !v.InProgress?, nodes, d.evictions + sent);
    assert Reachable(env.node(ids[0])) && Reachable(env.node(id));
    DrainOne(d.nodes, ids[0], now, env.node(ids[0]));
    DrainAllEvicts(ids[1..], d', now, env);
    if ids[0] == id {
      DrainOneAsks(d.nodes, id, now, env.node(id), p);
      var k :| 0 <= k < |sent| && sent[k] == p;
      assert d'.evictions[|d.evictions| + k] == p;
      assert DrainAll(ids[1..], d', now, env).evictions[|d.evictions| + k] == p;
    } else {
      hide DrainSpec, Asked, DoneDraining, Stamped;
      DrainAllAsks(ids[1..], d', now, env, id, p);
    }
  }

  /** So it is in a whole pass: a node in progress loses its pods as fast as they may go, the system ones last. */
  lemma DrainAsks(w: World, env: Env, id: nat, p: Pod)
    requires w.State() == DRAIN && !w.cfg.spot && Clean(w, env)
    requires id in OldIds(w) && id in w.nodes && Asked(p, w.nodes[id], w.now)
    ensures p in EnsureCreated(w, env).evictions
  {
    DrainAllAsks(OldIds(w), Draining(false, true, w.nodes, w.evictions), w.now, env, id, p);
    hide DrainAll, OldIds, Asked, NodesReachable, Uninitialized, ScaleUp, WaitForWorkers, Cordon, Terminate;
  }

  lemma SamePodsReflexive(a: map<nat, Node>)
    ensures SamePods(a, a)
  {}

  /** From w to w' only nodes of outdated instances change or go, and only their pods are evicted. */
  predicate TouchesOutdated(w: World, w': World) {
    && w'.nodes.Keys <= w.nodes.Keys
    && (forall id <- w.nodes :: id !in OldIds(w) ==> id in w'.nodes && w'.nodes[id] == w.nodes[id])
    && w.evictions <= w'.evictions
    && forall p <- w'.evictions[|w.evictions|..] :: Evictable(p, OldIds(w), w.nodes)
  }

  lemma CordonShape(w: World, env: Env)
    requires w.State() == CORDON
    ensures var w' := EnsureCreated(w, env);
      w'.evictions == w.evictions && (w'.nodes == w.nodes || w'.nodes == CordonAll(OldIds(w), w.nodes, env).1)
  {
    hide CordonAll, OldIds, Uninitialized, ScaleUp, WaitForWorkers, Drain, Terminate;
  }

  lemma CordonTouches(w: World, env: Env)
    requires w.State() == CORDON
    ensures TouchesOutdated(w, EnsureCreated(w, env))
  {
    CordonShape(w, env);
    CordonAllMeans(OldIds(w), w, env);
    hide EnsureCreated, CordonAll, Secured, OldIds, Evictable;
    forall id <- w.nodes | id !in OldIds(w) ensures CordonAll(OldIds(w), w.nodes, env).1[id] == w.nodes[id] {
      CordonAllFrame(OldIds(w), w.nodes, env, id);
    }
  }

  lemma DrainShape(w: World, env: Env)
    requires w.State() == DRAIN
    ensures var w' := EnsureCreated(w, env);
      var r := DrainAll(OldIds(w), Draining(false, true, w.nodes, w.evictions), w.now, env);
      (w'.evictions == w.evictions && w'.nodes == w.nodes) || (w'.evictions == r.evictions && w'.nodes == r.nodes)
  {
    hide DrainAll, OldIds, Uninitialized, ScaleUp, WaitForWorkers, Cordon, Terminate;
  }

  lemma DrainTouches(w: World, env: Env)
    requires w.State() == DRAIN
    ensures TouchesOutdated(w, EnsureCreated(w, env))
  {
    var d := Draining(false, true, w.nodes, w.evictions);
    var r := DrainAll(OldIds(w), d, w.now, env);
    DrainShape(w, env);
    hide EnsureCreated, DrainAll, OldIds, Evictable;
    DrainAllEvicts(OldIds(w), d, w.now, env);
    DrainKeepsNodes(OldIds(w), d, w.now, env);
    forall id <- w.nodes | id !in OldIds(w) ensures id in r.nodes && r.nodes[id] == w.nodes[id] {
      DrainAllTouches(OldIds(w), d, w.now, env, id);
    }
  }

  lemma DrainKeepsNodes(ids: seq<nat>, d: Draining, now: int, env: Env)
    requires !d.failed
    ensures DrainAll(ids, d, now, env).nodes.Keys == d.nodes.Keys
  {
    DrainAllKeepsVersions(ids, d, now, env);
    hide DrainAll;
  }

  lemma TerminateTouches(w: World, env: Env)
    requires w.State() == TERMINATE
    ensures TouchesOutdated(w, EnsureCreated(w, env))
  {
    TerminateMoves(w, env);
    DeleteNodesShrinks(OldIds(w), w.nodes, env);
    var w' := EnsureCreated(w, env);
    assert w'.evictions == w.evictions by {
      TerminateCases(w, env);
      hide Terminate, OldIds, DeleteInstances, DeleteNodes;
    }
    hide EnsureCreated, Terminate, DeleteNodes, OldIds, Evictable, GateOpen;
  }

  lemma EarlyTouches(w: World, env: Env)
    requires w.State() != CORDON && w.State() != DRAIN && w.State() != TERMINATE
    ensures var w' := EnsureCreated(w, env); w'.nodes == w.nodes && w'.evictions == w.evictions
  {
    hide SetCapacity, GetNodeCount, Changes, NeedsRolling, OldIds;
    match w.State()
    case UNINITIALIZED => hide ScaleUp, WaitForWorkers;
    case SCALE_UP => hide Uninitialized, WaitForWorkers;
    case WAIT_READY => hide Uninitialized, ScaleUp;
    case _ => hide Transition;
  }

  /** Whatever the state and the replies, a pass cordons, stamps and evicts only on the nodes of outdated instances, and
      removes no other node. */
  lemma OnlyOutdatedAreTouched(w: World, env: Env)
    ensures TouchesOutdated(w, EnsureCreated(w, env))
  {
    if w.State() == CORDON { CordonTouches(w, env); }
    else if w.State() == DRAIN { DrainTouches(w, env); }
    else if w.State() == TERMINATE { TerminateTouches(w, env); }
    else {
      EarlyTouches(w, env);
      hide EnsureCreated, OldIds, Evictable;
    }
  }
}
