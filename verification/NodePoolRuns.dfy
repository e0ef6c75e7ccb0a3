/** Safety of node pool upgrades over whole runs: every interleaving of passes, with any replies of the
    APIs, and of steps of the environment. */
module NodePoolRuns {
  import opened Common
  import opened Drainer
  import opened NodePool

  // ---------------------------------------------------------------- classification is a partition

  lemma {:induction false} SelectMembers(w: World, s: seq<Instance>, outdated: bool, i: Instance)
    ensures i in Select(w, s, outdated) <==> i in s && IsOld(w, i) == outdated
  {
    hide IsOld;
    if s != [] {
      SelectMembers(w, s[..|s| - 1], outdated, i);
      assert s == s[..|s| - 1] + [s[|s| - 1]];
    }
  }

  lemma {:induction false} SelectCounts(w: World, s: seq<Instance>)
    ensures |Select(w, s, true)| + |Select(w, s, false)| == |s|
  {
    if s != [] { SelectCounts(w, s[..|s| - 1]); }
  }

  lemma IdsCount(w: World)
    ensures |OldIds(w)| + |NewIds(w)| == |w.vmss.instances|
  {
    SelectCounts(w, w.vmss.instances);
  }

  lemma {:induction false} SelectConcat(w: World, a: seq<Instance>, b: seq<Instance>, outdated: bool)
    ensures Select(w, a + b, outdated) == Select(w, a, outdated) + Select(w, b, outdated)
  {
    if b == [] {
      assert a + b == a;
    } else {
      assert (a + b)[..|a + b| - 1] == a + b[..|b| - 1];
      SelectConcat(w, a, b[..|b| - 1], outdated);
    }
  }

  lemma {:induction false} SelectAll(w: World, s: seq<Instance>, outdated: bool)
    requires forall k :: 0 <= k < |s| ==> IsOld(w, s[k]) == outdated
    ensures Select(w, s, outdated) == s && Select(w, s, !outdated) == []
  {
    hide IsOld;
    if s != [] { SelectAll(w, s[..|s| - 1], outdated); }
  }

  lemma {:induction false} SelectSame(w: World, w': World, s: seq<Instance>, outdated: bool)
    requires forall k :: 0 <= k < |s| ==> IsOld(w, s[k]) == IsOld(w', s[k])
    ensures Select(w', s, outdated) == Select(w, s, outdated)
  {
    hide IsOld;
    if s != [] { SelectSame(w, w', s[..|s| - 1], outdated); }
  }

  lemma {:induction false} WithoutIsSelect(w: World, s: seq<Instance>, ids: seq<nat>)
    requires forall k :: 0 <= k < |s| ==> (s[k].id in ids <==> IsOld(w, s[k]))
    ensures Without(s, ids) == Select(w, s, false)
  {
    hide IsOld;
    if s != [] { WithoutIsSelect(w, s[..|s| - 1], ids); }
  }

  predicate DistinctIds(s: seq<Instance>) {
    forall i, j :: 0 <= i < j < |s| ==> s[i].id != s[j].id
  }

  lemma {:induction false} SelectIsDistinct(w: World, s: seq<Instance>, outdated: bool)
    requires DistinctIds(s)
    ensures DistinctIds(Select(w, s, outdated))
  {
    if s != [] {
      var rest := Select(w, s[..|s| - 1], outdated);
      SelectIsDistinct(w, s[..|s| - 1], outdated);
      forall k | 0 <= k < |rest| ensures rest[k].id != s[|s| - 1].id {
        SelectMembers(w, s[..|s| - 1], outdated, rest[k]);
      }
    }
  }

  /** The same nodes with the same versions. */
  predicate SameVersions(a: map<nat, Node>, b: map<nat, Node>) {
    a.Keys == b.Keys &&
    forall id <- a :: a[id].operatorVersion == b[id].operatorVersion && a[id].cgroup == b[id].cgroup
        && a[id].kubelet == b[id].kubelet
  }

  /** Nothing but versions, sizes and images matters for the classification. */
  lemma SameClassification(w: World, w': World)
    requires w.cfg == w'.cfg && w.vmss.instances == w'.vmss.instances
    requires w.vmss.size == w'.vmss.size && w.vmss.image == w'.vmss.image
    requires SameVersions(w.nodes, w'.nodes)
    ensures OldIds(w') == OldIds(w) && NewIds(w') == NewIds(w)
  {
    SelectSame(w, w', w.vmss.instances, true);
    SelectSame(w, w', w.vmss.instances, false);
  }

  lemma {:induction false} CordonAllKeepsVersions(ids: seq<nat>, nodes: map<nat, Node>, env: Env)
    ensures SameVersions(nodes, CordonAll(ids, nodes, env).1)
  {
    if ids != [] { CordonAllKeepsVersions(ids[1..], CordonSpec(nodes, ids[0], env.node(ids[0])).1, env); }
  }

  lemma {:induction false} DrainAllKeepsVersions(ids: seq<nat>, d: Draining, now: int, env: Env)
    requires !d.failed
    ensures SameVersions(d.nodes, DrainAll(ids, d, now, env).nodes)
  {
    if ids != [] {
      var (v, nodes, sent) := DrainSpec(d.nodes, ids[0], DRAIN_TIMEOUT, now, env.node(ids[0]));
      DrainStampAndFrame(d.nodes, ids[0], DRAIN_TIMEOUT, now, env.node(ids[0]));
      var d' := Draining(v.Failed?, d.completed && !v.InProgress?, nodes, d.evictions + sent);
      if !v.Failed? { DrainAllKeepsVersions(ids[1..], d', now, env); }
    }
  }

  // ---------------------------------------------------------------- capacity

  /** Instance ids are distinct, ids from nextId on are unused, and the capacity counts the instances. */
  predicate WellFormed(w: World) {
    && w.vmss.capacity == |w.vmss.instances|
    && DistinctIds(w.vmss.instances)
    && (forall i <- w.vmss.instances :: i.id < w.vmss.nextId)
    && (forall id <- w.nodes :: id < w.vmss.nextId)
  }

  /** A step of the environment that leaves the instances and their classification alone. Nodes may
      become ready or not, register, leave, be relabelled, start and end pods, get cordoned; the
      deployment, the provisioning of instances and the clock may move. */
  predicate Quiet(w: World, w': World) {
    && WellFormed(w')
    && w'.cfg == w.cfg && w'.annotation == w.annotation
    && OldIds(w') == OldIds(w) && NewIds(w') == NewIds(w)
  }

  ghost predicate Pass(w: World, w': World) { exists env :: w' == EnsureCreated(w, env) }

  ghost predicate QuietRun(tr: seq<World>) {
    forall i :: 0 <= i < |tr| - 1 ==> Quiet(tr[i], tr[i + 1]) || Pass(tr[i], tr[i + 1])
  }

  function Max(a: int, b: int): int { if a < b then b else a }

  /** What holds in each state of an upgrade of the outdated instances `olds` that started with the
      up-to-date instances `news`. */
  predicate Upgrading(w: World, olds: seq<nat>, news: seq<nat>) {
    var k, n, t := |olds|, |olds| + |news|, |w.vmss.instances|;
    var full := Max(n, 2 * k);
    && WellFormed(w)
    && news <= NewIds(w)
    && Known(w.State())
    && ( || (OldIds(w) == olds && n <= t <= full && (t == full || w.State() == SCALE_UP || w.State() == UNINITIALIZED))
         || (OldIds(w) == [] && t == full - k && (w.State() == TERMINATE || w.State() == UNINITIALIZED)))
  }

  lemma GrowKeepsWellFormed(w: World, c: int) returns (added: seq<Instance>)
    requires WellFormed(w) && c >= |w.vmss.instances|
    ensures var w' := w.(vmss := SetCapacity(w.vmss, c));
      && WellFormed(w') && w'.vmss.instances == w.vmss.instances + added && |w'.vmss.instances| == c
      && forall k :: 0 <= k < |added| ==> !IsOld(w', added[k])
  {
    hide Created, NodeOutdated;
    var s := w.vmss.instances;
    added := Created(w.vmss, c - |s|);
    var all := s + added;
    assert SetCapacity(w.vmss, c) == w.vmss.(capacity := c, instances := all, nextId := w.vmss.nextId + |added|);
    forall i | i in all ensures i.id < w.vmss.nextId + |added| {
      if i in s {} else { assert i in added; }
    }
    forall i, j | 0 <= i < j < |all| ensures all[i].id != all[j].id {
      if i < |s| { assert s[i] in s; }
    }
  }

  /** Growing the scale set adds new instances only, and touches no other one. */
  lemma GrowKeepsClassification(w: World, c: int)
    requires WellFormed(w) && c >= |w.vmss.instances|
    ensures var w' := w.(vmss := SetCapacity(w.vmss, c));
      && WellFormed(w') && |w'.vmss.instances| == c && OldIds(w') == OldIds(w) && NewIds(w) <= NewIds(w')
  {
    var s, w' := w.vmss.instances, w.(vmss := SetCapacity(w.vmss, c));
    var added := GrowKeepsWellFormed(w, c);
    hide WellFormed, SetCapacity, Select;
    forall k | 0 <= k < |s| ensures IsOld(w, s[k]) == IsOld(w', s[k]) {}
    hide IsOld;
    SelectConcat(w', s, added, true);
    SelectConcat(w', s, added, false);
    SelectSame(w, w', s, true);
    SelectSame(w, w', s, false);
    SelectAll(w', added, false);
  }

  /** Among the instances, the outdated ones are those whose id is listed. */
  lemma OldIdsAre(w: World, i: Instance)
    requires WellFormed(w) && i in w.vmss.instances
    ensures i.id in OldIds(w) <==> IsOld(w, i)
  {
    var olds := Select(w, w.vmss.instances, true);
    SelectMembers(w, w.vmss.instances, true, i);
    hide IsOld, Select;
    if IsOld(w, i) {
      var k :| 0 <= k < |olds| && olds[k] == i;
      assert OldIds(w)[k] == i.id;
    }
    forall k | 0 <= k < |olds| ensures olds[k].id == i.id ==> olds[k] == i {
      SelectMembers(w, w.vmss.instances, true, olds[k]);
    }
  }

  /** Deleting the outdated instances leaves exactly the up-to-date ones, in order. */
  lemma DeleteLeavesUpToDate(w: World)
    requires WellFormed(w)
    ensures var v := DeleteInstances(w.vmss, OldIds(w)); var w' := w.(vmss := v);
      && v.instances == Select(w, w.vmss.instances, false) && WellFormed(w')
      && OldIds(w') == [] && NewIds(w') == NewIds(w) == Ids(v.instances)
      && |v.instances| == |w.vmss.instances| - |OldIds(w)|
  {
    var s := w.vmss.instances;
    hide IsOld, Select;
    forall k | 0 <= k < |s| ensures s[k].id in OldIds(w) <==> IsOld(w, s[k]) { OldIdsAre(w, s[k]); }
    WithoutIsSelect(w, s, OldIds(w));
    SelectCounts(w, s);
    SelectIsDistinct(w, s, false);
    forall k | 0 <= k < |Select(w, s, false)| ensures Select(w, s, false)[k] in s && !IsOld(w, Select(w, s, false)[k]) {
      SelectMembers(w, s, false, Select(w, s, false)[k]);
    }
    var w' := w.(vmss := DeleteInstances(w.vmss, OldIds(w)));
    forall k | 0 <= k < |w'.vmss.instances| ensures !IsOld(w', w'.vmss.instances[k]) {
      SameOld(w, w', w'.vmss.instances[k]);
    }
    SelectAll(w', w'.vmss.instances, false);
  }

  lemma SameOld(w: World, w': World, i: Instance)
    requires w.cfg == w'.cfg && w.vmss.size == w'.vmss.size && w.vmss.image == w'.vmss.image
        && SameVersions(w.nodes, w'.nodes)
    ensures IsOld(w', i) == IsOld(w, i)
  {}

  lemma {:induction false} DeleteNodesShrinks(ids: seq<nat>, nodes: map<nat, Node>, env: Env)
    ensures var nodes' := DeleteNodes(ids, nodes, env).1;
      && nodes'.Keys <= nodes.Keys
      && (forall id <- nodes :: id !in ids ==> id in nodes' && nodes'[id] == nodes[id])
  {
    if ids != [] && ids[0] in nodes && env.deleteNode(ids[0]) {
      DeleteNodesShrinks(ids[1..], nodes - {ids[0]}, env);
    }
  }

  /** Removing nodes of instances that are gone changes no classification. */
  lemma DropNodesKeepsClassification(w: World, nodes: map<nat, Node>)
    requires WellFormed(w) && nodes.Keys <= w.nodes.Keys
    requires forall i <- w.vmss.instances :: i.id in w.nodes ==> i.id in nodes && nodes[i.id] == w.nodes[i.id]
    ensures var w' := w.(nodes := nodes); WellFormed(w') && OldIds(w') == OldIds(w) && NewIds(w') == NewIds(w)
  {
    var w' := w.(nodes := nodes);
    hide Select;
    forall k | 0 <= k < |w.vmss.instances| ensures IsOld(w', w.vmss.instances[k]) == IsOld(w, w.vmss.instances[k]) {
      assert w.vmss.instances[k] in w.vmss.instances;
    }
    SelectSame(w, w', w.vmss.instances, true);
    SelectSame(w, w', w.vmss.instances, false);
  }

  /** The scale set, the versions of the nodes and the settings decide the classification; changes to
      anything else keep it. */
  predicate SameInstances(w: World, w': World) {
    && w'.cfg == w.cfg && SameVersions(w.nodes, w'.nodes) && w'.vmss == w.vmss.(autoscaler := w'.vmss.autoscaler)
  }

  lemma PassCases(w: World, env: Env)
    requires Known(w.State())
    ensures var s, w' := Transition(w, env), EnsureCreated(w, env);
      w' == w || w' == s.world || (!s.failed && w' == s.world.(annotation := Some(s.next)))
  {
    hide Transition;
  }

  lemma Restage(w: World, g: Stage)
    requires WellFormed(w)
    ensures var w' := w.(annotation := Some(g));
      WellFormed(w') && OldIds(w') == OldIds(w) && NewIds(w') == NewIds(w) && w'.State() == g
  {
    SameClassification(w, w.(annotation := Some(g)));
  }

  lemma SameInstancesSameIds(w: World, w': World)
    requires SameInstances(w, w') && WellFormed(w)
    ensures WellFormed(w') && OldIds(w') == OldIds(w) && NewIds(w') == NewIds(w)
  {
    hide Select, IsOld;
    SameClassification(w, w');
  }

  lemma ScaleUpCases(w: World, env: Env)
    requires w.State() == SCALE_UP
    ensures var s := ScaleUp(w, env); var off := w.vmss.(autoscaler := false); var k := |OldIds(w)|;
      || (s.world == w && (s.failed || s.next == SCALE_UP || s.next == UNINITIALIZED
                           || (s.next == WAIT_READY && 2 * k <= |w.vmss.instances|)))
      || (s.world == w.(vmss := off) && s.failed)
      || (&& !s.failed && s.next == SCALE_UP && 2 * k > |w.vmss.instances|
          && s.world == w.(vmss := SetCapacity(off, GetNodeCount(off.capacity, 2 * k)), history := s.world.history))
  {
    hide SetCapacity, GetNodeCount, Select, IsOld;
  }

  /** A handler keeps the up-to-date instances and either all of the outdated ones or none. */
  predicate Keeps(w: World, w': World) {
    && w'.annotation == w.annotation && WellFormed(w')
    && NewIds(w) <= NewIds(w') && OldIds(w') == OldIds(w) && |w.vmss.instances| <= |w'.vmss.instances|
  }

  lemma ScaledKeeps(w: World, h: History)
    requires WellFormed(w) && |w.vmss.instances| < 2 * |OldIds(w)|
    ensures var off := w.vmss.(autoscaler := false);
      var w' := w.(vmss := SetCapacity(off, GetNodeCount(off.capacity, 2 * |OldIds(w)|)), history := h);
      Keeps(w, w') && |w'.vmss.instances| <= 2 * |OldIds(w)|
  {
    var w1 := w.(vmss := w.vmss.(autoscaler := false), history := h);
    SameInstancesSameIds(w, w1);
    hide Select, IsOld;
    GrowKeepsClassification(w1, GetNodeCount(w.vmss.capacity, 2 * |OldIds(w)|));
  }

  lemma ScaleUpEffect(w: World, env: Env)
    requires WellFormed(w) && w.State() == SCALE_UP
    ensures var s := ScaleUp(w, env); var k := |OldIds(w)|;
      && Keeps(w, s.world) && |s.world.vmss.instances| <= Max(|w.vmss.instances|, 2 * k)
      && (!s.failed && s.next != SCALE_UP && s.next != UNINITIALIZED ==>
            s.next == WAIT_READY && 2 * k <= |s.world.vmss.instances|)
  {
    ScaleUpCases(w, env);
    hide ScaleUp, Select, IsOld, SetCapacity, GetNodeCount, WellFormed;
    var s := ScaleUp(w, env);
    if |w.vmss.instances| < 2 * |OldIds(w)| { ScaledKeeps(w, s.world.history); }
    if SameInstances(w, s.world) { SameInstancesSameIds(w, s.world); }
  }

  lemma ScaleUpKeepsUpgrade(w: World, env: Env, olds: seq<nat>, news: seq<nat>)
    requires Upgrading(w, olds, news) && w.State() == SCALE_UP
    ensures Upgrading(EnsureCreated(w, env), olds, news)
  {
    var s := ScaleUp(w, env);
    PassCases(w, env);
    ScaleUpEffect(w, env);
    hide EnsureCreated, ScaleUp, Select, IsOld, WellFormed;
    IdsCount(w);
    Restage(s.world, s.next);
  }

  lemma CordonCases(w: World, env: Env)
    ensures var s := Cordon(w, env); SameInstances(w, s.world) && s.world.annotation == w.annotation
    ensures var s := Cordon(w, env); s.failed || s.next == w.State() || s.next == DRAIN || s.next == TERMINATE
  {
    CordonAllKeepsVersions(OldIds(w), w.nodes, env);
    hide CordonAll, Select, IsOld;
  }

  lemma DrainCases(w: World, env: Env)
    ensures var s := Drain(w, env); SameInstances(w, s.world) && s.world.annotation == w.annotation
    ensures var s := Drain(w, env); s.failed || s.next == w.State() || s.next == TERMINATE
  {
    hide DrainAll, OldIds, SameVersions;
    DrainAllKeepsVersions(OldIds(w), Draining(false, true, w.nodes, w.evictions), w.now, env);
    SameVersionsReflexive(w.nodes);
  }

  lemma SameVersionsReflexive(a: map<nat, Node>)
    ensures SameVersions(a, a)
  {}

  lemma RollEffect(w: World, env: Env)
    requires w.State() == WAIT_READY || w.State() == CORDON || w.State() == DRAIN
    ensures var s := Transition(w, env); SameInstances(w, s.world) && s.world.annotation == w.annotation
    ensures !Transition(w, env).failed ==> Transition(w, env).next in {WAIT_READY, CORDON, DRAIN, TERMINATE}
  {
    CordonCases(w, env);
    DrainCases(w, env);
    hide ScaleUp, Uninitialized, Terminate, Cordon, Drain;
  }

  lemma RollKeepsUpgrade(w: World, env: Env, olds: seq<nat>, news: seq<nat>)
    requires Upgrading(w, olds, news)
    requires w.State() == WAIT_READY || w.State() == CORDON || w.State() == DRAIN
    ensures Upgrading(EnsureCreated(w, env), olds, news)
  {
    var s := Transition(w, env);
    PassCases(w, env);
    RollEffect(w, env);
    hide EnsureCreated, Transition, Select, IsOld, WellFormed;
    SameInstancesSameIds(w, s.world);
    Restage(s.world, s.next);
  }

  lemma TerminateCases(w: World, env: Env)
    requires w.State() == TERMINATE
    ensures var s := Terminate(w, env); var gone := OldIds(w);
      && s.world.annotation == w.annotation
      && (|| (s.world == w && (s.failed || s.next == TERMINATE))
          || (s.world == w.(vmss := w.vmss.(autoscaler := true)) && gone == [] && s.next == UNINITIALIZED && !s.failed)
          || (&& gone != [] && (s.failed || s.next == TERMINATE)
              && s.world == w.(vmss := DeleteInstances(w.vmss, gone), nodes := s.world.nodes,
                               history := w.history.(deleted := w.history.deleted + gone))
              && (s.world.nodes == w.nodes || s.world.nodes == DeleteNodes(gone, w.nodes, env).1)))
      && (!w.cfg.spot ==> s.world.nodes == w.nodes)
  {
    hide DeleteInstances, DeleteNodes, Select, IsOld;
  }

  lemma DeletedEffect(w: World, nodes: map<nat, Node>, h: History, env: Env)
    requires WellFormed(w) && (nodes == w.nodes || nodes == DeleteNodes(OldIds(w), w.nodes, env).1)
    ensures var w' := w.(vmss := DeleteInstances(w.vmss, OldIds(w)), nodes := nodes, history := h);
      && WellFormed(w') && OldIds(w') == [] && NewIds(w') == NewIds(w)
      && |w'.vmss.instances| == |w.vmss.instances| - |OldIds(w)|
  {
    DeleteLeavesUpToDate(w);
    DeleteNodesShrinks(OldIds(w), w.nodes, env);
    var w1 := w.(vmss := DeleteInstances(w.vmss, OldIds(w)));
    forall i <- w1.vmss.instances ensures i.id !in OldIds(w) {
      SelectMembers(w, w.vmss.instances, false, i);
      OldIdsAre(w, i);
    }
    hide DeleteInstances, DeleteNodes, Select, IsOld;
    DropNodesKeepsClassification(w1, nodes);
    SameInstancesSameIds(w1.(nodes := nodes), w1.(nodes := nodes, history := h));
  }

  /** The terminate state keeps the instances, or deletes the outdated ones. */
  lemma TerminateEffect(w: World, env: Env)
    requires WellFormed(w) && w.State() == TERMINATE
    ensures var s := Terminate(w, env); var k, n := |OldIds(w)|, |w.vmss.instances|;
      && WellFormed(s.world) && NewIds(s.world) == NewIds(w) && s.world.annotation == w.annotation
      && (|| (OldIds(s.world) == OldIds(w) && |s.world.vmss.instances| == n)
          || (OldIds(s.world) == [] && |s.world.vmss.instances| == n - k && (s.failed || s.next == TERMINATE)))
      && (!s.failed && s.next != TERMINATE ==> s.next == UNINITIALIZED && OldIds(w) == [])
  {
    var s := Terminate(w, env);
    TerminateCases(w, env);
    hide Terminate, Select, IsOld, WellFormed, DeleteInstances, DeleteNodes, OldIds, NewIds;
    SameVersionsReflexive(w.nodes);
    if SameInstances(w, s.world) {
      SameInstancesSameIds(w, s.world);
    } else {
      DeletedEffect(w, s.world.nodes, s.world.history, env);
    }
  }

  lemma TerminateKeepsUpgrade(w: World, env: Env, olds: seq<nat>, news: seq<nat>)
    requires Upgrading(w, olds, news) && w.State() == TERMINATE
    ensures Upgrading(EnsureCreated(w, env), olds, news)
  {
    var s := Terminate(w, env);
    PassCases(w, env);
    TerminateEffect(w, env);
    hide EnsureCreated, Terminate, WellFormed, OldIds, NewIds;
    Restage(s.world, s.next);
  }

  lemma UpgradingIsKnown(w: World, olds: seq<nat>, news: seq<nat>)
    requires Upgrading(w, olds, news)
    ensures Known(w.State())
  {}

  lemma PassKeepsUpgrade(w: World, env: Env, olds: seq<nat>, news: seq<nat>)
    requires Upgrading(w, olds, news) && w.State() != UNINITIALIZED
    ensures Upgrading(EnsureCreated(w, env), olds, news)
  {
    hide EnsureCreated, Upgrading;
    assert Known(w.State()) by { UpgradingIsKnown(w, olds, news); }
    if w.State() == SCALE_UP { ScaleUpKeepsUpgrade(w, env, olds, news); }
    else if w.State() == TERMINATE { TerminateKeepsUpgrade(w, env, olds, news); }
    else { RollKeepsUpgrade(w, env, olds, news); }
  }

  lemma {:induction false} UpgradeInvariant(tr: seq<World>, i: nat)
    requires QuietRun(tr) && i < |tr| && WellFormed(tr[0]) && tr[0].State() == SCALE_UP
    requires forall j :: 0 <= j < i ==> tr[j].State() != UNINITIALIZED
    ensures Upgrading(tr[i], OldIds(tr[0]), NewIds(tr[0]))
  {
    SelectCounts(tr[0], tr[0].vmss.instances);
    if i > 0 {
      UpgradeInvariant(tr, i - 1);
      if !Quiet(tr[i - 1], tr[i]) {
        var env :| tr[i] == EnsureCreated(tr[i - 1], env);
        PassKeepsUpgrade(tr[i - 1], env, OldIds(tr[0]), NewIds(tr[0]));
      } else {
        SelectCounts(tr[i - 1], tr[i - 1].vmss.instances);
        SelectCounts(tr[i], tr[i].vmss.instances);
      }
    }
  }

  /** Main result on capacity. An upgrade that starts with k outdated instances out of n never has
      fewer than k instances nor more than max(n, 2k), never loses an up-to-date instance, and when the
      outdated ones are gone the scale set is exactly the up-to-date ones, at least k of them. */
  lemma CapacitySafety(tr: seq<World>, i: nat)
    requires QuietRun(tr) && i < |tr| && WellFormed(tr[0]) && tr[0].State() == SCALE_UP
    requires forall j :: 0 <= j < i ==> tr[j].State() != UNINITIALIZED
    ensures var k, n := |OldIds(tr[0])|, |tr[0].vmss.instances|; var w := tr[i];
      && k <= |w.vmss.instances| <= Max(n, 2 * k)
      && NewIds(tr[0]) <= NewIds(w)
      && (OldIds(w) != OldIds(tr[0]) ==>
            && OldIds(w) == [] && Ids(w.vmss.instances) == NewIds(w)
            && |w.vmss.instances| == Max(n, 2 * k) - k >= k
            && (w.State() == TERMINATE || w.State() == UNINITIALIZED))
      && (w.State() in {WAIT_READY, CORDON, DRAIN} ==> |w.vmss.instances| == Max(n, 2 * k))
  {
    UpgradeInvariant(tr, i);
    var w := tr[i];
    SelectCounts(tr[0], tr[0].vmss.instances);
    if OldIds(w) == [] {
      forall x <- w.vmss.instances ensures !IsOld(w, x) { OldIdsAre(w, x); }
      SelectAll(w, w.vmss.instances, false);
    }
  }

  /** Where the assumption that the capacity counts the instances is needed: a scaling pass lowers the
      capacity exactly when it is above twice the number of outdated instances. */
  lemma ScalingLowersCapacityIff(w: World, env: Env)
    requires w.State() == SCALE_UP && ScaleUp(w, env).world.history.scalings > w.history.scalings
    ensures var c := ScaleUp(w, env).world.vmss.capacity;
      && (c < w.vmss.capacity <==> w.vmss.capacity > 2 * |OldIds(w)|)
      && c <= 2 * |OldIds(w)|
      && (w.vmss.capacity < 2 * |OldIds(w)| ==> w.vmss.capacity < c <= w.vmss.capacity + SAFE_THRESHOLD)
  {
  }

  /** It does happen: with capacity 5 and one instance, an outdated one, a pass that meets all its guards lowers the
      capacity to 2. */
  lemma CapacityCanDrop(w: World, env: Env, i: Instance)
    requires w.State() == SCALE_UP && w.vmss.instances == [i] && IsOld(w, i) && w.vmss.capacity == 5
    requires ScaleUpReaches(w, env)
    ensures var s := ScaleUp(w, env);
      !s.failed && s.world.vmss.capacity == 2 && s.world.history.scalings == w.history.scalings + 1
  {
    assert OldIds(w) == [i.id] by {
      assert w.vmss.instances[..0] == [];
      assert Select(w, [], true) == [];
      assert Select(w, w.vmss.instances, true) == [] + [i];
    }
    hide IsOld, Select, OldIds;
  }

  /** All guards before the decision to scale. */
  predicate ScaleUpReaches(w: World, env: Env) {
    && env.setup && !env.poolDeleting && !env.clusterDeleting && env.deploymentGet && w.deployment == Some("Succeeded")
    && (w.cfg.spot || (env.instanceView && forall i <- w.vmss.instances :: i.provisioning == "Succeeded"))
    && env.vmssGet.Found? && w.vmss.operatorTag == Some(w.cfg.version) && env.split.Granted?
    && env.autoscalerWrite && env.scaleWrite
  }

  /** Such a world and such replies exist. */
  lemma CapacityDropExample() returns (w: World, env: Env)
    ensures w.State() == SCALE_UP && ScaleUp(w, env).world.vmss.capacity < w.vmss.capacity
    ensures ScaleUp(w, env).world.history.scalings > w.history.scalings
  {
    var version := Version(5, 0, 0);
    var i := Instance(0, "old", "image", None, "Succeeded");
    w := World(Settings(false, version, "v1"), Vmss(5, [i], 1, "new", "image", None, Some(version), true),
               Some("Succeeded"),
               map[], [], Some(SCALE_UP), 0, History([], 0, 0));
    env := Env(Granted, [], true, false, false, true, true, Found, Granted, Granted, true, true, true, true, true,
               _ => Api(true, Written, true, _ => Accepted), _ => true, NotReady, Saved, Saved);
    assert "old" != "new" by { assert "old"[0] != "new"[0]; }
    CapacityCanDrop(w, env, i);
  }

  // ---------------------------------------------------------------- drain before delete

  /** Steps of the environment that drain before delete has to survive: anything at all, except that a pool stays a pool
      of on-demand instances, and nobody else writes the persisted state. */
  predicate Outside(w: World, w': World) {
    w'.cfg.spot == w.cfg.spot && w'.annotation == w.annotation && w'.history == w.history
  }

  ghost predicate OpenRun(tr: seq<World>) {
    forall i :: 0 <= i < |tr| - 1 ==> Outside(tr[i], tr[i + 1]) || Pass(tr[i], tr[i + 1])
  }

  lemma EarlyDeletesNone(w: World, env: Env)
    requires !w.cfg.spot && (w.State() == UNINITIALIZED || w.State() == SCALE_UP || w.State() == WAIT_READY)
    ensures var w' := EnsureCreated(w, env);
      && w'.cfg == w.cfg && w'.State() != DRAIN && w'.State() != TERMINATE && w'.history.deleted == w.history.deleted
  {
    PassCases(w, env);
    HandlersMoveAlongEdges(w, env);
    EarlyFrame(w, env);
    hide EnsureCreated, Transition;
  }

  lemma EarlyFrame(w: World, env: Env)
    requires !w.cfg.spot && (w.State() == UNINITIALIZED || w.State() == SCALE_UP || w.State() == WAIT_READY)
    ensures var s := Transition(w, env);
      s.world.cfg == w.cfg && s.world.history.deleted == w.history.deleted && (s.failed || s.next != TERMINATE)
  {
    hide Cordon, Drain, Terminate, SetCapacity, GetNodeCount, Changes, NeedsRolling, Select, IsOld;
    match w.State()
    case UNINITIALIZED => hide ScaleUp, WaitForWorkers;
    case SCALE_UP => hide Uninitialized, WaitForWorkers;
    case _ => hide Uninitialized, ScaleUp;
  }

  lemma OldIdsAreOld(w: World, k: nat)
    requires k < |OldIds(w)|
    ensures var i := Select(w, w.vmss.instances, true)[k]; i in w.vmss.instances && IsOld(w, i) && OldIds(w)[k] == i.id
  {
    SelectMembers(w, w.vmss.instances, true, Select(w, w.vmss.instances, true)[k]);
  }

  lemma StillOld(w: World, w': World, k: nat)
    requires w'.cfg == w.cfg && w'.nodes == w.nodes && w'.vmss.size == w.vmss.size && w'.vmss.image == w.vmss.image
    requires forall i <- w'.vmss.instances :: i in w.vmss.instances
    requires k < |OldIds(w')|
    ensures OldIds(w')[k] in OldIds(w)
  {
    OldIdsAreOld(w', k);
    var i, olds := Select(w', w'.vmss.instances, true)[k], Select(w, w.vmss.instances, true);
    SelectMembers(w, w.vmss.instances, true, i);
    hide Select;
    var j :| 0 <= j < |olds| && olds[j] == i;
    assert OldIds(w)[j] == i.id;
  }

  lemma {:induction false} WithoutIsSubset(s: seq<Instance>, ids: seq<nat>)
    ensures forall i <- Without(s, ids) :: i in s
  {
    if s != [] { WithoutIsSubset(s[..|s| - 1], ids); }
  }

  /** The node is gone, has nothing left to evict, or has been draining for more than 15 minutes. */
  predicate DoneDraining(nodes: map<nat, Node>, id: nat, now: int) {
    || id !in nodes
    || (nodes[id].stamp.Started? && now - nodes[id].stamp.seconds * SECOND > 15 * 60 * SECOND)
    || forall p <- nodes[id].pods :: Exempt(p)
  }

  lemma DrainSpecMeans(nodes: map<nat, Node>, id: nat, now: int, api: Api)
    ensures var (v, nodes', _) := DrainSpec(nodes, id, DRAIN_TIMEOUT, now, api);
      && (v.Finished() ==> DoneDraining(nodes, id, now))
      && forall j :: DoneDraining(nodes', j, now) ==> DoneDraining(nodes, j, now)
  {
    DrainStampAndFrame(nodes, id, DRAIN_TIMEOUT, now, api);
    hide Exempt;
    assert now - now / SECOND * SECOND < SECOND;
  }

  lemma {:induction false} DrainAllMeans(ids: seq<nat>, d: Draining, now: int, env: Env)
    requires !d.failed && !DrainAll(ids, d, now, env).failed && DrainAll(ids, d, now, env).completed
    ensures forall id <- ids :: DoneDraining(d.nodes, id, now)
    ensures d.completed
  {
    if ids != [] {
      var (v, nodes, sent) := DrainSpec(d.nodes, ids[0], DRAIN_TIMEOUT, now, env.node(ids[0]));
      var d' := Draining(v.Failed?, d.completed && !v.InProgress?, nodes, d.evictions + sent);
      DrainSpecMeans(d.nodes, ids[0], now, env.node(ids[0]));
      DrainAllMeans(ids[1..], d', now, env);
      hide DoneDraining, DrainSpec;
      assert forall id :: id in ids <==> id == ids[0] || id in ids[1..];
    }
  }

  /** After a cordon pass the node is unschedulable, or the pass found none, or it vanished while it was patched. */
  predicate Secured(w: World, nodes: map<nat, Node>, id: nat, env: Env) {
    id !in w.nodes || env.node(id).write.Vanished? || (id in nodes && nodes[id].unschedulable)
  }

  lemma {:induction false} CordonAllMeans(ids: seq<nat>, w: World, env: Env)
    ensures var (failed, nodes) := CordonAll(ids, w.nodes, env);
      && nodes.Keys == w.nodes.Keys && (forall id <- nodes :: w.nodes[id].unschedulable ==> nodes[id].unschedulable)
      && (!failed ==> forall id <- ids :: Secured(w, nodes, id, env))
  {
    if ids != [] {
      CordonAllMeans(ids[1..], w.(nodes := CordonSpec(w.nodes, ids[0], env.node(ids[0])).1), env);
      assert forall id :: id in ids <==> id == ids[0] || id in ids[1..];
    }
  }

  /** What a pass does on the way to a deletion: an outdated instance in the drain state was so in that state before, or
      the pass cordoned it; one in the terminate state was so in that state before, or the pass found it done with
      draining; and a pass deletes only outdated instances, in that state. */
  lemma PassPrepares(w: World, env: Env)
    requires !w.cfg.spot
    ensures var w' := EnsureCreated(w, env);
      && (w'.State() == DRAIN ==> forall id <- OldIds(w') ::
            id in OldIds(w) && (w.State() == DRAIN || (w.State() == CORDON && Secured(w, w'.nodes, id, env))))
      && (w'.State() == TERMINATE ==> forall id <- OldIds(w') ::
            id in OldIds(w) && (w.State() == TERMINATE || (w.State() == DRAIN && DoneDraining(w.nodes, id, w.now))))
      && w.history.deleted <= w'.history.deleted
      && (forall id <- w'.history.deleted[|w.history.deleted|..] :: w.State() == TERMINATE && id in OldIds(w))
  {
    match w.State()
    case CORDON => CordonPrepares(w, env);
    case DRAIN => DrainPrepares(w, env);
    case TERMINATE => TerminateDeletesOld(w, env);
    case UNKNOWN(_) => hide Transition;
    case _ => EarlyDeletesNone(w, env);
  }

  lemma CordonPrepares(w: World, env: Env)
    requires !w.cfg.spot && w.State() == CORDON
    ensures var w' := EnsureCreated(w, env);
      && (w'.State() == DRAIN ==> forall id <- OldIds(w') :: id in OldIds(w) && Secured(w, w'.nodes, id, env))
      && (w'.State() == TERMINATE ==> OldIds(w') == []) && w'.history.deleted == w.history.deleted
  {
    var s, w' := Cordon(w, env), EnsureCreated(w, env);
    PassCases(w, env);
    CordonCases(w, env);
    CordonAllMeans(OldIds(w), w, env);
    hide EnsureCreated, CordonAll, IsOld, Select, ScaleUp, Uninitialized, WaitForWorkers, Drain, Terminate, Secured;
    assert s.next == TERMINATE && !s.failed ==> OldIds(w) == [];
    assert s.next == DRAIN && !s.failed ==> forall id <- OldIds(w) :: Secured(w, s.world.nodes, id, env);
    assert s.world.history.deleted == w.history.deleted;
    hide Cordon;
    SameClassification(w, w');
  }

  lemma DrainPrepares(w: World, env: Env)
    requires !w.cfg.spot && w.State() == DRAIN
    ensures var w' := EnsureCreated(w, env);
      && OldIds(w') == OldIds(w)
      && (w'.State() == TERMINATE ==> forall id <- OldIds(w') :: DoneDraining(w.nodes, id, w.now))
      && w'.history.deleted == w.history.deleted
  {
    var s, w' := Drain(w, env), EnsureCreated(w, env);
    var d0 := Draining(false, true, w.nodes, w.evictions);
    PassCases(w, env);
    DrainCases(w, env);
    var d := DrainAll(OldIds(w), d0, w.now, env);
    if !d.failed && d.completed { DrainAllMeans(OldIds(w), d0, w.now, env); }
    hide EnsureCreated, DrainAll, IsOld, Select, ScaleUp, Uninitialized, WaitForWorkers, Cordon, Terminate,
        DoneDraining;
    assert s.next == TERMINATE && !s.failed ==> OldIds(w) == [] || (!d.failed && d.completed);
    assert s.world.history.deleted == w.history.deleted;
    hide Drain;
    SameClassification(w, w');
  }

  lemma TerminateDeletesOld(w: World, env: Env)
    requires !w.cfg.spot && w.State() == TERMINATE
    ensures var w' := EnsureCreated(w, env);
      && (forall id <- OldIds(w') :: id in OldIds(w)) && w.history.deleted <= w'.history.deleted
      && (forall id <- w'.history.deleted[|w.history.deleted|..] :: id in OldIds(w))
  {
    var w', gone := EnsureCreated(w, env), OldIds(w);
    TerminateCases(w, env);
    WithoutIsSubset(w.vmss.instances, gone);
    hide Terminate;
    assert w'.vmss.instances == w.vmss.instances || w'.vmss.instances == Without(w.vmss.instances, gone);
    hide Without;
    forall k | 0 <= k < |OldIds(w')| ensures OldIds(w')[k] in gone { OldIdsAreOld(w', k); StillOld(w, w', k); }
  }

  // ---------------------------------------------------------------- the trace of a run

  ghost predicate CordonedBy(w: World, w': World, id: nat) {
    w.State() == CORDON && exists env :: w' == EnsureCreated(w, env) && Secured(w, w'.nodes, id, env)
  }

  /** Pass c of the run cordoned the instance, and from then up to i the run is in the drain state. */
  ghost predicate CordonedAt(tr: seq<World>, c: nat, i: nat, id: nat)
    requires c < i < |tr|
  {
    CordonedBy(tr[c], tr[c + 1], id) && forall x :: c < x <= i ==> tr[x].State() == DRAIN
  }

  ghost predicate Cordoned(tr: seq<World>, i: nat, id: nat)
    requires i < |tr|
  {
    exists c: nat :: c < i && CordonedAt(tr, c, i, id)
  }

  /** Pass e of the run found the instance, cordoned before, done with draining, and from then up to i the run is in the
      terminate state. */
  ghost predicate DrainedAt(tr: seq<World>, e: nat, i: nat, id: nat)
    requires e < i < |tr|
  {
    && Cordoned(tr, e, id) && tr[e].State() == DRAIN && DoneDraining(tr[e].nodes, id, tr[e].now)
    && forall x :: e < x <= i ==> tr[x].State() == TERMINATE
  }

  ghost predicate Drained(tr: seq<World>, i: nat, id: nat)
    requires i < |tr|
  {
    exists e: nat :: e < i && DrainedAt(tr, e, i, id)
  }

  predicate InDrain(w: World) { w.State() == DRAIN || w.State() == TERMINATE }

  /** At step x the instance became outdated, by the environment, when the cordon pass was over. */
  predicate LateAt(tr: seq<World>, x: nat, i: nat, id: nat)
    requires x < i < |tr|
  {
    && id !in OldIds(tr[x]) && id in OldIds(tr[x + 1])
    && forall y :: x <= y <= i ==> InDrain(tr[y])
  }

  predicate Late(tr: seq<World>, i: nat, id: nat)
    requires i < |tr|
  {
    exists x: nat :: x < i && LateAt(tr, x, i, id)
  }

  /** What holds in a run: outdated instances were cordoned in the drain state and drained in the terminate state, but
      for those that became outdated late. */
  ghost predicate Prepared(tr: seq<World>, i: nat)
    requires i < |tr|
  {
    && (tr[i].State() == DRAIN ==> forall id <- OldIds(tr[i]) :: Cordoned(tr, i, id) || Late(tr, i, id))
    && (tr[i].State() == TERMINATE ==> forall id <- OldIds(tr[i]) :: Drained(tr, i, id) || Late(tr, i, id))
  }

  lemma LateStays(tr: seq<World>, i: nat, id: nat)
    requires i + 1 < |tr| && InDrain(tr[i]) && InDrain(tr[i + 1])
    ensures Late(tr, i, id) ==> Late(tr, i + 1, id)
    ensures id !in OldIds(tr[i]) && id in OldIds(tr[i + 1]) ==> Late(tr, i + 1, id)
  {
    hide OldIds, InDrain;
    if Late(tr, i, id) {
      var x: nat :| x < i && LateAt(tr, x, i, id);
      assert LateAt(tr, x, i + 1, id);
    }
    if id !in OldIds(tr[i]) && id in OldIds(tr[i + 1]) { assert LateAt(tr, i, i + 1, id); }
  }

  lemma CordonedStays(tr: seq<World>, i: nat, id: nat)
    requires i + 1 < |tr| && tr[i + 1].State() == DRAIN
    ensures Cordoned(tr, i, id) ==> Cordoned(tr, i + 1, id)
    ensures CordonedBy(tr[i], tr[i + 1], id) ==> Cordoned(tr, i + 1, id)
  {
    hide CordonedBy;
    if Cordoned(tr, i, id) {
      var c: nat :| c < i && CordonedAt(tr, c, i, id);
      assert CordonedAt(tr, c, i + 1, id);
    }
    if CordonedBy(tr[i], tr[i + 1], id) { assert CordonedAt(tr, i, i + 1, id); }
  }

  lemma DrainedStays(tr: seq<World>, i: nat, id: nat)
    requires i + 1 < |tr| && tr[i + 1].State() == TERMINATE
    ensures Drained(tr, i, id) ==> Drained(tr, i + 1, id)
    ensures Cordoned(tr, i, id) && tr[i].State() == DRAIN && DoneDraining(tr[i].nodes, id, tr[i].now) ==>
        Drained(tr, i + 1, id)
  {
    hide Cordoned, DoneDraining;
    if Drained(tr, i, id) {
      var e: nat :| e < i && DrainedAt(tr, e, i, id);
      assert DrainedAt(tr, e, i + 1, id);
    }
    if Cordoned(tr, i, id) && tr[i].State() == DRAIN && DoneDraining(tr[i].nodes, id, tr[i].now) {
      assert DrainedAt(tr, i, i + 1, id);
    }
  }

  lemma StepKeepsPrepared(tr: seq<World>, i: nat)
    requires i + 1 < |tr| && Prepared(tr, i) && !tr[i].cfg.spot
    requires Outside(tr[i], tr[i + 1]) || Pass(tr[i], tr[i + 1])
    ensures Prepared(tr, i + 1) && !tr[i + 1].cfg.spot
  {
    var w, w' := tr[i], tr[i + 1];
    if Outside(w, w') {
      hide OldIds, Cordoned, Drained, Late;
      forall id | InDrain(w') && id in OldIds(w')
        ensures w'.State() == DRAIN ==> Cordoned(tr, i + 1, id) || Late(tr, i + 1, id)
        ensures w'.State() == TERMINATE ==> Drained(tr, i + 1, id) || Late(tr, i + 1, id)
      {
        LateStays(tr, i, id);
        if w'.State() == DRAIN { CordonedStays(tr, i, id); } else { DrainedStays(tr, i, id); }
      }
    } else {
      var env :| w' == EnsureCreated(w, env);
      PassKeepsSettings(w, env);
      PassPrepares(w, env);
      hide OldIds, Cordoned, Drained, Late, EnsureCreated, DoneDraining, Secured;
      forall id | InDrain(w') && id in OldIds(w')
        ensures w'.State() == DRAIN ==> Cordoned(tr, i + 1, id) || Late(tr, i + 1, id)
        ensures w'.State() == TERMINATE ==> Drained(tr, i + 1, id) || Late(tr, i + 1, id)
      {
        if InDrain(w) { LateStays(tr, i, id); }
        if w'.State() == DRAIN { CordonedStays(tr, i, id); } else { DrainedStays(tr, i, id); }
      }
    }
  }

  lemma {:induction false} RunIsPrepared(tr: seq<World>, i: nat)
    requires OpenRun(tr) && i < |tr| && !tr[0].cfg.spot && tr[0].State() == UNINITIALIZED
    ensures !tr[i].cfg.spot && Prepared(tr, i)
  {
    hide Outside, Pass, OldIds, Cordoned, Drained, Late;
    if i > 0 {
      RunIsPrepared(tr, i - 1);
      assert Outside(tr[i - 1], tr[i - 1 + 1]) || Pass(tr[i - 1], tr[i - 1 + 1]);
      hide Prepared;
      StepKeepsPrepared(tr, i - 1);
    }
  }

  lemma PassKeepsSettings(w: World, env: Env)
    ensures EnsureCreated(w, env).cfg == w.cfg
  {
    if Known(w.State()) {
      PassCases(w, env);
      TransitionKeepsSettings(w, env);
      hide EnsureCreated, Transition;
    }
  }

  lemma TransitionKeepsSettings(w: World, env: Env)
    requires Known(w.State())
    ensures Transition(w, env).world.cfg == w.cfg
  {
    hide SetCapacity, GetNodeCount, Changes, NeedsRolling, Select, IsOld, DeleteInstances, DeleteNodes, CordonAll,
        DrainAll;
    match w.State()
    case UNINITIALIZED => hide ScaleUp, WaitForWorkers, Cordon, Drain, Terminate;
    case SCALE_UP => hide Uninitialized, WaitForWorkers, Cordon, Drain, Terminate;
    case WAIT_READY => hide Uninitialized, ScaleUp, Cordon, Drain, Terminate;
    case CORDON => hide Uninitialized, ScaleUp, WaitForWorkers, Drain, Terminate;
    case DRAIN => hide Uninitialized, ScaleUp, WaitForWorkers, Cordon, Terminate;
    case TERMINATE => hide Uninitialized, ScaleUp, WaitForWorkers, Cordon, Drain;
  }

  /** Main result on draining, on every run of an on-demand pool from the initial state: each instance that a pass
      deletes was cordoned, or found without a node, by an earlier cordon pass; the last drain pass after that found it
      without a node, without an evictable pod, or past the 15 minutes, by the nodes, pods and clock of that pass;
      or else it became outdated only when the cordon pass was over. */
  lemma DrainBeforeDelete(tr: seq<World>, i: nat)
    requires OpenRun(tr) && i + 1 < |tr| && !tr[0].cfg.spot && tr[0].State() == UNINITIALIZED
    ensures tr[i].history.deleted <= tr[i + 1].history.deleted
    ensures forall id <- tr[i + 1].history.deleted[|tr[i].history.deleted|..] :: Drained(tr, i, id) || Late(tr, i, id)
  {
    hide OldIds, EnsureCreated, Drained, Late, Cordoned;
    RunIsPrepared(tr, i);
    if !Outside(tr[i], tr[i + 1]) {
      assert Pass(tr[i], tr[i + 1]);
      var env :| tr[i + 1] == EnsureCreated(tr[i], env);
      hide OpenRun, DoneDraining, Secured;
      PassPrepares(tr[i], env);
    }
  }

  // ---------------------------------------------------------------- an instance that becomes outdated late

  const FIRST := Instance(0, "size", "old", None, "Succeeded")
  const OTHER := Instance(1, "size", "new", None, "Succeeded")

  function Rolling(stage: Stage, deployment: string, instances: seq<Instance>, image: string, submissions: nat): World {
    World(Settings(false, Version(5, 0, 0), "v1"),
          Vmss(2, instances, 2, "size", image, None, Some(Version(5, 0, 0)), true), Some(deployment),
          map[7 := Node(true, true, None, "v1", "", false, Missing, [])],
          [], Some(stage), 0, History([], submissions, 0))
  }

  function AllWell(): Env {
    Env(Granted, [], true, false, false, true, true, Found, Granted, Granted, true, true, true, true, true,
        _ => Api(true, Written, true, _ => Accepted), _ => true, Computed(["image"], Scaling(1, 3, 2)), Saved, Saved)
  }

  /** An upgrade of FIRST, which the environment takes away before it is cordoned; then the image of the scale set
      changes, in the terminate state. */
  function LateRun(): seq<World> {
    var both, one := [FIRST, OTHER], [OTHER];
    [ Rolling(UNINITIALIZED, "Succeeded", both, "new", 0),
      Rolling(SCALE_UP, "Accepted", both, "new", 1),
      Rolling(SCALE_UP, "Succeeded", both, "new", 1),
      Rolling(WAIT_READY, "Succeeded", both, "new", 1),
      Rolling(CORDON, "Succeeded", both, "new", 1),
      Rolling(CORDON, "Succeeded", one, "new", 1),
      Rolling(TERMINATE, "Succeeded", one, "new", 1),
      Rolling(TERMINATE, "Succeeded", one, "newer", 1),
      EnsureCreated(Rolling(TERMINATE, "Succeeded", one, "newer", 1), AllWell()) ]
  }

  lemma RollingOldIds(stage: Stage, deployment: string, n: nat)
    ensures OldIds(Rolling(stage, deployment, [FIRST, OTHER], "new", n)) == [0]
    ensures OldIds(Rolling(stage, deployment, [OTHER], "new", n)) == []
    ensures OldIds(Rolling(stage, deployment, [OTHER], "newer", n)) == [1]
  {
    assert "old"[0] != "new"[0] && |"newer"| != |"new"|;
    var w := Rolling(stage, deployment, [FIRST, OTHER], "new", n);
    var w1 := Rolling(stage, deployment, [OTHER], "new", n);
    var w2 := Rolling(stage, deployment, [OTHER], "newer", n);
    assert [FIRST, OTHER][..1] == [FIRST] && [FIRST][..0] == [] && [OTHER][..0] == [];
    assert Select(w, [FIRST], true) == [FIRST];
    assert Select(w1, [], true) == [] && Select(w2, [], true) == [];
    assert !IsOld(w1, OTHER) && IsOld(w2, OTHER);
    assert Select(w1, [OTHER], true) == [] && Select(w2, [OTHER], true) == [OTHER];
  }

  lemma FirstPasses()
    ensures EnsureCreated(LateRun()[0], AllWell()) == LateRun()[1]
    ensures EnsureCreated(LateRun()[2], AllWell()) == LateRun()[3]
  {
    RollingOldIds(SCALE_UP, "Succeeded", 1);
    assert "Accepted"[0] != "Succeeded"[0];
    hide OldIds, SetCapacity, GetNodeCount, WaitForWorkers, Cordon, Drain, Terminate;
  }

  lemma LastPasses()
    ensures EnsureCreated(LateRun()[3], AllWell()) == LateRun()[4]
    ensures EnsureCreated(LateRun()[5], AllWell()) == LateRun()[6]
    ensures LateRun()[8].history.deleted == [1]
  {
    RollingOldIds(CORDON, "Succeeded", 1);
    RollingOldIds(TERMINATE, "Succeeded", 1);
    hide OldIds, Uninitialized, ScaleUp, Drain, CordonAll, DeleteInstances, DeleteNodes;
    assert 7 in LateRun()[3].nodes && ReadyWorker(LateRun()[3].nodes[7]);
  }

  lemma LateRunIsOpen()
    ensures OpenRun(LateRun())
  {
    var tr := LateRun();
    FirstPasses();
    LastPasses();
    hide EnsureCreated;
    assert Pass(tr[0], tr[1]) && Outside(tr[1], tr[2]) && Pass(tr[2], tr[3]) && Pass(tr[3], tr[4]);
    assert Outside(tr[4], tr[5]) && Pass(tr[5], tr[6]) && Outside(tr[6], tr[7]) && Pass(tr[7], tr[8]);
    hide Pass, Outside, Rolling;
  }

  /** The exception is real: a run with good replies only, in which a pass deletes an instance that became outdated late
      and was neither cordoned nor drained. */
  lemma LateIsNotDrained()
    ensures var tr := LateRun();
      && OpenRun(tr) && |tr| == 9 && !tr[0].cfg.spot && tr[0].State() == UNINITIALIZED
      && tr[7].history.deleted == [] && tr[8].history.deleted == [1] && Late(tr, 7, 1) && !Drained(tr, 7, 1)
  {
    var tr := LateRun();
    LateRunIsOpen();
    LastPasses();
    RollingOldIds(TERMINATE, "Succeeded", 1);
    hide OldIds, EnsureCreated, OpenRun, Cordoned, DoneDraining;
    assert LateAt(tr, 6, 7, 1);
    assert forall x :: 0 <= x < 8 ==> tr[x].State() != DRAIN;
    hide LateRun;
  }

  // ---------------------------------------------------------------- the persisted state

  predicate Edge(spot: bool, a: Stage, b: Stage) {
    || (a == UNINITIALIZED && b == SCALE_UP)
    || (a == SCALE_UP && (b == UNINITIALIZED || b == WAIT_READY))
    || (a == WAIT_READY && b == if spot then TERMINATE else CORDON)
    || (a == CORDON && (b == TERMINATE || (b == DRAIN && !spot)))
    || (a == DRAIN && b == TERMINATE)
    || (a == TERMINATE && b == UNINITIALIZED)
    || (a.UNKNOWN? && b == SCALE_UP)
  }

  /** The closed world check after a transition never fires: handlers name known states only, and move
      along edges; none of them writes the annotation. */
  lemma HandlersMoveAlongEdges(w: World, env: Env)
    requires Known(w.State())
    ensures var s := Transition(w, env);
      && s.world.annotation == w.annotation && Known(s.next)
      && (s.failed || s.next == w.State() || Edge(w.cfg.spot, w.State(), s.next))
  {
    hide SetCapacity, GetNodeCount, Changes, NeedsRolling, Select, IsOld, DeleteInstances, DeleteNodes, CordonAll,
        DrainAll;
    match w.State()
    case UNINITIALIZED => hide ScaleUp, WaitForWorkers, Cordon, Drain, Terminate;
    case SCALE_UP => hide Uninitialized, WaitForWorkers, Cordon, Drain, Terminate;
    case WAIT_READY => hide Uninitialized, ScaleUp, Cordon, Drain, Terminate;
    case CORDON => hide Uninitialized, ScaleUp, WaitForWorkers, Drain, Terminate;
    case DRAIN => hide Uninitialized, ScaleUp, WaitForWorkers, Cordon, Terminate;
    case TERMINATE => hide Uninitialized, ScaleUp, WaitForWorkers, Cordon, Drain;
  }

  /** From any annotation a pass keeps the persisted state or moves along an edge; it is kept on every
      error, on a conflict and while masters are upgrading; an unknown state is left in one pass that
      can save. */
  lemma PersistedStateIsClosed(w: World, env: Env)
    ensures var w' := EnsureCreated(w, env);
      && (w'.annotation == w.annotation || (w'.annotation.Some? && Edge(w.cfg.spot, w.State(), w'.State())))
      && (!GateOpen(w.cfg, env) ==> w' == w)
      && (!env.save.Saved? ==> w'.annotation == w.annotation)
      && (Known(w.State()) && Transition(w, env).failed ==> w'.annotation == w.annotation)
      && (!Known(w.State()) && GateOpen(w.cfg, env) && env.save.Saved? ==> w' == w.(annotation := Some(SCALE_UP)))
  {
    if Known(w.State()) { HandlersMoveAlongEdges(w, env); }
    hide Transition;
  }

  lemma {:induction false} RunStaysKnown(tr: seq<World>, i: nat, j: nat)
    requires forall k :: 0 <= k < |tr| - 1 ==> tr[k + 1].annotation == tr[k].annotation || Pass(tr[k], tr[k + 1])
    requires i <= j < |tr| && Known(tr[i].State())
    ensures Known(tr[j].State())
    decreases j
  {
    hide EnsureCreated;
    if i < j {
      RunStaysKnown(tr, i, j - 1);
      if tr[j].annotation != tr[j - 1].annotation {
        var env :| tr[j] == EnsureCreated(tr[j - 1], env);
        PersistedStateIsClosed(tr[j - 1], env);
      }
    }
  }

  /** A pass that rolls nodes is one with a change other than scaling, as long as the difference lists
      "scaling" at most once. */
  lemma RollingIff(diff: seq<string>, s: Scaling, capacity: Option<int>)
    requires forall i, j :: 0 <= i < j < |diff| ==> !(diff[i] == diff[j] == "scaling")
    ensures NeedsRolling(Changes(diff, s, capacity)) <==> exists c <- diff :: c != "scaling"
  {
    if |diff| > 1 {
      assert diff[0] in diff && diff[1] in diff;
    }
    if |diff| == 1 { assert diff[0] in diff; }
  }
}
