/** The node pool handlers in their imperative form, each proved to do what its function in
    NodePool.dfy says. */
module NodePoolHandler {
  import opened Common
  import opened Drainer
  import NP = NodePool
  import opened NodePool
  import Runs = NodePoolRuns

  class Handler {
    const cfg: Settings
    const workload: WorkloadCluster
    var vmss: Vmss
    var deployment: Option<string>
    var annotation: Option<Stage>
    var now: int
    ghost var history: History

    ghost function View(): World
      reads this, workload
    {
      World(cfg, vmss, deployment, workload.nodes, workload.evictions, annotation, now, history)
    }

    constructor (w: World)
      ensures View() == w.(evictions := [])
    {
      cfg, vmss, deployment, annotation, now, history := w.cfg, w.vmss, w.deployment, w.annotation, w.now, w.history;
      workload := new WorkloadCluster(w.nodes);
    }

    // -------------------------------------------------------------- reading

    method IsMasterUpgrading(env: Env) returns (upgrading: bool, failed: bool)
      ensures upgrading || failed <==> !GateOpen(cfg, env)
    {
      if env.gate.Unavailable? { return true, false; }
      if env.gate.Denied? { return false, true; }
      for i := 0 to |env.clusterNodes|
        invariant forall j :: 0 <= j < i ==> !MasterOutdated(cfg, env.clusterNodes[j])
      {
        var node := env.clusterNodes[i];
        if node.role == "master" || node.kubernetesRole == "master" {
          if node.version != Some(cfg.version) { assert MasterOutdated(cfg, node); return true, false; }
          if !node.ready { assert MasterOutdated(cfg, node); return true, false; }
        }
      }
      return false, false;
    }

    method IsWorkerInstanceFromPreviousRelease(i: Instance) returns (r: bool)
      ensures r <==> i.id in workload.nodes && NodeOutdated(cfg, i, workload.nodes[i.id])
    {
      if i.id !in workload.nodes { return false; }
      var n := workload.nodes[i.id];
      if n.operatorVersion.Some? {
        if n.operatorVersion.value.LessThan(cfg.version) { return true; }
      }
      if n.cgroup != cfg.cgroup { return true; }
      if n.kubelet != "" && i.kubernetesTag.Some? && n.kubelet != "v" + i.kubernetesTag.value { return true; }
      return false;
    }

    method SplitInstancesByUpdatedStatus() returns (outdated: seq<Instance>, current: seq<Instance>)
      ensures outdated == Select(View(), vmss.instances, true)
      ensures current == Select(View(), vmss.instances, false)
      ensures Ids(outdated) == OldIds(View())
    {
      outdated, current := [], [];
      for k := 0 to |vmss.instances|
        invariant outdated == Select(View(), vmss.instances[..k], true)
        invariant current == Select(View(), vmss.instances[..k], false)
      {
        assert vmss.instances[..k + 1][..k] == vmss.instances[..k];
        var i := vmss.instances[k];
        var previous := IsWorkerInstanceFromPreviousRelease(i);
        var sizeChanged := i.size != vmss.size;
        var flatcarChanged := i.image != vmss.image;
        if previous || sizeChanged || flatcarChanged {
          outdated := outdated + [i];
        } else {
          current := current + [i];
        }
      }
      assert vmss.instances[..|vmss.instances|] == vmss.instances;
    }

    method InstancesAreRunning() returns (r: bool)
      ensures r <==> forall i <- vmss.instances :: i.provisioning == "Succeeded"
    {
      r := true;
      for k := 0 to |vmss.instances|
        invariant r <==> forall j :: 0 <= j < k ==> vmss.instances[j].provisioning == "Succeeded"
      {
        if vmss.instances[k].provisioning != "Succeeded" { r := false; }
      }
    }

    method CountReadyNodes() returns (n: nat)
      ensures n == |set id | id in workload.nodes && ReadyWorker(workload.nodes[id])|
    {
      n := 0;
      var todo := workload.nodes.Keys;
      ghost var counted: set<nat> := {};
      while todo != {}
        invariant todo <= workload.nodes.Keys
        invariant counted == set id | id in workload.nodes.Keys - todo && ReadyWorker(workload.nodes[id])
        invariant n == |counted|
      {
        var id :| id in todo;
        todo := todo - {id};
        if workload.nodes[id].worker && workload.nodes[id].ready {
          n := n + 1;
          counted := counted + {id};
        }
      }
      assert counted == set id | id in workload.nodes && ReadyWorker(workload.nodes[id]);
    }

    // -------------------------------------------------------------- the handlers

    method ScaleVMSS(desired: int, env: Env) returns (ok: bool)
      modifies this
      ensures ok == env.scaleWrite
      ensures View() == if ok then old(View()).(vmss := SetCapacity(old(vmss),
                                                                    GetNodeCount(old(vmss).capacity, desired)),
                                                history := old(history).(scalings := old(history).scalings + 1))
                              else old(View())
    {
      var computed := GetNodeCount(vmss.capacity, desired);
      if !env.scaleWrite { return false; }
      vmss := SetCapacity(vmss, computed);
      history := history.(scalings := history.scalings + 1);
      return true;
    }

    method ScaleUpWorkerVMSS(env: Env) returns (next: Stage, failed: bool)
      modifies this
      ensures Step(View(), next, failed) == NP.ScaleUp(old(View()), env)
    {
      var current := if annotation.Some? then annotation.value else UNINITIALIZED;
      if !env.setup { return UNINITIALIZED, true; }
      if env.poolDeleting { return current, false; }
      if !cfg.spot {
        if !env.instanceView { return UNINITIALIZED, true; }
        var allReady := InstancesAreRunning();
        if !allReady { return current, false; }
      }
      if !env.deploymentGet { return current, true; }
      if deployment.None? { return UNINITIALIZED, true; }
      if deployment.value == "Failed" || deployment.value == "Canceled" { return UNINITIALIZED, false; }
      if deployment.value != "Succeeded" { return current, false; }
      if env.vmssGet.NotFound? { return UNINITIALIZED, false; }
      if env.vmssGet.LookupFailed? { return current, true; }
      if vmss.operatorTag != Some(cfg.version) { return UNINITIALIZED, false; }
      if env.split.Unavailable? { return current, false; }
      if env.split.Denied? { return current, true; }
      hide NP.ScaleOrGo;
      next, failed := ScaleIfNeeded(env);
    }

    method ScaleIfNeeded(env: Env) returns (next: Stage, failed: bool)
      modifies this
      ensures Step(View(), next, failed) == ScaleOrGo(old(View()), env)
    {
      var current := if annotation.Some? then annotation.value else UNINITIALIZED;
      var outdated, newer := [], [];
      if !env.clusterDeleting {
        outdated, newer := SplitInstancesByUpdatedStatus();
        Runs.SelectCounts(View(), vmss.instances);
      }
      hide Select, IsOld, SetCapacity, GetNodeCount;
      var desired := |outdated| * 2;
      if desired == 0 { return UNINITIALIZED, false; }
      if desired > |outdated| + |newer| {
        if !env.autoscalerWrite { return UNINITIALIZED, true; }
        vmss := vmss.(autoscaler := false);
        var ok := ScaleVMSS(desired, env);
        if !ok { return UNINITIALIZED, true; }
        return current, false;
      }
      return WAIT_READY, false;
    }

    method WaitForWorkersToBecomeReady(env: Env) returns (next: Stage, failed: bool)
      ensures Step(View(), next, failed) == NP.WaitForWorkers(View(), env)
    {
      var current := if annotation.Some? then annotation.value else UNINITIALIZED;
      if !env.setup { return UNINITIALIZED, true; }
      if env.clusterDeleting { return current, false; }
      if cfg.spot { return TERMINATE, false; }
      if env.tenant.Unavailable? { return current, false; }
      if env.tenant.Denied? { return current, true; }
      if !env.listNodes { return UNINITIALIZED, true; }
      var n := CountReadyNodes();
      ghost var ready := set id | id in workload.nodes && ReadyWorker(workload.nodes[id]);
      assert forall id :: id in ready <==> id in workload.nodes && ReadyWorker(workload.nodes[id]);
      if ready != {} { var id :| id in ready; }
      if n < 1 { return current, false; }
      return CORDON, false;
    }

    method CordonOldWorkerInstances(env: Env) returns (next: Stage, failed: bool)
      modifies this, workload
      ensures Step(View(), next, failed) == NP.Cordon(old(View()), env)
    {
      var current := if annotation.Some? then annotation.value else UNINITIALIZED;
      if !env.setup { return UNINITIALIZED, true; }
      if env.clusterDeleting { return current, false; }
      if cfg.spot { return TERMINATE, false; }
      if !env.split.Granted? { return current, true; }
      var outdated, _ := SplitInstancesByUpdatedStatus();
      ghost var ids := OldIds(View());
      if |outdated| > 0 {
        if env.tenant.Unavailable? { return current, false; }
        if env.tenant.Denied? { return current, true; }
        hide Select, IsOld, OldIds;
        for k := 0 to |outdated|
          invariant View() == old(View()).(nodes := workload.nodes)
          invariant CordonAll(ids, old(View()).nodes, env) == CordonAll(ids[k..], workload.nodes, env)
        {
          assert ids[k..][0] == outdated[k].id && ids[k..][1..] == ids[k + 1..];
          var r := workload.CordonNode(outdated[k].id, env.node(outdated[k].id));
          if r.Fails() { return current, true; }
        }
        return DRAIN, false;
      }
      return TERMINATE, false;
    }

    method DrainOldWorkerInstances(env: Env) returns (next: Stage, failed: bool)
      modifies this, workload
      ensures Step(View(), next, failed) == NP.Drain(old(View()), env)
    {
      var current := if annotation.Some? then annotation.value else UNINITIALIZED;
      if !env.setup { return UNINITIALIZED, true; }
      if env.clusterDeleting { return current, false; }
      if cfg.spot { return TERMINATE, false; }
      if !env.split.Granted? { return current, true; }
      var outdated, _ := SplitInstancesByUpdatedStatus();
      ghost var ids := OldIds(View());
      if |outdated| > 0 {
        if env.tenant.Unavailable? { return current, false; }
        if env.tenant.Denied? { return current, true; }
        var completed := true;
        ghost var d0 := Draining(false, true, workload.nodes, workload.evictions);
        hide Select, IsOld, OldIds;
        for k := 0 to |outdated|
          invariant View() == old(View()).(nodes := workload.nodes, evictions := workload.evictions)
          invariant DrainAll(ids, d0, now, env) ==
                    DrainAll(ids[k..], Draining(false, completed, workload.nodes, workload.evictions), now, env)
        {
          assert ids[k..][0] == outdated[k].id && ids[k..][1..] == ids[k + 1..];
          var v := workload.DrainNode(outdated[k].id, DRAIN_TIMEOUT, now, env.node(outdated[k].id));
          if v.InProgress? {
            completed := false;
          } else if v.Failed? {
            return current, true;
          }
        }
        if completed { return TERMINATE, false; }
        return current, false;
      }
      return TERMINATE, false;
    }

    method TerminateOldWorkers(env: Env) returns (next: Stage, failed: bool)
      modifies this, workload
      ensures Step(View(), next, failed) == NP.Terminate(old(View()), env)
    {
      var current := if annotation.Some? then annotation.value else UNINITIALIZED;
      if !env.setup { return UNINITIALIZED, true; }
      if env.clusterDeleting { return current, false; }
      if !env.split.Granted? { return current, true; }
      var outdated, _ := SplitInstancesByUpdatedStatus();
      ghost var gone := OldIds(View());
      hide Select, IsOld, OldIds;
      if |outdated| > 0 {
        var ids: seq<nat> := [];
        for k := 0 to |outdated|
          invariant ids == gone[..k]
        {
          ids := ids + [outdated[k].id];
        }
        assert gone[..|outdated|] == gone;
        if !env.deleteWrite { return current, true; }
        vmss := DeleteInstances(vmss, ids);
        history := history.(deleted := history.deleted + ids);
        if cfg.spot {
          if !env.tenant.Granted? { return current, true; }
          ghost var nodes := workload.nodes;
          label deleting:
          for k := 0 to |ids|
            invariant View() == old@deleting(View()).(nodes := workload.nodes)
            invariant DeleteNodes(ids, nodes, env) == DeleteNodes(ids[k..], workload.nodes, env)
          {
            assert ids[k..][0] == ids[k] && ids[k..][1..] == ids[k + 1..];
            var deletable := env.deleteNode(ids[k]);
            if ids[k] !in workload.nodes || !deletable { return current, true; }
            workload.nodes := workload.nodes - {ids[k]};
          }
        }
        return current, false;
      }
      if !env.autoscalerWrite { return UNINITIALIZED, true; }
      vmss := vmss.(autoscaler := true);
      return UNINITIALIZED, false;
    }

    method DeploymentUninitialized(env: Env) returns (next: Stage, failed: bool)
      modifies this
      ensures Step(View(), next, failed) == NP.Uninitialized(old(View()), env)
    {
      var current := if annotation.Some? then annotation.value else UNINITIALIZED;
      if !env.setup { return current, true; }
      if env.poolDeleting || env.clusterDeleting { return current, false; }
      if env.vmssGet.LookupFailed? { return current, true; }
      if env.desired.NotReady? { return current, false; }
      if env.desired.ComputeFailed? || !env.deploymentGet { return current, true; }
      var needed, rolled := deployment.None?, false;
      if !needed {
        var changes := env.desired.diff;
        if "scaling" !in changes {
          if env.desired.scaling.min == env.desired.scaling.max && env.vmssGet.Found?
             && env.desired.scaling.current != Int32(vmss.capacity) {
            changes := changes + ["scaling"];
          }
        }
        needed := |changes| > 0;
        rolled := |changes| > 1 || (|changes| == 1 && "scaling" !in changes);
      }
      if needed {
        if !env.submit { return current, true; }
        SubmitDeployment();
        if rolled { return SCALE_UP, false; }
        return current, false;
      }
      if env.saveIds.Conflict? { return current, false; }
      if env.saveIds.SaveFailed? { return current, true; }
      if deployment.value == "Failed" || deployment.value == "Canceled" {
        if !env.submit { return current, true; }
        SubmitDeployment();
      }
      return current, false;
    }

    method SubmitDeployment()
      modifies this
      ensures View() == Submit(old(View()))
    {
      deployment := Some("Accepted");
      history := history.(submissions := history.submissions + 1);
    }

    // -------------------------------------------------------------- the driver

    method Execute(current: Stage, env: Env) returns (next: Stage, failed: bool)
      requires current == View().State() && Known(current)
      modifies this, workload
      ensures Step(View(), next, failed) == NP.Transition(old(View()), env)
    {
      match current
      case UNINITIALIZED => next, failed := DeploymentUninitialized(env);
      case SCALE_UP => next, failed := ScaleUpWorkerVMSS(env);
      case WAIT_READY => next, failed := WaitForWorkersToBecomeReady(env);
      case CORDON => next, failed := CordonOldWorkerInstances(env);
      case DRAIN => next, failed := DrainOldWorkerInstances(env);
      case TERMINATE => next, failed := TerminateOldWorkers(env);
    }

    method EnsureCreated(env: Env)
      modifies this, workload
      ensures View() == NP.EnsureCreated(old(View()), env)
    {
      hide NP.Transition;
      var upgrading, broken := IsMasterUpgrading(env);
      if broken { return; }
      if upgrading { return; }
      var current := if annotation.Some? then annotation.value else UNINITIALIZED;
      var next := SCALE_UP;
      if !current.UNKNOWN? {
        var failed;
        next, failed := Execute(current, env);
        if failed { return; }
      }
      if next != current && env.save.Saved? {
        annotation := Some(next);
      }
    }
  }
}
