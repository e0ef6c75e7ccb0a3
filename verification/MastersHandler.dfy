/** The control plane handlers in their imperative form, each proved to do what its function in Masters.dfy
    says. */
module MastersHandler {
  import opened Common
  import opened StatusStore
  import opened Masters

  class Handler {
    const release: string
    const holder: StatusHolder
    var deployment: Option<string>
    var vmssUpToDate: bool
    var vms: seq<Vm>
    var nodes: seq<Node>
    var submissions: nat
    var log: seq<Op>

    function View(): World
      reads this, holder
    {
      World(release, holder.resources, deployment, vmssUpToDate, vms, nodes, submissions, log)
    }

    constructor (w: World)
      ensures View() == w && fresh(holder)
    {
      release, deployment, vmssUpToDate, vms := w.release, w.deployment, w.vmssUpToDate, w.vms;
      nodes, submissions, log := w.nodes, w.submissions, w.log;
      holder := new StatusHolder(w.status);
    }

    // -------------------------------------------------------------- rolling the masters

    method AreNodesReadyForUpgrading() returns (r: bool)
      ensures r <==> NodesReady(nodes)
    {
      var numNodes := 0;
      for i := 0 to |nodes|
        invariant numNodes > 0 <==> exists j :: 0 <= j < i && nodes[j].master
        invariant forall j :: 0 <= j < i && nodes[j].master ==> nodes[j].ready
        invariant 0 <= numNodes
      {
        if nodes[i].master {
          numNodes := numNodes + 1;
          if !nodes[i].ready { return false; }
        }
      }
      return numNodes > 0;
    }

    /** The versions by machine; a later node replaces an earlier one of the same machine. */
    method NodeVersions() returns (versions: map<nat, string>)
      ensures forall id: nat :: VersionOf(nodes, id) == if id in versions then Some(versions[id]) else None
    {
      versions := map[];
      for i := 0 to |nodes|
        invariant forall id: nat :: VersionOf(nodes[..i], id) == if id in versions then Some(versions[id]) else None
      {
        assert nodes[..i + 1][..i] == nodes[..i];
        versions := versions[nodes[i].machine := nodes[i].version];
      }
      assert nodes[..|nodes|] == nodes;
    }

    /** Starting an operation on machine i, unless the API refuses. */
    method StartOperation(op: Op, accepted: bool) returns (failed: bool)
      requires op.index < |vms|
      modifies this`vms, this`log
      ensures failed == !accepted
      ensures View() == if accepted then Start(old(View()), op) else old(View())
    {
      if !accepted { return true; }
      vms := vms[op.index := vms[op.index].(provisioning := Some("Updating"))];
      log := log + [op];
      return false;
    }

    method MasterInstancesUpgrading(env: Env) returns (next: Stage, failed: bool)
      requires View().Stage() == UPGRADING
      modifies this`vms, this`log
      ensures Step(View(), next, failed) == Upgrading(old(View()), env)
    {
      hide Get, Parse, Outdated, VersionOf;
      if !env.setup || !vmssUpToDate { return EMPTY, false; }
      if env.tenant.Unavailable? { return UPGRADING, false; }
      if env.tenant.Denied? { return EMPTY, true; }
      if env.nodesList.NoClient? { return UPGRADING, false; }
      if env.nodesList.ListFailed? { return EMPTY, true; }
      var ready := AreNodesReadyForUpgrading();
      if !ready { return UPGRADING, false; }
      var versions := NodeVersions();
      var masterUpgradeInProgress := false;
      if env.vmssFound {
        if !env.vmsList { return EMPTY, true; }
        for i := 0 to |vms|
          invariant View() == old(View())
          invariant forall j :: 0 <= j < i ==> !InFlight(vms[j])
        {
          if vms[i].provisioning.Some? && vms[i].provisioning.value != "Succeeded" {
            assert InFlight(vms[i]);
            return UPGRADING, false;
          }
        }
        ghost var w := View();
        var n := |vms|;
        var i := 0;
        while i < n
          invariant 0 <= i <= n == |w.vms|
          invariant View() == w && FirstOutdated(w, 0) == FirstOutdated(w, i) && !masterUpgradeInProgress
        {
          var id := vms[i].id;
          OutdatedMeans(w, i, versions);
          if id !in versions { i := i + 1; continue; }
          if release == versions[id] { i := i + 1; continue; }
          masterUpgradeInProgress := true;
          if !vms[i].latestModel {
            failed := StartOperation(Update(i), env.operation);
          } else {
            failed := StartOperation(Reimage(i), env.operation);
          }
          if failed { return EMPTY, true; }
          return UPGRADING, false;
        }
      }
      return COMPLETED, false;
    }

    lemma OutdatedMeans(w: World, i: nat, versions: map<nat, string>)
      requires i < |w.vms|
      requires forall id: nat :: VersionOf(w.nodes, id) == if id in versions then Some(versions[id]) else None
      ensures var id := w.vms[i].id; Outdated(w, w.vms[i]) <==> id in versions && w.release != versions[id]
    {}

    // -------------------------------------------------------------- submitting

    method DeploymentUninitialized(env: Env) returns (next: Stage, failed: bool)
      requires env.readable && View().Stage() == UNINITIALIZED
      modifies this`deployment, this`submissions, holder
      ensures Step(View(), if failed then EMPTY else next, failed) == Uninitialized(old(View()), env)
    {
      hide Get, Parse, Set;
      if !env.setup { return UNINITIALIZED, true; }
      if env.computed.NotReady? { return UNINITIALIZED, false; }
      if env.computed.ComputeFailed? || !env.submit { return UNINITIALIZED, true; }
      deployment, submissions := Some("Accepted"), submissions + 1;
      if env.computed.template != "" {
        failed := holder.SetResourceStatus(
          HANDLER, TEMPLATE_CHECKSUM, env.computed.template, env.now, env.readable, env.writeTemplate);
        if failed { return UNINITIALIZED, true; }
      }
      if env.computed.parameters != "" {
        failed := holder.SetResourceStatus(
          HANDLER, PARAMETERS_CHECKSUM, env.computed.parameters, env.now, env.readable, env.writeParameters);
        if failed { return UNINITIALIZED, true; }
      }
      return INITIALIZED, false;
    }

    // -------------------------------------------------------------- the stages that wait

    method DeploymentInitialized(env: Env) returns (next: Stage, failed: bool)
      requires View().Stage() == INITIALIZED
      ensures Step(View(), if failed then EMPTY else next, failed) == Initialized(View(), env)
    {
      hide Get, Parse;
      if !env.setup || !env.deploymentGet { return EMPTY, true; }
      if deployment.None? { return INITIALIZED, false; }
      if deployment.value != "Succeeded" {
        if FinalState(deployment.value) { return EMPTY, false; }
        return INITIALIZED, false;
      }
      return PROVISIONED, false;
    }

    method ClusterUpgradeRequirementCheck(env: Env) returns (next: Stage, failed: bool)
      requires View().Stage() == CHECK
      ensures Step(View(), if failed then EMPTY else next, failed) == Check(View(), env)
    {
      hide Get, Parse;
      if !env.setup { return EMPTY, true; }
      if env.tenant.Unavailable? { return CHECK, false; }
      if env.tenant.Denied? { return EMPTY, true; }
      if env.rollout.NoTenantClient? { return CHECK, false; }
      if env.rollout.RolloutUnknown? { return EMPTY, true; }
      var anyOldNodes := env.rollout.AnyOld?;
      if !env.clusterGet { return EMPTY, true; }
      if env.clusterCreated && anyOldNodes { return UPGRADING, false; }
      return COMPLETED, false;
    }

    method DeploymentCompleted(env: Env) returns (next: Stage, failed: bool)
      requires env.readable && View().Stage() == COMPLETED
      ensures Step(View(), if failed then EMPTY else next, failed) == Completed(View(), env)
    {
      hide Get, Parse;
      if !env.setup || !env.deploymentGet { return EMPTY, true; }
      if deployment.None? { return EMPTY, false; }
      if deployment.value == "Succeeded" {
        if env.tenant.Unavailable? { return COMPLETED, false; }
        if env.tenant.Denied? { return EMPTY, true; }
        if env.rollout.NoTenantClient? { return COMPLETED, false; }
        if env.rollout.RolloutUnknown? { return EMPTY, true; }
        if env.rollout.AnyOld? { return EMPTY, false; }
        if env.computed.NotReady? { return COMPLETED, false; }
        if env.computed.ComputeFailed? { return EMPTY, true; }
        var template, _ := holder.GetResourceStatus(HANDLER, TEMPLATE_CHECKSUM, env.readable);
        var parameters, _ := holder.GetResourceStatus(HANDLER, PARAMETERS_CHECKSUM, env.readable);
        if template != env.computed.template || parameters != env.computed.parameters { return EMPTY, false; }
        return COMPLETED, false;
      } else if FinalState(deployment.value) {
        return EMPTY, false;
      }
      return EMPTY, false;
    }

    // -------------------------------------------------------------- the driver

    method Execute(stage: Stage, env: Env) returns (next: Stage, failed: bool)
      requires env.readable && stage == View().Stage()
      modifies this`deployment, this`submissions, this`vms, this`log, holder
      ensures stage.UNKNOWN? ==> failed && View() == old(View())
      ensures !stage.UNKNOWN? ==> Step(View(), if failed then EMPTY else next, failed) == Transition(old(View()), env)
    {
      hide Get, Parse, Set, Upgrading, Uninitialized;
      match stage
      case UNKNOWN(_) => return EMPTY, true;
      case EMPTY => return UNINITIALIZED, false;
      case UNINITIALIZED => next, failed := DeploymentUninitialized(env);
      case UPGRADING => next, failed := MasterInstancesUpgrading(env); FailsToEmpty(old(View()), env);
      case INITIALIZED => next, failed := DeploymentInitialized(env);
      case PROVISIONED => return CHECK, false;
      case CHECK => next, failed := ClusterUpgradeRequirementCheck(env);
      case COMPLETED => next, failed := DeploymentCompleted(env);
    }

    lemma FailsToEmpty(w: World, env: Env)
      ensures Upgrading(w, env).failed ==> Upgrading(w, env).next == EMPTY
    {}

    /** A pass: read the stage, execute its transition, and store the next one when it is another. */
    method EnsureCreated(env: Env) returns (failed: bool)
      modifies this`deployment, this`submissions, this`vms, this`log, holder
      ensures View() == Masters.EnsureCreated(old(View()), env)
      ensures failed <==> Fails(old(View()), env)
    {
      hide Get, Parse, Set, Transition;
      var s, unread := holder.GetResourceStatus(HANDLER, STAGE, env.readable);
      if unread { return true; }
      var current := Parse(s);
      var next;
      next, failed := Execute(current, env);
      if failed { return true; }
      if next != current {
        failed := holder.SetResourceStatus(HANDLER, STAGE, Render(next), env.now, env.readable, env.writeStage);
      }
    }
  }
}
