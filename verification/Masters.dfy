/** One reconcile pass of the control plane machines
    (service/controller/azureconfig/handler/masters), as a function from the state of the world and the
    replies of the APIs to the next state of the world. */
module Masters {
  import opened Common
  import opened StatusStore

  const HANDLER := "masters"
  const STAGE := "Stage"
  const TEMPLATE_CHECKSUM := "TemplateChecksum"
  const PARAMETERS_CHECKSUM := "ParametersChecksum"

  datatype Stage = EMPTY | UNINITIALIZED | INITIALIZED | PROVISIONED | CHECK | UPGRADING | COMPLETED
                 | UNKNOWN(name: string)

  function Parse(s: string): Stage {
    if s == "" then EMPTY
    else if s == "DeploymentUninitialized" then UNINITIALIZED
    else if s == "DeploymentInitialized" then INITIALIZED
    else if s == "ProvisioningSuccessful" then PROVISIONED
    else if s == "ClusterUpgradeRequirementCheck" then CHECK
    else if s == "MasterInstancesUpgrading" then UPGRADING
    else if s == "DeploymentCompleted" then COMPLETED
    else UNKNOWN(s)
  }

  function Render(g: Stage): string {
    match g
    case EMPTY => ""
    case UNINITIALIZED => "DeploymentUninitialized"
    case INITIALIZED => "DeploymentInitialized"
    case PROVISIONED => "ProvisioningSuccessful"
    case CHECK => "ClusterUpgradeRequirementCheck"
    case UPGRADING => "MasterInstancesUpgrading"
    case COMPLETED => "DeploymentCompleted"
    case UNKNOWN(name) => name
  }

  lemma StageRoundTrip(g: Stage)
    requires !g.UNKNOWN?
    ensures Parse(Render(g)) == g
  {
    assert |Render(UNINITIALIZED)| == 23 && |Render(INITIALIZED)| == 21 && |Render(PROVISIONED)| == 22;
    assert |Render(CHECK)| == 30 && |Render(UPGRADING)| == 24 && |Render(COMPLETED)| == 19;
  }

  // ---------------------------------------------------------------- the world

  datatype Vm = Vm(id: nat, latestModel: bool, provisioning: Option<string>)

  /** A node of the cluster: the machine it runs on, whether it is a master, whether it is ready, and its
      release version. */
  datatype Node = Node(machine: nat, master: bool, ready: bool, version: string)

  datatype Op = Update(index: nat) | Reimage(index: nat)

  /** `status` is the status of the custom resource, `log` the operations started on machines. */
  datatype World = World(release: string, status: seq<Resource>, deployment: Option<string>, vmssUpToDate: bool,
                         vms: seq<Vm>, nodes: seq<Node>, submissions: nat, log: seq<Op>)
  {
    function Stage(): Stage { Parse(Get(status, HANDLER, STAGE)) }
    function Checksum(t: string): string { Get(status, HANDLER, t) }
  }

  datatype Access = Granted | Unavailable | Denied
  datatype Listing = Listed | NoClient | ListFailed
  datatype Rollout = AnyOld | AllCurrent | NoTenantClient | RolloutUnknown
  datatype Computed = Computed(template: string, parameters: string) | NotReady | ComputeFailed

  /** The replies of all APIs during one pass. */
  datatype Env = Env(
    readable: bool, setup: bool, deploymentGet: bool, tenant: Access, nodesList: Listing, vmssFound: bool,
    vmsList: bool,
    rollout: Rollout, clusterGet: bool, clusterCreated: bool, computed: Computed,
    submit: bool, writeTemplate: bool, writeParameters: bool, operation: bool, writeStage: bool, now: int)

  datatype Step = Step(world: World, next: Stage, failed: bool)

  function Stay(w: World): Step { Step(w, w.Stage(), false) }
  function Go(w: World, g: Stage): Step { Step(w, g, false) }
  function Fail(w: World): Step { Step(w, EMPTY, true) }

  // ---------------------------------------------------------------- the transitions

  function Store(w: World, t: string, s: string, now: int): World {
    w.(status := Set(w.status, HANDLER, t, s, now))
  }

  /** The end of the handler, with the deployment submitted: both checksums are stored unless empty. */
  function StoreChecksums(w: World, env: Env): Step
    requires env.computed.Computed?
  {
    if env.computed.template != "" && !env.writeTemplate then Fail(w)
    else
      var w1 := if env.computed.template != "" then Store(w, TEMPLATE_CHECKSUM, env.computed.template, env.now) else w;
      if env.computed.parameters != "" && !env.writeParameters then Fail(w1)
      else
        var w2 := if env.computed.parameters != ""
            then Store(w1, PARAMETERS_CHECKSUM, env.computed.parameters, env.now) else w1;
        Go(w2, INITIALIZED)
  }

  function Uninitialized(w: World, env: Env): Step {
    if !env.setup then Fail(w)
    else if env.computed.NotReady? then Stay(w)
    else if env.computed.ComputeFailed? || !env.submit then Fail(w)
    else StoreChecksums(w.(deployment := Some("Accepted"), submissions := w.submissions + 1), env)
  }

  function Initialized(w: World, env: Env): Step {
    if !env.setup || !env.deploymentGet then Fail(w)
    else if w.deployment.None? then Stay(w)
    else if w.deployment.value == "Succeeded" then Go(w, PROVISIONED)
    else if FailedState(w.deployment.value) then Go(w, EMPTY)
    else Stay(w)
  }

  function Check(w: World, env: Env): Step {
    if !env.setup then Fail(w)
    else if env.tenant.Unavailable? then Stay(w)
    else if env.tenant.Denied? then Fail(w)
    else if env.rollout.NoTenantClient? then Stay(w)
    else if env.rollout.RolloutUnknown? || !env.clusterGet then Fail(w)
    else if env.clusterCreated && env.rollout.AnyOld? then Go(w, UPGRADING)
    else Go(w, COMPLETED)
  }

  predicate Unchanged(w: World, env: Env)
    requires env.computed.Computed?
  {
    w.Checksum(TEMPLATE_CHECKSUM) == env.computed.template && w.Checksum(PARAMETERS_CHECKSUM) == env.computed.parameters
  }

  function Completed(w: World, env: Env): Step {
    if !env.setup || !env.deploymentGet then Fail(w)
    else if w.deployment.None? then Go(w, EMPTY)
    else if w.deployment.value != "Succeeded" then Go(w, EMPTY)
    else if env.tenant.Unavailable? then Stay(w)
    else if env.tenant.Denied? then Fail(w)
    else if env.rollout.NoTenantClient? then Stay(w)
    else if env.rollout.RolloutUnknown? then Fail(w)
    else if env.rollout.AnyOld? then Go(w, EMPTY)
    else if env.computed.NotReady? then Stay(w)
    else if env.computed.ComputeFailed? || !env.readable then Fail(w)
    else if Unchanged(w, env) then Stay(w)
    else Go(w, EMPTY)
  }

  // ---------------------------------------------------------------- rolling the masters

  /** All masters ready, and at least one of them. */
  predicate NodesReady(nodes: seq<Node>) {
    (exists n <- nodes :: n.master) && forall n <- nodes :: n.master ==> n.ready
  }

  /** The release version a machine runs, when its node is registered; the last node listed counts. */
  function VersionOf(nodes: seq<Node>, machine: nat): Option<string> {
    if nodes == [] then None
    else if nodes[|nodes| - 1].machine == machine then Some(nodes[|nodes| - 1].version)
    else VersionOf(nodes[..|nodes| - 1], machine)
  }

  predicate InFlight(v: Vm) { v.provisioning.Some? && v.provisioning.value != "Succeeded" }

  predicate Outdated(w: World, v: Vm) {
    var version := VersionOf(w.nodes, v.id);
    version.Some? && version.value != w.release
  }

  /** The first registered machine of another release, from index i on. */
  function FirstOutdated(w: World, i: nat): Option<nat>
    requires i <= |w.vms|
    decreases |w.vms| - i
  {
    if i == |w.vms| then None else if Outdated(w, w.vms[i]) then Some(i) else FirstOutdated(w, i + 1)
  }

  function Start(w: World, op: Op): World
    requires op.index < |w.vms|
  {
    w.(vms := w.vms[op.index := w.vms[op.index].(provisioning := Some("Updating"))], log := w.log + [op])
  }

  function OpFor(v: Vm, i: nat): Op { if v.latestModel then Reimage(i) else Update(i) }

  function Upgrading(w: World, env: Env): Step {
    if !env.setup || !w.vmssUpToDate then Go(w, EMPTY)
    else if env.tenant.Unavailable? then Stay(w)
    else if env.tenant.Denied? then Fail(w)
    else if env.nodesList.NoClient? then Stay(w)
    else if env.nodesList.ListFailed? then Fail(w)
    else if !NodesReady(w.nodes) then Stay(w)
    else if !env.vmssFound then Go(w, COMPLETED)
    else if !env.vmsList then Fail(w)
    else if exists v <- w.vms :: InFlight(v) then Stay(w)
    else
      var i := FirstOutdated(w, 0);
      if i.None? then Go(w, COMPLETED)
      else if i.value >= |w.vms| || !env.operation then Fail(w)
      else Stay(Start(w, OpFor(w.vms[i.value], i.value)))
  }

  // ---------------------------------------------------------------- the driver

  function Transition(w: World, env: Env): Step
    requires !w.Stage().UNKNOWN?
  {
    match w.Stage()
    case EMPTY => Go(w, UNINITIALIZED)
    case UNINITIALIZED => Uninitialized(w, env)
    case INITIALIZED => Initialized(w, env)
    case PROVISIONED => Go(w, CHECK)
    case CHECK => Check(w, env)
    case UPGRADING => Upgrading(w, env)
    case COMPLETED => Completed(w, env)
  }

  /** A pass. A stage this version does not know is an error, and so never left. */
  function EnsureCreated(w: World, env: Env): World {
    if !env.readable || w.Stage().UNKNOWN? then w
    else
      var s := Transition(w, env);
      if s.failed || s.next == w.Stage() || !env.writeStage then s.world
      else Store(s.world, STAGE, Render(s.next), env.now)
  }

  /** A pass fails when its status cannot be read or written, its stage is unknown, or its transition fails. */
  predicate Fails(w: World, env: Env) {
    || !env.readable || w.Stage().UNKNOWN? || Transition(w, env).failed
    || (Transition(w, env).next != w.Stage() && !env.writeStage)
  }

  /** The status changes at the three types of the handler only: every resource of another handler and
      every other type keep their values. */
  lemma PassKeepsOtherStatus(w: World, env: Env, name: string, t: string)
    requires name != HANDLER || (t != STAGE && t != TEMPLATE_CHECKSUM && t != PARAMETERS_CHECKSUM)
    ensures Lookup(EnsureCreated(w, env).status, name, t) == Lookup(w.status, name, t)
  {
    hide Set, Lookup, Parse, Upgrading;
    if env.readable && !w.Stage().UNKNOWN? {
      var s := Transition(w, env);
      SetIsMapUpdate(s.world.status, HANDLER, STAGE, Render(s.next), env.now, name, t);
      if w.Stage() == UNINITIALIZED && env.computed.Computed? {
        var c := env.computed;
        SetIsMapUpdate(w.status, HANDLER, TEMPLATE_CHECKSUM, c.template, env.now, name, t);
        SetIsMapUpdate(w.status, HANDLER, PARAMETERS_CHECKSUM, c.parameters, env.now, name, t);
        var w1 := Set(w.status, HANDLER, TEMPLATE_CHECKSUM, c.template, env.now);
        SetIsMapUpdate(w1, HANDLER, PARAMETERS_CHECKSUM, c.parameters, env.now, name, t);
      } else {
        hide Uninitialized;
        UpgradingKeepsStatus(w, env);
      }
    }
  }

  lemma UpgradingKeepsStatus(w: World, env: Env)
    ensures Upgrading(w, env).world.status == w.status
  {}
}
