/** One reconcile pass of a node pool (service/controller/azuremachinepool/handler/nodepool), as a
    function from the state of the world and the replies of the APIs to the next state of the world.
    NodePoolHandler.dfy has the handlers in their imperative form, proved equal to these functions. */
module NodePool {
  import opened Common
  import opened Drainer

  /** The persisted states; a string that is not one of them is a state of another version. */
  datatype Stage = UNINITIALIZED | SCALE_UP | WAIT_READY | CORDON | DRAIN | TERMINATE | UNKNOWN(name: string)

  function Parse(s: string): Stage {
    if s == "" then UNINITIALIZED
    else if s == "ScaleUpWorkerVMSS" then SCALE_UP
    else if s == "WaitForWorkersToBecomeReady" then WAIT_READY
    else if s == "CordonOldWorkerInstances" then CORDON
    else if s == "DrainOldWorkerInstances" then DRAIN
    else if s == "TerminateOldWorkerInstances" then TERMINATE
    else UNKNOWN(s)
  }

  function Render(s: Stage): string {
    match s
    case UNINITIALIZED => ""
    case SCALE_UP => "ScaleUpWorkerVMSS"
    case WAIT_READY => "WaitForWorkersToBecomeReady"
    case CORDON => "CordonOldWorkerInstances"
    case DRAIN => "DrainOldWorkerInstances"
    case TERMINATE => "TerminateOldWorkerInstances"
    case UNKNOWN(name) => name
  }

  /** Working on stages instead of annotation strings loses nothing. */
  lemma AnnotationRoundTrip(s: string, g: Stage)
    ensures Render(Parse(s)) == s
    ensures !g.UNKNOWN? ==> Parse(Render(g)) == g
  {
    assert Render(CORDON)[0] == 'C' && Render(DRAIN)[0] == 'D' && Render(TERMINATE)[0] == 'T';
    assert Render(SCALE_UP)[0] == 'S' && Render(WAIT_READY)[0] == 'W';
  }

  const DRAIN_TIMEOUT: int := 15 * MINUTE
  const SAFE_THRESHOLD: int := 5

  predicate Known(s: Stage) { !s.UNKNOWN? }

  // ---------------------------------------------------------------- the world

  datatype Settings = Settings(spot: bool, version: Version, cgroup: string)

  datatype Instance = Instance(id: nat, size: string, image: string, kubernetesTag: Option<string>,
                               provisioning: string)

  datatype Vmss = Vmss(capacity: int, instances: seq<Instance>, nextId: nat, size: string, image: string,
                       kubernetesTag: Option<string>, operatorTag: Option<Version>, autoscaler: bool)

  /** What the passes did so far: the ids handed to DeleteInstances, the number of submitted deployments and of scaling
      passes. */
  datatype History = History(deleted: seq<nat>, submissions: nat, scalings: nat)

  /** `deployment` is the provisioning state of the ARM deployment, None when there is none;
      `annotation` is the persisted state of the machine. */
  datatype World = World(cfg: Settings, vmss: Vmss, deployment: Option<string>, nodes: map<nat, Node>,
                         evictions: seq<Pod>, annotation: Option<Stage>, now: int, history: History)
  {
    function State(): Stage { if annotation.Some? then annotation.value else UNINITIALIZED }
  }

  /** A node as the check for upgrading masters sees it: its two role labels and its version label. */
  datatype ClusterNode = ClusterNode(role: string, kubernetesRole: string, version: Option<Version>, ready: bool)

  datatype Access = Granted | Unavailable | Denied
  datatype Lookup = Found | NotFound | LookupFailed
  datatype Save = Saved | Conflict | SaveFailed
  datatype Scaling = Scaling(min: int, max: int, current: int)
  datatype Desired = Computed(diff: seq<string>, scaling: Scaling) | NotReady | ComputeFailed

  /** The replies of all APIs during one pass. */
  datatype Env = Env(
    gate: Access, clusterNodes: seq<ClusterNode>,       // check for upgrading masters
    setup: bool, poolDeleting: bool, clusterDeleting: bool,
    instanceView: bool, deploymentGet: bool, vmssGet: Lookup, split: Access, tenant: Access, listNodes: bool,
    autoscalerWrite: bool, scaleWrite: bool, deleteWrite: bool, submit: bool,
    node: nat -> Api, deleteNode: nat -> bool,
    desired: Desired, saveIds: Save, save: Save)

  datatype Step = Step(world: World, next: Stage, failed: bool)

  function Stay(w: World): Step { Step(w, w.State(), false) }
  function Go(w: World, s: Stage): Step { Step(w, s, false) }
  function Fail(w: World, s: Stage): Step { Step(w, s, true) }

  // ---------------------------------------------------------------- old and new instances

  predicate NodeOutdated(cfg: Settings, i: Instance, n: Node) {
    || (n.operatorVersion.Some? && n.operatorVersion.value.LessThan(cfg.version))
    || n.cgroup != cfg.cgroup
    || (n.kubelet != "" && i.kubernetesTag.Some? && n.kubelet != "v" + i.kubernetesTag.value)
  }

  /** An instance without a node is never outdated by version, only by size or image. */
  predicate IsOld(w: World, i: Instance) {
    || (i.id in w.nodes && NodeOutdated(w.cfg, i, w.nodes[i.id]))
    || i.size != w.vmss.size
    || i.image != w.vmss.image
  }

  /** The outdated instances of `s`, or the other ones, in order. */
  function Select(w: World, s: seq<Instance>, outdated: bool): seq<Instance> {
    if s == [] then [] else
    var rest := Select(w, s[..|s| - 1], outdated);
    if IsOld(w, s[|s| - 1]) == outdated then rest + [s[|s| - 1]] else rest
  }

  function Ids(s: seq<Instance>): (r: seq<nat>)
    ensures |r| == |s| && forall k :: 0 <= k < |s| ==> r[k] == s[k].id
  {
    seq(|s|, k requires 0 <= k < |s| => s[k].id)
  }

  function OldIds(w: World): seq<nat> { Ids(Select(w, w.vmss.instances, true)) }
  function NewIds(w: World): seq<nat> { Ids(Select(w, w.vmss.instances, false)) }

  // ---------------------------------------------------------------- scaling

  function GetNodeCount(current: int, desired: int): int {
    if current >= desired then desired
    else if desired - current > SAFE_THRESHOLD then current + SAFE_THRESHOLD
    else desired
  }

  /** New instances of a scale set, with ids never used before, from its own size and image. */
  function Created(v: Vmss, n: nat): (r: seq<Instance>)
    ensures |r| == n
    ensures forall k :: 0 <= k < n ==> r[k] == Instance(v.nextId + k, v.size, v.image, v.kubernetesTag, "Creating")
  {
    seq(n, k requires 0 <= k => Instance(v.nextId + k, v.size, v.image, v.kubernetesTag, "Creating"))
  }

  /** The scale set follows its capacity: it creates instances or drops instances from the end. */
  function SetCapacity(v: Vmss, c: int): Vmss {
    var n := |v.instances|;
    if c >= n then
      v.(capacity := c,
         instances := v.instances + Created(v, c - n),
         nextId := v.nextId + (c - n))
    else
      v.(capacity := c, instances := v.instances[..if c < 0 then 0 else c])
  }

  /** The end of the handler, once the deployment is known to be in place: scale up while there are less
      than two instances for each outdated one. A cluster being deleted counts as empty. */
  function ScaleOrGo(w: World, env: Env): Step {
    var outdated := if env.clusterDeleting then 0 else |OldIds(w)|;
    var total := if env.clusterDeleting then 0 else |w.vmss.instances|;
    if 2 * outdated == 0 then Go(w, UNINITIALIZED)
    else if 2 * outdated > total then
      if !env.autoscalerWrite then Fail(w, UNINITIALIZED)
      else
        var w1 := w.(vmss := w.vmss.(autoscaler := false));
        if !env.scaleWrite then Fail(w1, UNINITIALIZED)
        else Stay(w1.(vmss := SetCapacity(w1.vmss, GetNodeCount(w1.vmss.capacity, 2 * outdated)),
                      history := w1.history.(scalings := w1.history.scalings + 1)))
    else Go(w, WAIT_READY)
  }

  function ScaleUp(w: World, env: Env): Step {
    if !env.setup then Fail(w, UNINITIALIZED)
    else if env.poolDeleting then Stay(w)
    else if !w.cfg.spot && !env.instanceView then Fail(w, UNINITIALIZED)
    else if !w.cfg.spot && exists i <- w.vmss.instances :: i.provisioning != "Succeeded" then Stay(w)
    else if !env.deploymentGet then Fail(w, w.State())
    else if w.deployment.None? then Fail(w, UNINITIALIZED)
    else if FailedState(w.deployment.value) then Go(w, UNINITIALIZED)
    else if w.deployment.value != "Succeeded" then Stay(w)
    else if env.vmssGet.NotFound? then Go(w, UNINITIALIZED)
    else if env.vmssGet.LookupFailed? then Fail(w, w.State())
    else if w.vmss.operatorTag != Some(w.cfg.version) then Go(w, UNINITIALIZED)
    else if env.split.Unavailable? then Stay(w)
    else if env.split.Denied? then Fail(w, w.State())
    else ScaleOrGo(w, env)
  }

  // ---------------------------------------------------------------- waiting, cordoning, draining

  predicate ReadyWorker(n: Node) { n.worker && n.ready }

  function WaitForWorkers(w: World, env: Env): Step {
    if !env.setup then Fail(w, UNINITIALIZED)
    else if env.clusterDeleting then Stay(w)
    else if w.cfg.spot then Go(w, TERMINATE)
    else if env.tenant.Unavailable? then Stay(w)
    else if env.tenant.Denied? then Fail(w, w.State())
    else if !env.listNodes then Fail(w, UNINITIALIZED)
    else if exists id <- w.nodes :: ReadyWorker(w.nodes[id]) then Go(w, CORDON)
    else Stay(w)
  }

  /** The loop over the old nodes stops at the first node that cannot be cordoned. */
  function CordonAll(ids: seq<nat>, nodes: map<nat, Node>, env: Env): (bool, map<nat, Node>) {
    if ids == [] then (false, nodes)
    else
      var (o, nodes') := CordonSpec(nodes, ids[0], env.node(ids[0]));
      if o.Fails() then (true, nodes') else CordonAll(ids[1..], nodes', env)
  }

  function Cordon(w: World, env: Env): Step {
    if !env.setup then Fail(w, UNINITIALIZED)
    else if env.clusterDeleting then Stay(w)
    else if w.cfg.spot then Go(w, TERMINATE)
    else if !env.split.Granted? then Fail(w, w.State())
    else if OldIds(w) == [] then Go(w, TERMINATE)
    else if env.tenant.Unavailable? then Stay(w)
    else if env.tenant.Denied? then Fail(w, w.State())
    else
      var (failed, nodes) := CordonAll(OldIds(w), w.nodes, env);
      var w' := w.(nodes := nodes);
      if failed then Fail(w', w.State()) else Go(w', DRAIN)
  }

  /** State of the loop over the old nodes in a drain pass. */
  datatype Draining = Draining(failed: bool, completed: bool, nodes: map<nat, Node>, evictions: seq<Pod>)

  /** Draining goes on after a node that is in progress or timed out, and stops at an error. */
  function DrainAll(ids: seq<nat>, d: Draining, now: int, env: Env): Draining
    requires !d.failed
  {
    if ids == [] then d
    else
      var (v, nodes, sent) := DrainSpec(d.nodes, ids[0], DRAIN_TIMEOUT, now, env.node(ids[0]));
      var d' := Draining(v.Failed?, d.completed && !v.InProgress?, nodes, d.evictions + sent);
      if v.Failed? then d' else DrainAll(ids[1..], d', now, env)
  }

  function Drain(w: World, env: Env): Step {
    if !env.setup then Fail(w, UNINITIALIZED)
    else if env.clusterDeleting then Stay(w)
    else if w.cfg.spot then Go(w, TERMINATE)
    else if !env.split.Granted? then Fail(w, w.State())
    else if OldIds(w) == [] then Go(w, TERMINATE)
    else if env.tenant.Unavailable? then Stay(w)
    else if env.tenant.Denied? then Fail(w, w.State())
    else
      var d := DrainAll(OldIds(w), Draining(false, true, w.nodes, w.evictions), w.now, env);
      var w' := w.(nodes := d.nodes, evictions := d.evictions);
      if d.failed then Fail(w', w.State())
      else if d.completed then Go(w', TERMINATE)
      else Stay(w')
  }

  // ---------------------------------------------------------------- terminating

  function Without(s: seq<Instance>, ids: seq<nat>): seq<Instance> {
    if s == [] then [] else
    var rest := Without(s[..|s| - 1], ids);
    if s[|s| - 1].id in ids then rest else rest + [s[|s| - 1]]
  }

  /** Deleting instances lowers the capacity of the scale set with them. */
  function DeleteInstances(v: Vmss, ids: seq<nat>): Vmss {
    var left := Without(v.instances, ids);
    v.(instances := left, capacity := v.capacity - (|v.instances| - |left|))
  }

  /** Spot pools also delete the nodes, one by one, up to the first failure. An instance without a
      node ends the loop too. */
  function DeleteNodes(ids: seq<nat>, nodes: map<nat, Node>, env: Env): (bool, map<nat, Node>) {
    if ids == [] then (false, nodes)
    else if ids[0] !in nodes || !env.deleteNode(ids[0]) then (true, nodes)
    else DeleteNodes(ids[1..], nodes - {ids[0]}, env)
  }

  function Terminate(w: World, env: Env): Step {
    if !env.setup then Fail(w, UNINITIALIZED)
    else if env.clusterDeleting then Stay(w)
    else if !env.split.Granted? then Fail(w, w.State())
    else if OldIds(w) != [] then
      if !env.deleteWrite then Fail(w, w.State())
      else
        var w1 := w.(vmss := DeleteInstances(w.vmss, OldIds(w)),
                     history := w.history.(deleted := w.history.deleted + OldIds(w)));
        if !w.cfg.spot then Stay(w1)
        else if env.tenant != Granted then Fail(w1, w.State())
        else
          var (failed, nodes) := DeleteNodes(OldIds(w), w1.nodes, env);
          if failed then Fail(w1.(nodes := nodes), w.State()) else Stay(w1.(nodes := nodes))
    else if !env.autoscalerWrite then Fail(w, UNINITIALIZED)
    else Go(w.(vmss := w.vmss.(autoscaler := true)), UNINITIALIZED)
  }

  // ---------------------------------------------------------------- the initial state

  function Int32(x: int): int { (x + 0x8000_0000) % 0x1_0000_0000 - 0x8000_0000 }

  /** The changed parameters: those of the template difference, and "scaling" when a pool without
      autoscaling has another capacity than its scale set. */
  function Changes(diff: seq<string>, s: Scaling, capacity: Option<int>): seq<string> {
    if "scaling" !in diff && s.min == s.max && capacity.Some? && s.current != Int32(capacity.value)
    then diff + ["scaling"] else diff
  }

  predicate NeedsRolling(changes: seq<string>) {
    |changes| > 1 || (|changes| == 1 && "scaling" !in changes)
  }

  function Submit(w: World): World {
    w.(deployment := Some("Accepted"), history := w.history.(submissions := w.history.submissions + 1))
  }

  function Uninitialized(w: World, env: Env): Step {
    if !env.setup then Fail(w, w.State())
    else if env.poolDeleting || env.clusterDeleting then Stay(w)
    else if env.vmssGet.LookupFailed? then Fail(w, w.State())
    else if env.desired.NotReady? then Stay(w)
    else if env.desired.ComputeFailed? || !env.deploymentGet then Fail(w, w.State())
    else
      var capacity := if env.vmssGet.Found? then Some(w.vmss.capacity) else None;
      var changes := Changes(env.desired.diff, env.desired.scaling, capacity);
      if w.deployment.None? || changes != [] then
        if !env.submit then Fail(w, w.State())
        else if w.deployment.Some? && NeedsRolling(changes) then Go(Submit(w), SCALE_UP)
        else Stay(Submit(w))
      else if env.saveIds.Conflict? then Stay(w)
      else if env.saveIds.SaveFailed? then Fail(w, w.State())
      else if FailedState(w.deployment.value) then
        if !env.submit then Fail(w, w.State()) else Stay(Submit(w))
      else Stay(w)
  }

  // ---------------------------------------------------------------- the driver

  predicate MasterOutdated(cfg: Settings, n: ClusterNode) {
    (n.role == "master" || n.kubernetesRole == "master") && (n.version != Some(cfg.version) || !n.ready)
  }

  /** Closed when masters are upgrading, when that cannot be told, or on an error. */
  predicate GateOpen(cfg: Settings, env: Env) {
    env.gate.Granted? && forall n <- env.clusterNodes :: !MasterOutdated(cfg, n)
  }

  function Transition(w: World, env: Env): Step
    requires Known(w.State())
  {
    match w.State()
    case UNINITIALIZED => Uninitialized(w, env)
    case SCALE_UP => ScaleUp(w, env)
    case WAIT_READY => WaitForWorkers(w, env)
    case CORDON => Cordon(w, env)
    case DRAIN => Drain(w, env)
    case TERMINATE => Terminate(w, env)
  }

  /** A pass. Whatever state a failing handler names, nothing is saved; a state this version does not
      know is replaced by ScaleUpWorkerVMSS. */
  function EnsureCreated(w: World, env: Env): World {
    if !GateOpen(w.cfg, env) then w
    else
      var step := if Known(w.State()) then Transition(w, env) else Go(w, SCALE_UP);
      if step.failed || step.next == w.State() || !env.save.Saved? then step.world
      else step.world.(annotation := Some(step.next))
  }
}
