/** Whole runs of the control plane machine: masters are upgraded one at a time, in a number of operations
    known beforehand, and an unchanged deployment is submitted once. */
module MastersRuns {
  import opened Common
  import opened StatusStore
  import opened Masters

  // ---------------------------------------------------------------- stages

  /** The edges along which a pass may move the persisted stage. */
  predicate Edge(g: Stage, h: Stage) {
    match g
    case EMPTY => h == UNINITIALIZED
    case UNINITIALIZED => h == INITIALIZED
    case INITIALIZED => h == PROVISIONED || h == EMPTY
    case PROVISIONED => h == CHECK
    case CHECK => h == UPGRADING || h == COMPLETED
    case UPGRADING => h == COMPLETED || h == EMPTY
    case COMPLETED => h == EMPTY
    case UNKNOWN(_) => false
  }

  /** What storing a status does to the three values the machine reads. */
  lemma StoreEffect(w: World, t: string, s: string, now: int)
    ensures var w' := Store(w, t, s, now);
      && (t == STAGE ==> w'.Stage() == Parse(s)
                         && w'.Checksum(TEMPLATE_CHECKSUM) == w.Checksum(TEMPLATE_CHECKSUM)
                         && w'.Checksum(PARAMETERS_CHECKSUM) == w.Checksum(PARAMETERS_CHECKSUM))
      && (t == TEMPLATE_CHECKSUM ==> w'.Stage() == w.Stage() && w'.Checksum(t) == s
                                     && w'.Checksum(PARAMETERS_CHECKSUM) == w.Checksum(PARAMETERS_CHECKSUM))
      && (t == PARAMETERS_CHECKSUM ==> w'.Stage() == w.Stage() && w'.Checksum(t) == s
                                       && w'.Checksum(TEMPLATE_CHECKSUM) == w.Checksum(TEMPLATE_CHECKSUM))
  {
    SetIsMapUpdate(w.status, HANDLER, t, s, now, HANDLER, STAGE);
    SetIsMapUpdate(w.status, HANDLER, t, s, now, HANDLER, TEMPLATE_CHECKSUM);
    SetIsMapUpdate(w.status, HANDLER, t, s, now, HANDLER, PARAMETERS_CHECKSUM);
    assert |STAGE| == 5 && |TEMPLATE_CHECKSUM| == 16 && |PARAMETERS_CHECKSUM| == 18;
    hide Set, Get, Parse;
  }

  /** A transition never writes the stage itself, and the next stage it names is along an edge. */
  lemma TransitionEffect(w: World, env: Env)
    requires !w.Stage().UNKNOWN?
    ensures var s := Transition(w, env);
      && s.world.Stage() == w.Stage()
      && s.world.release == w.release && s.world.nodes == w.nodes
      && (!s.failed ==> s.next == w.Stage() || (Edge(w.Stage(), s.next) && !s.next.UNKNOWN?))
      && (w.Stage() != UPGRADING ==> s.world.vms == w.vms && s.world.log == w.log)
      && (w.Stage() != UNINITIALIZED ==> s.world.status == w.status && s.world.submissions == w.submissions
                                         && s.world.deployment == w.deployment)
  {
    hide Set, Get, Parse, VersionOf, FirstOutdated;
    if w.Stage() == UNINITIALIZED && env.computed.Computed? {
      var c := env.computed;
      var w0 := w.(deployment := Some("Accepted"), submissions := w.submissions + 1);
      StoreEffect(w0, TEMPLATE_CHECKSUM, c.template, env.now);
      StoreEffect(w0, PARAMETERS_CHECKSUM, c.parameters, env.now);
      StoreEffect(Store(w0, TEMPLATE_CHECKSUM, c.template, env.now), PARAMETERS_CHECKSUM, c.parameters, env.now);
    }
  }

  /** A pass saves the next stage exactly when the transition did not fail, named another stage, and the
      write succeeds; everything else is what the transition left. */
  lemma PassEffect(w: World, env: Env)
    requires env.readable && !w.Stage().UNKNOWN?
    ensures var w', s := EnsureCreated(w, env), Transition(w, env);
      && w'.Stage() == (if s.failed || !env.writeStage then w.Stage() else s.next)
      && w'.Checksum(TEMPLATE_CHECKSUM) == s.world.Checksum(TEMPLATE_CHECKSUM)
      && w'.Checksum(PARAMETERS_CHECKSUM) == s.world.Checksum(PARAMETERS_CHECKSUM)
      && w' == s.world.(status := w'.status)
      && (w'.Stage() == w.Stage() ==> w' == s.world)
  {
    var s := Transition(w, env);
    TransitionEffect(w, env);
    hide Transition, Set, Get;
    StoreEffect(s.world, STAGE, Render(s.next), env.now);
    if !s.failed { StageRoundTrip(s.next); }
    hide Parse, Render;
  }

  /** The persisted stage is closed: a pass keeps it or moves it along an edge. Unlike a node pool, a
      control plane with a stage of another version stays there for ever, whatever the replies. */
  lemma PassMovesAlongEdges(w: World, env: Env)
    ensures var w' := EnsureCreated(w, env);
      && (w'.Stage() == w.Stage() || Edge(w.Stage(), w'.Stage()))
      && (w.Stage().UNKNOWN? ==> w' == w)
  {
    if env.readable && !w.Stage().UNKNOWN? {
      PassEffect(w, env);
      TransitionEffect(w, env);
      hide Transition, EnsureCreated;
    }
  }

  // ---------------------------------------------------------------- one operation at a time

  lemma {:induction false} FirstOutdatedIsFirst(w: World, i: nat)
    requires i <= |w.vms|
    ensures var r := FirstOutdated(w, i);
      && (r.Some? ==> i <= r.value < |w.vms| && Outdated(w, w.vms[r.value])
                      && forall j :: i <= j < r.value ==> !Outdated(w, w.vms[j]))
      && (r.None? ==> forall j :: i <= j < |w.vms| ==> !Outdated(w, w.vms[j]))
    decreases |w.vms| - i
  {
    hide Outdated;
    if i < |w.vms| && !Outdated(w, w.vms[i]) { FirstOutdatedIsFirst(w, i + 1); }
  }

  predicate NoneInFlight(w: World) { forall i :: 0 <= i < |w.vms| ==> !InFlight(w.vms[i]) }

  predicate NoneOutdated(w: World) { forall i :: 0 <= i < |w.vms| ==> !Outdated(w, w.vms[i]) }

  /** The replies with which an upgrading pass looks at the machines. */
  predicate Reaches(env: Env) {
    env.setup && env.tenant.Granted? && env.nodesList.Listed? && env.vmssFound && env.vmsList
  }

  /** What it takes to start an operation. */
  predicate MayStart(w: World, env: Env) {
    && w.Stage() == UPGRADING && w.vmssUpToDate && Reaches(env)
    && NodesReady(w.nodes) && NoneInFlight(w) && !NoneOutdated(w)
  }

  /** w' is w with one more operation: on the first outdated machine, an update to the latest model if it
      still lacks it and a reimage otherwise; the other machines are untouched. */
  predicate StartsOne(w: World, w': World) {
    && |w'.log| == |w.log| + 1 && w'.log[..|w.log|] == w.log
    && var op := w'.log[|w.log|];
       op.index < |w.vms| && Outdated(w, w.vms[op.index])
       && (forall j :: 0 <= j < op.index ==> !Outdated(w, w.vms[j]))
       && (op.Update? <==> !w.vms[op.index].latestModel)
       && |w'.vms| == |w.vms| && InFlight(w'.vms[op.index])
       && w'.vms[op.index].id == w.vms[op.index].id && w'.vms[op.index].latestModel == w.vms[op.index].latestModel
       && forall j :: 0 <= j < |w.vms| && j != op.index ==> w'.vms[j] == w.vms[j]
  }

  lemma UpgradingCases(w: World, env: Env)
    requires w.Stage() == UPGRADING
    ensures var s := Upgrading(w, env);
      && (if MayStart(w, env) && env.operation
          then StartsOne(w, s.world) && !s.failed && s.next == UPGRADING
              && s.world == w.(vms := s.world.vms, log := s.world.log)
          else s.world == w)
      && (Reaches(env) && w.vmssUpToDate && NodesReady(w.nodes) && NoneInFlight(w) ==>
            (!s.failed && s.next == COMPLETED <==> NoneOutdated(w)))
  {
    FirstOutdatedIsFirst(w, 0);
    hide FirstOutdated, Outdated, NodesReady, Get, Parse;
    assert NoneInFlight(w) <==> !exists v <- w.vms :: InFlight(v);
  }

  /** Every pass starts at most one operation, and it starts one exactly when the machine is in
      MasterInstancesUpgrading, the scale set is up to date, every master node is ready, no machine is in
      flight, some registered machine runs another release, and the APIs reply. */
  lemma OneOperationPerPass(w: World, env: Env)
    ensures var w' := EnsureCreated(w, env);
      && w'.release == w.release && w'.nodes == w.nodes
      && if env.readable && MayStart(w, env) && env.operation then StartsOne(w, w') && w'.Stage() == UPGRADING
         else w'.vms == w.vms && w'.log == w.log
  {
    if env.readable && !w.Stage().UNKNOWN? {
      PassEffect(w, env);
      TransitionEffect(w, env);
      if w.Stage() == UPGRADING { UpgradingCases(w, env); }
      hide Get, Set, Parse, Upgrading, EnsureCreated, NodesReady, Outdated, Uninitialized, NoneOutdated, NoneInFlight;
    }
  }

  /** All machines in flight are one machine. */
  predicate AtMostOneInFlight(w: World) {
    forall i, j :: 0 <= i < |w.vms| && 0 <= j < |w.vms| && InFlight(w.vms[i]) && InFlight(w.vms[j]) ==>
        w.vms[i].id == w.vms[j].id
  }

  /** The environment does anything to nodes, deployment, status and machines, except that it takes no
      further machine in flight. */
  predicate Calm(w: World, w': World) {
    forall i :: 0 <= i < |w'.vms| && InFlight(w'.vms[i]) ==>
      exists j :: 0 <= j < |w.vms| && InFlight(w.vms[j]) && w.vms[j].id == w'.vms[i].id
  }

  ghost predicate Pass(w: World, w': World) { exists env :: w' == EnsureCreated(w, env) }

  lemma PassKeepsOneInFlight(w: World, env: Env)
    requires AtMostOneInFlight(w)
    ensures AtMostOneInFlight(EnsureCreated(w, env))
  {
    OneOperationPerPass(w, env);
    hide EnsureCreated, Outdated, NodesReady;
  }

  lemma CalmKeepsOneInFlight(w: World, w': World)
    requires AtMostOneInFlight(w) && Calm(w, w')
    ensures AtMostOneInFlight(w')
  {
    hide InFlight;
  }

  /** Main result on safety: in every run of passes with any replies and of calm steps of the environment, at
      most one master machine is in flight at any time. */
  lemma {:induction false} OneMasterAtATime(ws: seq<World>)
    requires |ws| > 0 && AtMostOneInFlight(ws[0])
    requires forall i :: 0 <= i < |ws| - 1 ==> Pass(ws[i], ws[i + 1]) || Calm(ws[i], ws[i + 1])
    ensures forall i :: 0 <= i < |ws| ==> AtMostOneInFlight(ws[i])
  {
    hide Calm, AtMostOneInFlight, EnsureCreated;
    for n := 1 to |ws|
      invariant forall i :: 0 <= i < n ==> AtMostOneInFlight(ws[i])
    {
      if Pass(ws[n - 1], ws[n]) {
        var env :| ws[n] == EnsureCreated(ws[n - 1], env);
        PassKeepsOneInFlight(ws[n - 1], env);
      } else {
        assert Calm(ws[n - 1], ws[n - 1 + 1]);
        CalmKeepsOneInFlight(ws[n - 1], ws[n]);
      }
    }
  }

  // ---------------------------------------------------------------- the number of operations

  /** The operations a machine still needs. */
  function Work(w: World, v: Vm): nat { if !Outdated(w, v) then 0 else if v.latestModel then 1 else 2 }

  function WorkOf(w: World, vms: seq<Vm>): nat {
    if vms == [] then 0 else WorkOf(w, vms[..|vms| - 1]) + Work(w, vms[|vms| - 1])
  }

  function Measure(w: World): nat { WorkOf(w, w.vms) }

  lemma {:induction false} WorkSame(w: World, w': World, vms: seq<Vm>, vms': seq<Vm>)
    requires |vms| == |vms'| && forall j :: 0 <= j < |vms| ==> Work(w, vms[j]) == Work(w', vms'[j])
    ensures WorkOf(w, vms) == WorkOf(w', vms')
  {
    hide Work;
    if vms != [] { WorkSame(w, w', vms[..|vms| - 1], vms'[..|vms| - 1]); }
  }

  lemma {:induction false} WorkDrops(w: World, w': World, vms: seq<Vm>, vms': seq<Vm>, i: nat)
    requires |vms| == |vms'| && i < |vms|
    requires forall j :: 0 <= j < |vms| && j != i ==> Work(w, vms[j]) == Work(w', vms'[j])
    requires Work(w, vms[i]) == Work(w', vms'[i]) + 1
    ensures WorkOf(w, vms) == WorkOf(w', vms') + 1
  {
    hide Work;
    var n := |vms| - 1;
    if i == n { WorkSame(w, w', vms[..n], vms'[..n]); } else { WorkDrops(w, w', vms[..n], vms'[..n], i); }
  }

  lemma {:induction false} NoWorkIff(w: World, vms: seq<Vm>)
    ensures WorkOf(w, vms) == 0 <==> forall j :: 0 <= j < |vms| ==> !Outdated(w, vms[j])
  {
    hide Outdated;
    if vms != [] { NoWorkIff(w, vms[..|vms| - 1]); }
  }

  lemma {:induction false} TwiceIsEnough(w: World, vms: seq<Vm>)
    ensures WorkOf(w, vms) <= 2 * |set j | 0 <= j < |vms| && Outdated(w, vms[j])|
  {
    hide Outdated;
    var before := set j | 0 <= j < |vms| && Outdated(w, vms[j]);
    if vms != [] {
      var n := |vms| - 1;
      var init := vms[..n];
      TwiceIsEnough(w, init);
      assert before == (set j | 0 <= j < |init| && Outdated(w, init[j])) + (if Outdated(w, vms[n]) then {n} else {});
    }
  }

  /** No work is left exactly when no registered machine is outdated, and k outdated ones are at most 2k work. */
  lemma WorkBounds(w: World, vms: seq<Vm>)
    ensures WorkOf(w, vms) == 0 <==> forall j :: 0 <= j < |vms| ==> !Outdated(w, vms[j])
    ensures WorkOf(w, vms) <= 2 * |set j | 0 <= j < |vms| && Outdated(w, vms[j])|
  {
    NoWorkIff(w, vms);
    TwiceIsEnough(w, vms);
  }

  predicate DistinctMachines(w: World) { forall i, j :: 0 <= i < j < |w.vms| ==> w.vms[i].id != w.vms[j].id }

  /** The operation in flight is the last one started, and the only one. */
  predicate Consistent(w: World) {
    && DistinctMachines(w)
    && (NoneInFlight(w) || InFlightIs(w))
  }

  predicate InFlightIs(w: World) {
    |w.log| > 0 && w.log[|w.log| - 1].index < |w.vms| &&
    var op := w.log[|w.log| - 1];
    && InFlight(w.vms[op.index]) && Outdated(w, w.vms[op.index]) && (op.Update? <==> !w.vms[op.index].latestModel)
    && forall j :: 0 <= j < |w.vms| && j != op.index ==> !InFlight(w.vms[j])
  }

  function Pending(w: World): nat { if NoneInFlight(w) then 0 else 1 }

  /** The environment ends the operation in flight: an updated machine has the latest model, the node of a
      reimaged one comes back with the release. All other machines are as before. */
  predicate Finish(w: World, w': World) {
    && InFlightIs(w) && w'.log == w.log && |w'.vms| == |w.vms| && w'.release == w.release && NoneInFlight(w')
    && var op := w.log[|w.log| - 1];
       w'.vms[op.index].id == w.vms[op.index].id
       && w'.vms[op.index].latestModel
       && (Outdated(w', w'.vms[op.index]) <==> op.Update?)
       && forall j :: 0 <= j < |w.vms| && j != op.index ==>
            w'.vms[j] == w.vms[j] && (Outdated(w', w'.vms[j]) <==> Outdated(w, w.vms[j]))
  }

  /** The environment does anything else: it keeps the machines and which of them are outdated. */
  predicate Idle(w: World, w': World) {
    && w'.log == w.log && w'.vms == w.vms
    && forall j :: 0 <= j < |w.vms| ==> (Outdated(w', w.vms[j]) <==> Outdated(w, w.vms[j]))
  }

  lemma OutdatedSame(w: World, w': World, v: Vm, v': Vm)
    requires w.release == w'.release && w.nodes == w'.nodes && v.id == v'.id
    ensures Outdated(w, v) <==> Outdated(w', v')
  {}

  lemma PassWork(w: World, env: Env)
    requires Consistent(w)
    ensures var w' := EnsureCreated(w, env);
      Consistent(w') && Measure(w') == Measure(w) && |w'.log| - Pending(w') == |w.log| - Pending(w)
  {
    var w' := EnsureCreated(w, env);
    OneOperationPerPass(w, env);
    hide EnsureCreated, NodesReady;
    assert |w'.vms| == |w.vms| && forall j :: 0 <= j < |w.vms| ==>
      w'.vms[j].id == w.vms[j].id && w'.vms[j].latestModel == w.vms[j].latestModel;
    forall j | 0 <= j < |w.vms|
      ensures Work(w, w.vms[j]) == Work(w', w'.vms[j]) && (Outdated(w, w.vms[j]) <==> Outdated(w', w'.vms[j]))
    {
      OutdatedSame(w, w', w.vms[j], w'.vms[j]);
    }
    hide Outdated;
    WorkSame(w, w', w.vms, w'.vms);
  }

  lemma FinishWork(w: World, w': World)
    requires Consistent(w) && Finish(w, w')
    ensures Consistent(w') && Measure(w') == Measure(w) - 1 && Pending(w) == 1 && Pending(w') == 0
  {
    hide Outdated;
    WorkDrops(w, w', w.vms, w'.vms, w.log[|w.log| - 1].index);
  }

  lemma IdleWork(w: World, w': World)
    requires Consistent(w) && Idle(w, w')
    ensures Consistent(w') && Measure(w') == Measure(w) && Pending(w') == Pending(w)
  {
    hide Outdated;
    WorkSame(w, w', w.vms, w'.vms);
  }

  ghost predicate Run(ws: seq<World>) {
    |ws| > 0 && forall i :: 0 <= i < |ws| - 1 ==>
        Pass(ws[i], ws[i + 1]) || Finish(ws[i], ws[i + 1]) || Idle(ws[i], ws[i + 1])
  }

  lemma StepWork(w: World, w': World)
    requires Consistent(w) && (Pass(w, w') || Finish(w, w') || Idle(w, w'))
    ensures Consistent(w') && Measure(w') + |w'.log| - Pending(w') == Measure(w) + |w.log| - Pending(w)
  {
    if Pass(w, w') {
      var env :| w' == EnsureCreated(w, env);
      PassWork(w, env);
    } else if Finish(w, w') {
      FinishWork(w, w');
    } else {
      IdleWork(w, w');
    }
  }

  /** Main result on the number of operations: whatever the order of passes, finished operations and other
      steps, the operations started, less the one in flight, plus the work left, are the work at the
      start. So k outdated masters take at most 2k operations. */
  lemma OperationsAreConserved(ws: seq<World>)
    requires Run(ws) && DistinctMachines(ws[0]) && NoneInFlight(ws[0])
    ensures var (w, w') := (ws[0], ws[|ws| - 1]);
      && Measure(w') + |w'.log| - Pending(w') == Measure(w) + |w.log|
      && |w'.log| - |w.log| <= 2 * |set j | 0 <= j < |w.vms| && Outdated(w, w.vms[j])|
  {
    hide EnsureCreated, Outdated, Finish, Idle;
    for n := 1 to |ws|
      invariant Consistent(ws[n - 1])
      invariant Measure(ws[n - 1]) + |ws[n - 1].log| - Pending(ws[n - 1]) == Measure(ws[0]) + |ws[0].log|
    {
      assert Pass(ws[n - 1], ws[n - 1 + 1]) || Finish(ws[n - 1], ws[n - 1 + 1]) || Idle(ws[n - 1], ws[n - 1 + 1]);
      StepWork(ws[n - 1], ws[n]);
    }
    var w' := ws[|ws| - 1];
    WorkBounds(ws[0], ws[0].vms);
    WorkBounds(w', w'.vms);
    if !NoneInFlight(w') { assert Outdated(w', w'.vms[w'.log[|w'.log| - 1].index]); }
  }

  predicate Replies(env: Env) { env.readable && env.operation && env.writeStage && Reaches(env) }

  /** A pass with good replies, followed by the end of the operation it started. */
  predicate RollingStep(w: World, env: Env, w'': World) {
    var w' := EnsureCreated(w, env);
    && w.vmssUpToDate && NodesReady(w.nodes) && Replies(env)
    && if NoneInFlight(w') then w'' == w' else Finish(w', w'') && w''.status == w'.status
  }

  ghost predicate Rolling(ws: seq<World>, envs: seq<Env>) {
    |ws| > 0 && |envs| == |ws| - 1 && forall i :: 0 <= i < |ws| - 1 ==> RollingStep(ws[i], envs[i], ws[i + 1])
  }

  lemma RollingPass(w: World, env: Env)
    requires w.Stage() == UPGRADING && w.vmssUpToDate && NodesReady(w.nodes) && Consistent(w) && NoneInFlight(w)
    requires Replies(env)
    ensures var w' := EnsureCreated(w, env);
      && (Measure(w) > 0 ==> w'.Stage() == UPGRADING && !NoneInFlight(w') && |w'.log| == |w.log| + 1)
      && (Measure(w) == 0 ==> w'.Stage() == COMPLETED && NoneInFlight(w') && w'.log == w.log)
      && Consistent(w') && Measure(w') == Measure(w)
  {
    WorkBounds(w, w.vms);
    UpgradingCases(w, env);
    OneOperationPerPass(w, env);
    PassEffect(w, env);
    PassWork(w, env);
    hide EnsureCreated, Upgrading, Outdated, NodesReady, Measure, Get, Parse, Consistent, StartsOne;
  }

  /** When the APIs reply and the nodes stay ready, the upgrade of masters with work m takes exactly m passes
      with one operation each, and the next pass ends in DeploymentCompleted without one. */
  lemma {:induction false} MastersAreRolled(ws: seq<World>, envs: seq<Env>)
    requires Rolling(ws, envs) && ws[0].Stage() == UPGRADING && DistinctMachines(ws[0]) && NoneInFlight(ws[0])
    requires |ws| == Measure(ws[0]) + 2
    ensures var (m, w) := (Measure(ws[0]), ws[0]);
      && (forall i :: 0 <= i <= m ==>
          ws[i].Stage() == UPGRADING && |ws[i].log| == |w.log| + i && Measure(ws[i]) == m - i)
      && ws[m + 1].Stage() == COMPLETED && ws[m + 1].log == ws[m].log
  {
    hide EnsureCreated, Outdated, NodesReady, Replies, Measure, Finish, Get, Parse;
    var m := Measure(ws[0]);
    for n := 0 to m
      invariant Consistent(ws[n]) && NoneInFlight(ws[n])
      invariant forall i :: 0 <= i <= n ==>
          ws[i].Stage() == UPGRADING && |ws[i].log| == |ws[0].log| + i && Measure(ws[i]) == m - i
    {
      assert RollingStep(ws[n], envs[n], ws[n + 1]);
      RollingPass(ws[n], envs[n]);
      var w' := EnsureCreated(ws[n], envs[n]);
      FinishWork(w', ws[n + 1]);
      FinishKeepsLog(w', ws[n + 1]);
    }
    assert RollingStep(ws[m], envs[m], ws[m + 1]);
    RollingPass(ws[m], envs[m]);
  }

  lemma FinishKeepsLog(w: World, w': World)
    requires Finish(w, w')
    ensures w'.log == w.log && NoneInFlight(w')
  {}

  // ---------------------------------------------------------------- quiescence

  /** The replies during which a deployment with these checksums stays desired and no master is outdated. */
  predicate Steady(env: Env, t: string, p: string) {
    && env.readable && env.setup && env.deploymentGet && env.tenant.Granted? && env.rollout.AllCurrent?
    && env.clusterGet
    && env.computed == Computed(t, p) && env.submit && env.writeTemplate && env.writeParameters && env.writeStage
  }

  /** Between two passes a deployment, when there is one, succeeds; anything may happen to machines and nodes. */
  predicate Settle(w: World, w': World) {
    && w'.status == w.status && w'.submissions == w.submissions
    && w'.deployment == if w.deployment.Some? then Some("Succeeded") else None
  }

  ghost predicate SteadyRun(ws: seq<World>, envs: seq<Env>, t: string, p: string) {
    && |ws| > 0 && |envs| == |ws| - 1
    && forall i :: 0 <= i < |ws| - 1 ==> Steady(envs[i], t, p) && Settle(EnsureCreated(ws[i], envs[i]), ws[i + 1])
  }

  /** The checksum stored for a desired one: an empty checksum is never stored. */
  function Stored(desired: string, before: string): string { if desired != "" then desired else before }

  lemma SteadyPass(w: World, env: Env, t: string, p: string, w': World)
    requires Steady(env, t, p) && Settle(EnsureCreated(w, env), w')
    requires w.Stage() in {INITIALIZED, PROVISIONED, CHECK, COMPLETED} ==> w.deployment == Some("Succeeded")
    ensures var (g, h) := (w.Stage(), w'.Stage());
      && (g == EMPTY ==> h == UNINITIALIZED) && (g == UNINITIALIZED ==> h == INITIALIZED)
      && (g == INITIALIZED ==> h == PROVISIONED)
      && (g == PROVISIONED ==> h == CHECK) && (g == CHECK ==> h == COMPLETED)
      && (g == COMPLETED ==> h == if Unchanged(w, env) then COMPLETED else EMPTY)
      && (g == COMPLETED && h == COMPLETED ==> w'.status == w.status)
    ensures if w.Stage() == UNINITIALIZED
      then w'.submissions == w.submissions + 1 && w'.deployment == Some("Succeeded")
           && w'.Checksum(TEMPLATE_CHECKSUM) == Stored(t, w.Checksum(TEMPLATE_CHECKSUM))
           && w'.Checksum(PARAMETERS_CHECKSUM) == Stored(p, w.Checksum(PARAMETERS_CHECKSUM))
      else w'.submissions == w.submissions && w'.Checksum(TEMPLATE_CHECKSUM) == w.Checksum(TEMPLATE_CHECKSUM)
           && w'.Checksum(PARAMETERS_CHECKSUM) == w.Checksum(PARAMETERS_CHECKSUM)
           && (w.deployment == Some("Succeeded") ==> w'.deployment == Some("Succeeded"))
  {
    if !w.Stage().UNKNOWN? {
      PassEffect(w, env);
      TransitionEffect(w, env);
      SteadyTransition(w, env, t, p);
      if w.Stage() == UNINITIALIZED { SteadySubmission(w, env, t, p); }
      hide Set, Get, Parse, EnsureCreated, Transition, Uninitialized, Unchanged, Edge;
    }
  }

  lemma SteadyTransition(w: World, env: Env, t: string, p: string)
    requires Steady(env, t, p) && !w.Stage().UNKNOWN?
    requires w.Stage() in {INITIALIZED, PROVISIONED, CHECK, COMPLETED} ==> w.deployment == Some("Succeeded")
    ensures var (g, s) := (w.Stage(), Transition(w, env));
      && (g == UNINITIALIZED ==> s == Uninitialized(w, env))
      && (g == EMPTY ==> s == Go(w, UNINITIALIZED)) && (g == INITIALIZED ==> s == Go(w, PROVISIONED))
      && (g == PROVISIONED ==> s == Go(w, CHECK)) && (g == CHECK ==> s == Go(w, COMPLETED))
      && (g == COMPLETED ==> s == Go(w, if Unchanged(w, env) then COMPLETED else EMPTY))
  {
    hide Set, Get, Parse, Upgrading, Uninitialized, Unchanged;
  }

  lemma SteadySubmission(w: World, env: Env, t: string, p: string)
    requires Steady(env, t, p) && w.Stage() == UNINITIALIZED
    ensures var s := Uninitialized(w, env);
      && !s.failed && s.next == INITIALIZED && s.world.submissions == w.submissions + 1 && s.world.deployment.Some?
      && s.world.Checksum(TEMPLATE_CHECKSUM) == Stored(t, w.Checksum(TEMPLATE_CHECKSUM))
      && s.world.Checksum(PARAMETERS_CHECKSUM) == Stored(p, w.Checksum(PARAMETERS_CHECKSUM))
  {
    hide Set, Get, Parse;
    var w0 := w.(deployment := Some("Accepted"), submissions := w.submissions + 1);
    StoreEffect(w0, TEMPLATE_CHECKSUM, t, env.now);
    StoreEffect(w0, PARAMETERS_CHECKSUM, p, env.now);
    StoreEffect(Store(w0, TEMPLATE_CHECKSUM, t, env.now), PARAMETERS_CHECKSUM, p, env.now);
    hide Store;
  }

  /** The first six stages of a run. */
  predicate FiveTransitions(ws: seq<World>)
    requires |ws| >= 6
  {
    && ws[0].Stage() == EMPTY && ws[1].Stage() == UNINITIALIZED && ws[2].Stage() == INITIALIZED
    && ws[3].Stage() == PROVISIONED && ws[4].Stage() == CHECK && ws[5].Stage() == COMPLETED
  }

  /** The desired checksums can be stored over those of w. */
  predicate Storable(w: World, t: string, p: string) {
    Stored(t, w.Checksum(TEMPLATE_CHECKSUM)) == t && Stored(p, w.Checksum(PARAMETERS_CHECKSUM)) == p
  }

  lemma FivePasses(ws: seq<World>, envs: seq<Env>, t: string, p: string)
    requires SteadyRun(ws, envs, t, p) && |ws| >= 7 && ws[0].Stage() == EMPTY
    ensures FiveTransitions(ws)
    ensures ws[5].submissions == ws[0].submissions + 1 && ws[5].deployment == Some("Succeeded")
    ensures ws[5].Checksum(TEMPLATE_CHECKSUM) == Stored(t, ws[0].Checksum(TEMPLATE_CHECKSUM))
    ensures ws[5].Checksum(PARAMETERS_CHECKSUM) == Stored(p, ws[0].Checksum(PARAMETERS_CHECKSUM))
    ensures ws[6].Stage() == if Storable(ws[0], t, p) then COMPLETED else EMPTY
  {
    hide EnsureCreated, Get, Parse, Settle, Steady;
    SteadyPass(ws[0], envs[0], t, p, ws[1]);
    SteadyPass(ws[1], envs[1], t, p, ws[2]);
    SteadyPass(ws[2], envs[2], t, p, ws[3]);
    SteadyPass(ws[3], envs[3], t, p, ws[4]);
    SteadyPass(ws[4], envs[4], t, p, ws[5]);
    SteadyPass(ws[5], envs[5], t, p, ws[6]);
    UnchangedMeans(ws[5], envs[5], t, p);
  }

  lemma UnchangedMeans(w: World, env: Env, t: string, p: string)
    requires Steady(env, t, p)
    ensures Unchanged(w, env) <==> w.Checksum(TEMPLATE_CHECKSUM) == t && w.Checksum(PARAMETERS_CHECKSUM) == p
  {}

  /** At rest, no pass writes or submits anything. */
  lemma {:induction false} RestIsQuiet(ws: seq<World>, envs: seq<Env>, t: string, p: string)
    requires SteadyRun(ws, envs, t, p)
    requires ws[0].Stage() == COMPLETED && ws[0].deployment == Some("Succeeded")
    requires ws[0].Checksum(TEMPLATE_CHECKSUM) == t && ws[0].Checksum(PARAMETERS_CHECKSUM) == p
    ensures forall i :: 0 <= i < |ws| ==>
      ws[i].Stage() == COMPLETED && ws[i].status == ws[0].status && ws[i].submissions == ws[0].submissions
  {
    hide EnsureCreated, Get, Parse, Settle, Steady;
    for n := 1 to |ws|
      invariant forall i :: 0 <= i < n ==>
        ws[i].Stage() == COMPLETED && ws[i].status == ws[0].status && ws[i].submissions == ws[0].submissions
      invariant ws[n - 1].deployment == Some("Succeeded")
    {
      SteadyPass(ws[n - 1], envs[n - 1], t, p, ws[n - 1 + 1]);
      UnchangedMeans(ws[n - 1], envs[n - 1], t, p);
    }
  }

  /** Main result on quiescence: with an unchanged desired deployment, a deployment that succeeds and no
      outdated master, a machine in the empty stage reaches DeploymentCompleted in exactly five passes with
      exactly one submission. It then rests for ever, without another submission, exactly when each desired
      checksum is not empty or equals the one stored before; if not it starts over at the next pass,
      because an empty checksum never replaces a stored one. */
  lemma Quiescence(ws: seq<World>, envs: seq<Env>, t: string, p: string)
    requires SteadyRun(ws, envs, t, p) && |ws| >= 7 && ws[0].Stage() == EMPTY
    ensures FiveTransitions(ws)
    ensures Storable(ws[0], t, p) <==>
      forall i :: 5 <= i < |ws| ==>
        ws[i].Stage() == COMPLETED && ws[i].status == ws[5].status && ws[i].submissions == ws[0].submissions + 1
    ensures !Storable(ws[0], t, p) ==> ws[6].Stage() == EMPTY
  {
    hide EnsureCreated, Get, Parse, Settle, Steady;
    FivePasses(ws, envs, t, p);
    if Storable(ws[0], t, p) {
      var rest, replies := ws[5..], envs[5..];
      forall i | 0 <= i < |rest| - 1
        ensures Steady(replies[i], t, p) && Settle(EnsureCreated(rest[i], replies[i]), rest[i + 1])
      {
        assert rest[i] == ws[i + 5] && rest[i + 1] == ws[i + 5 + 1] && replies[i] == envs[i + 5];
      }
      RestIsQuiet(rest, replies, t, p);
      assert forall i :: 5 <= i < |ws| ==> ws[i] == rest[i - 5];
    }
  }
}
