/** When a pass of the control plane handler moves on, submits, or starts an operation: each decision in terms of the
    world and the replies, for all of them. */
module MastersDecisions {
  import opened Common
  import opened StatusStore
  import opened Masters
  import opened MastersRuns
  import Rollout

  /** The status can be read and written; without that no stage is left. */
  predicate Stores(env: Env) { env.readable && env.writeStage }

  lemma StageAfter(w: World, env: Env)
    requires !w.Stage().UNKNOWN?
    ensures EnsureCreated(w, env).Stage() ==
      if Stores(env) && !Transition(w, env).failed then Transition(w, env).next else w.Stage()
  {
    hide Get, Set, Parse, Transition;
    if env.readable { PassEffect(w, env); }
  }

  /** The empty stage and the stage after provisioning are left by any pass that can store the next one. */
  lemma PassThrough(w: World, env: Env)
    ensures w.Stage() == EMPTY ==> EnsureCreated(w, env).Stage() == if Stores(env) then UNINITIALIZED else EMPTY
    ensures w.Stage() == PROVISIONED ==> EnsureCreated(w, env).Stage() == if Stores(env) then CHECK else PROVISIONED
  {
    hide Get, Set, Parse, EnsureCreated;
    if !w.Stage().UNKNOWN? { StageAfter(w, env); }
  }

  /** A deployment is submitted exactly when it can be computed and Azure accepts it; the stage is left when both
      checksums that are not empty are stored too. */
  lemma SubmitsIff(w: World, env: Env)
    requires w.Stage() == UNINITIALIZED
    ensures var w' := EnsureCreated(w, env);
      var submits := env.readable && env.setup && env.computed.Computed? && env.submit;
      && w'.submissions == w.submissions + (if submits then 1 else 0)
      && w'.deployment == (if submits then Some("Accepted") else w.deployment)
      && w'.Stage() == if submits && env.writeStage && (env.computed.template == "" || env.writeTemplate)
                          && (env.computed.parameters == "" || env.writeParameters) then INITIALIZED else UNINITIALIZED
  {
    hide Get, Set, Parse;
    StageAfter(w, env);
    if env.readable { PassEffect(w, env); }
    hide EnsureCreated;
  }

  /** Waiting for the deployment is over exactly when it came to an end: on when it succeeded, back when it failed. */
  lemma InitializedMoves(w: World, env: Env)
    requires w.Stage() == INITIALIZED
    ensures var g := EnsureCreated(w, env).Stage(); var told := Stores(env) && env.setup && env.deploymentGet;
      && (g == PROVISIONED <==> told && w.deployment == Some("Succeeded"))
      && (g == EMPTY <==> told && (w.deployment == Some("Failed") || w.deployment == Some("Canceled")))
      && (g == INITIALIZED || g == PROVISIONED || g == EMPTY)
  {
    hide Get, Set, Parse, EnsureCreated;
    StageAfter(w, env);
  }

  /** The masters are rolled exactly when the cluster was created and some master is outdated. */
  lemma CheckMoves(w: World, env: Env)
    requires w.Stage() == CHECK
    ensures var g := EnsureCreated(w, env).Stage();
      var tells := Stores(env) && env.setup && env.tenant.Granted? && env.clusterGet
                   && (env.rollout.AnyOld? || env.rollout.AllCurrent?);
      && (g == UPGRADING <==> tells && env.clusterCreated && env.rollout.AnyOld?)
      && (g == COMPLETED <==> tells && !(env.clusterCreated && env.rollout.AnyOld?))
      && (g == CHECK || g == UPGRADING || g == COMPLETED)
  {
    hide Get, Set, Parse, EnsureCreated;
    StageAfter(w, env);
  }

  /** A completed control plane starts over exactly when its deployment is gone or did not succeed, a master is
      outdated, or the computed deployment has another checksum. */
  lemma CompletedMoves(w: World, env: Env)
    requires w.Stage() == COMPLETED
    ensures var g := EnsureCreated(w, env).Stage();
      && (g == EMPTY <==>
            && Stores(env) && env.setup && env.deploymentGet
            && (|| w.deployment != Some("Succeeded")
                || (env.tenant.Granted? && env.rollout.AnyOld?)
                || (env.tenant.Granted? && env.rollout.AllCurrent? && env.computed.Computed?
                      && (w.Checksum("TemplateChecksum") != env.computed.template
                            || w.Checksum("ParametersChecksum") != env.computed.parameters))))
      && (g == EMPTY || g == COMPLETED)
  {
    StageAfter(w, env);
    hide Get, Set, Parse, EnsureCreated;
  }

  // ---------------------------------------------------------------- rolling

  /** The version of a machine is that of the last node listed for it. */
  lemma {:induction false} VersionMeans(nodes: seq<Node>, machine: nat)
    ensures var v := VersionOf(nodes, machine);
      && (v.None? <==> forall i :: 0 <= i < |nodes| ==> nodes[i].machine != machine)
      && (v.Some? ==>
            exists i :: 0 <= i < |nodes| && nodes[i].machine == machine && nodes[i].version == v.value
              && forall j :: i < j < |nodes| ==> nodes[j].machine != machine)
  {
    if nodes != [] && nodes[|nodes| - 1].machine != machine {
      var init := nodes[..|nodes| - 1];
      VersionMeans(init, machine);
      assert forall i :: 0 <= i < |init| ==> init[i] == nodes[i];
      if VersionOf(init, machine).Some? {
        var i :| 0 <= i < |init| && init[i].machine == machine && init[i].version == VersionOf(init, machine).value
                 && forall j :: i < j < |init| ==> init[j].machine != machine;
        assert nodes[i].machine == machine;
      }
    }
  }

  /** Some master is there, and all masters are ready. */
  predicate MastersReady(nodes: seq<Node>) {
    && (exists i :: 0 <= i < |nodes| && nodes[i].master)
    && forall i :: 0 <= i < |nodes| && nodes[i].master ==> nodes[i].ready
  }

  /** A machine is registered with another release. */
  predicate RunsAnother(w: World, v: Vm) {
    var version := VersionOf(w.nodes, v.id); version.Some? && version.value != w.release
  }

  predicate NoneChanging(w: World) {
    forall i :: 0 <= i < |w.vms| ==> w.vms[i].provisioning.None? || w.vms[i].provisioning == Some("Succeeded")
  }

  /** A pass that rolls comes to look at the machines. */
  predicate Looks(w: World, env: Env) {
    env.setup && w.vmssUpToDate && env.tenant.Granted? && env.nodesList.Listed? && MastersReady(w.nodes)
  }

  /** It sees all of them at rest. */
  predicate Sees(w: World, env: Env) { Looks(w, env) && env.vmssFound && env.vmsList && NoneChanging(w) }

  predicate SomeRunsAnother(w: World) { exists i :: 0 <= i < |w.vms| && RunsAnother(w, w.vms[i]) }

  lemma UpgradingStep(w: World, env: Env)
    requires w.Stage() == UPGRADING
    ensures var s := Upgrading(w, env);
      && (!s.failed && s.next == EMPTY <==> !env.setup || !w.vmssUpToDate)
      && (!s.failed && s.next == COMPLETED <==>
            (Looks(w, env) && !env.vmssFound) || (Sees(w, env) && !SomeRunsAnother(w)))
      && (s.failed || s.next == EMPTY || s.next == COMPLETED || s.next == UPGRADING)
      && |s.world.log| == |w.log| + if Sees(w, env) && SomeRunsAnother(w) && env.operation then 1 else 0
  {
    FirstOutdatedIsFirst(w, 0);
    ReadyIff(w.nodes);
    ChangingIff(w);
    SomeOutdated(w);
    hide Get, Parse, FirstOutdated, Outdated, NodesReady, MastersReady, InFlight, NoneChanging, SomeRunsAnother;
  }

  lemma SomeOutdated(w: World)
    ensures SomeRunsAnother(w) <==> exists i :: 0 <= i < |w.vms| && Outdated(w, w.vms[i])
  {
    assert forall v :: RunsAnother(w, v) <==> Outdated(w, v);
    hide RunsAnother, Outdated;
    if i :| 0 <= i < |w.vms| && Outdated(w, w.vms[i]) { assert RunsAnother(w, w.vms[i]); }
  }

  /** Where the rolling stage leads, and when an operation is started. */
  lemma UpgradingMoves(w: World, env: Env)
    requires w.Stage() == UPGRADING
    ensures var w' := EnsureCreated(w, env); var g := w'.Stage();
      && (g == EMPTY <==> Stores(env) && (!env.setup || !w.vmssUpToDate))
      && (g == COMPLETED <==>
            Stores(env) && ((Looks(w, env) && !env.vmssFound) || (Sees(w, env) && !SomeRunsAnother(w))))
      && (g == UPGRADING || g == EMPTY || g == COMPLETED)
      && |w'.log| == |w.log| + if env.readable && Sees(w, env) && SomeRunsAnother(w) && env.operation then 1 else 0
  {
    StageAfter(w, env);
    UpgradingStep(w, env);
    if env.readable { PassEffect(w, env); }
    hide Get, Set, Parse, Upgrading, Looks, Sees, SomeRunsAnother;
  }

  lemma ReadyIff(nodes: seq<Node>)
    ensures NodesReady(nodes) <==> MastersReady(nodes)
  {
    if i :| 0 <= i < |nodes| && nodes[i].master { assert nodes[i] in nodes; }
    if n :| n in nodes && n.master {
      var k :| 0 <= k < |nodes| && nodes[k] == n;
      assert nodes[k].master;
    }
    assert forall i :: 0 <= i < |nodes| ==> nodes[i] in nodes;
  }

  lemma ChangingIff(w: World)
    ensures NoneChanging(w) <==> !exists v <- w.vms :: InFlight(v)
  {
    assert forall i :: 0 <= i < |w.vms| ==> w.vms[i] in w.vms;
  }

  // ---------------------------------------------------------------- a run

  /** Everything is answered, and the rollout is told. */
  predicate Answered(env: Env) {
    && Stores(env) && env.setup && env.deploymentGet && env.tenant.Granted? && env.clusterGet && env.computed.Computed?
    && env.submit && env.writeTemplate && env.writeParameters && (env.rollout.AnyOld? || env.rollout.AllCurrent?)
  }

  ghost predicate AnsweredRun(ws: seq<World>, envs: seq<Env>) {
    |ws| > 0 && |envs| == |ws| - 1
    && forall i :: 0 <= i < |ws| - 1 ==> Answered(envs[i]) && Settle(EnsureCreated(ws[i], envs[i]), ws[i + 1])
  }

  lemma SettledStage(w: World, w': World)
    requires Settle(w, w')
    ensures w'.Stage() == w.Stage() && w'.submissions == w.submissions
    ensures w.deployment.Some? ==> w'.deployment == Some("Succeeded")
  {
    hide Get, Parse;
  }

  /** From the empty stage the fifth pass with good replies decides: it stores MasterInstancesUpgrading exactly when the
      cluster was created and a master is outdated by then, and DeploymentCompleted otherwise; one deployment was
      submitted on the way. */
  lemma FifthPassDecides(ws: seq<World>, envs: seq<Env>)
    requires AnsweredRun(ws, envs) && |ws| >= 6 && ws[0].Stage() == EMPTY
    ensures ws[1].Stage() == UNINITIALIZED && ws[2].Stage() == INITIALIZED && ws[3].Stage() == PROVISIONED
    ensures ws[4].Stage() == CHECK
    ensures ws[5].Stage() == if envs[4].clusterCreated && envs[4].rollout.AnyOld? then UPGRADING else COMPLETED
    ensures ws[2].submissions == ws[0].submissions + 1 && ws[2].deployment == Some("Succeeded")
  {
    hide EnsureCreated, Get, Parse, Settle;
    assert forall i :: 0 <= i < 5 ==> Answered(envs[i]) && Settle(EnsureCreated(ws[i], envs[i]), ws[i + 1]);
    SettledStage(EnsureCreated(ws[0], envs[0]), ws[1]);
    SettledStage(EnsureCreated(ws[1], envs[1]), ws[2]);
    SettledStage(EnsureCreated(ws[2], envs[2]), ws[3]);
    SettledStage(EnsureCreated(ws[3], envs[3]), ws[4]);
    SettledStage(EnsureCreated(ws[4], envs[4]), ws[5]);
    PassThrough(ws[0], envs[0]);
    EmptyKeeps(ws[0], envs[0]);
    SubmitsIff(ws[1], envs[1]);
    InitializedMoves(ws[2], envs[2]);
    PassThrough(ws[3], envs[3]);
    CheckMoves(ws[4], envs[4]);
  }

  lemma EmptyKeeps(w: World, env: Env)
    requires w.Stage() == EMPTY
    ensures EnsureCreated(w, env).submissions == w.submissions
  {
    hide Get, Set, Parse;
  }

  /** So an outdated master of a created cluster brings a completed control plane back to rolling in six passes. */
  lemma OutdatedMasterIsRolled(ws: seq<World>, envs: seq<Env>)
    requires AnsweredRun(ws, envs) && |ws| >= 7 && ws[0].Stage() == COMPLETED
    requires envs[0].rollout.AnyOld? && envs[5].rollout.AnyOld? && envs[5].clusterCreated
    ensures ws[1].Stage() == EMPTY && ws[6].Stage() == UPGRADING
  {
    hide EnsureCreated, Get, Parse, Settle, Answered;
    assert Answered(envs[0]) && Settle(EnsureCreated(ws[0], envs[0]), ws[0 + 1]);
    CompletedMoves(ws[0], envs[0]);
    SettledStage(EnsureCreated(ws[0], envs[0]), ws[1]);
    var rest, replies := ws[1..], envs[1..];
    forall i | 0 <= i < |rest| - 1
      ensures Answered(replies[i]) && Settle(EnsureCreated(rest[i], replies[i]), rest[i + 1])
    {
      assert rest[i] == ws[i + 1] && rest[i + 1] == ws[i + 1 + 1] && replies[i] == envs[i + 1];
    }
    assert Answered(envs[0]) ==> Stores(envs[0]) by { AnsweredMeans(envs[0]); }
    AnsweredMeans(envs[0]);
    FifthPassDecides(rest, replies);
    assert rest[5] == ws[6] && replies[4] == envs[5];
  }

  lemma AnsweredMeans(env: Env)
    requires Answered(env)
    ensures Stores(env) && env.setup && env.deploymentGet && env.tenant.Granted?
  {}

  // ---------------------------------------------------------------- the rollout and the list of releases

  function MasterVersions(nodes: seq<Node>): (r: seq<string>)
    ensures forall v <- r :: exists n <- nodes :: n.master && n.version == v
    ensures r != [] <==> exists n <- nodes :: n.master
  {
    if nodes == [] then [] else
    var rest, last := MasterVersions(nodes[..|nodes| - 1]), nodes[|nodes| - 1];
    assert nodes == nodes[..|nodes| - 1] + [last];
    if last.master then rest + [last.version] else rest
  }

  /** What a pass is told about the masters comes from their nodes and the list of releases. */
  predicate ToldBy(w: World, env: Env, releases: seq<Rollout.Release>) {
    env.rollout == match Rollout.AnyOutOfDate(MasterVersions(w.nodes), w.release, releases)
                   case Yes => AnyOld
                   case No => AllCurrent
                   case Failed => RolloutUnknown
  }

  /** All masters run the release of the cluster. */
  predicate Rolled(w: World) {
    && (exists n <- w.nodes :: n.master)
    && forall n <- w.nodes :: n.master ==> n.version == w.release && n.version != ""
  }

  lemma RolledRollout(w: World, env: Env, releases: seq<Rollout.Release>)
    requires Rolled(w) && ToldBy(w, env, releases)
    ensures env.rollout ==
      var r := Rollout.Find(w.release, releases);
      if r.None? then AnyOld else if Rollout.Complete(r.value) then AllCurrent else RolloutUnknown
  {
    var versions := MasterVersions(w.nodes);
    forall i | 0 <= i < |versions| ensures versions[i] == w.release && versions[i] != "" {
      assert versions[i] in versions;
    }
    hide Rollout.AnyOutOfDate, Rollout.Complete, Rollout.Find, MasterVersions;
    Rollout.RolledNodes(versions, w.release, releases);
  }

  /** When a completed control plane whose masters all run its release is left alone: with good replies and unchanged
      checksums, exactly as long as the release is listed. */
  lemma RestsIffListed(w: World, env: Env, releases: seq<Rollout.Release>)
    requires w.Stage() == COMPLETED && w.deployment == Some("Succeeded") && Rolled(w) && ToldBy(w, env, releases)
    requires Stores(env) && env.setup && env.deploymentGet && env.tenant.Granted? && env.computed.Computed?
    requires w.Checksum("TemplateChecksum") == env.computed.template
    requires w.Checksum("ParametersChecksum") == env.computed.parameters
    ensures EnsureCreated(w, env).Stage() == COMPLETED <==> Rollout.Find(w.release, releases).Some?
  {
    RolledRollout(w, env, releases);
    CompletedMoves(w, env);
    hide EnsureCreated, Get, Parse, Rolled, ToldBy, Rollout.Find, Rollout.Complete;
  }

  /** Once its release is not listed any more, a control plane never rests, although all masters run that release: in a
      run with good replies it leaves DeploymentCompleted in every pass that finds it there, and of a created cluster it
      rolls again five passes later. */
  lemma NeverRestsUnlisted(ws: seq<World>, envs: seq<Env>, releases: seq<Rollout.Release>, i: nat)
    requires AnsweredRun(ws, envs) && i < |envs| && ws[i].Stage() == COMPLETED
    requires forall j :: 0 <= j < |envs| ==>
      Rolled(ws[j]) && ToldBy(ws[j], envs[j], releases) && Rollout.Find(ws[j].release, releases).None?
    ensures ws[i + 1].Stage() == EMPTY
    ensures i + 6 < |ws| && envs[i + 5].clusterCreated ==> ws[i + 6].Stage() == UPGRADING
  {
    hide EnsureCreated, Get, Parse, Settle, Rolled, ToldBy, Rollout.Find, Rollout.Complete;
    RolledRollout(ws[i], envs[i], releases);
    var rest, replies := ws[i..], envs[i..];
    forall j | 0 <= j < |rest| - 1
      ensures Answered(replies[j]) && Settle(EnsureCreated(rest[j], replies[j]), rest[j + 1])
    {
      assert rest[j] == ws[i + j] && rest[j + 1] == ws[i + j + 1] && replies[j] == envs[i + j];
    }
    assert Settle(EnsureCreated(rest[0], replies[0]), rest[0 + 1]);
    CompletedMoves(ws[i], envs[i]);
    SettledStage(EnsureCreated(ws[i], envs[i]), ws[i + 1]);
    if i + 6 < |ws| && envs[i + 5].clusterCreated {
      RolledRollout(ws[i + 5], envs[i + 5], releases);
      OutdatedMasterIsRolled(rest, replies);
    }
  }
}
