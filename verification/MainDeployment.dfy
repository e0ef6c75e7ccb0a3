/** The main deployment of a cluster (service/controller/azureconfig/handler/deployment/resource.go): it is
    submitted when it is missing or failed, or when a checksum differs from the stored one. */
module MainDeployment {
  import opened Common
  import opened StatusStore

  const HANDLER := "deployment"
  const TEMPLATE_CHECKSUM := "TemplateChecksum"
  const PARAMETERS_CHECKSUM := "ParametersChecksum"

  /** `cidr` tells whether the range of the virtual network is known, `deployment` is the provisioning state of
      the main deployment, `endpoint` whether the master subnet has the storage service endpoint. */
  datatype World = World(cidr: bool, deployment: Option<string>, endpoint: bool, status: seq<Resource>,
                         submissions: nat)
  {
    function Checksum(t: string): string { Get(status, HANDLER, t) }
  }

  /** The checksums of a computed deployment, None when it cannot be computed. */
  datatype Computed = Computed(template: string, parameters: string)

  /** The replies of all APIs. The parameters depend on "initialProvisioning", which is Yes only while there is no
      deployment; so `initial` and `later` are the deployments computed with Yes and with No. */
  datatype Env = Env(setup: bool, deploymentGet: bool, initial: Option<Computed>, later: Option<Computed>,
                     subnetGet: bool, endpointWrite: bool, enrich: bool, readable: bool, submit: bool,
                     writeTemplate: bool, writeParameters: bool, natGateway: bool, now: int)

  predicate Unchanged(w: World, c: Computed) {
    w.Checksum(TEMPLATE_CHECKSUM) == c.template && w.Checksum(PARAMETERS_CHECKSUM) == c.parameters
  }

  function Store(w: World, t: string, s: string, now: int): World { w.(status := Set(w.status, HANDLER, t, s, now)) }

  function Submit(w: World, c: Computed, env: Env): World {
    if !env.submit then w
    else
      var w1 := w.(deployment := Some("Accepted"), submissions := w.submissions + 1);
      if c.template != "" && !(env.readable && env.writeTemplate) then w1
      else
        var w2 := if c.template != "" then Store(w1, TEMPLATE_CHECKSUM, c.template, env.now) else w1;
        if c.parameters != "" && !(env.readable && env.writeParameters) then w2
        else if c.parameters != "" then Store(w2, PARAMETERS_CHECKSUM, c.parameters, env.now) else w2
  }

  /** The end of the handler; a deployment that did not succeed is submitted without looking at checksums. */
  function Compare(w: World, c: Computed, failed: bool, env: Env): World {
    if failed then Submit(w, c, env)
    else if !env.readable || Unchanged(w, c) then w
    else Submit(w, c, env)
  }

  function Pass(w: World, env: Env): World {
    if !w.cidr || !env.setup || !env.deploymentGet then w
    else if w.deployment.None? then
      if env.initial.None? then w else Compare(w, env.initial.value, false, env)
    else if !FinalState(w.deployment.value) || env.later.None? || !env.subnetGet then w
    else if !w.endpoint then w.(endpoint := env.endpointWrite)
    else if !env.enrich then w
    else Compare(w, env.later.value, w.deployment.value != "Succeeded", env)
  }

  /** A submission that fails, or whose checksums cannot be stored. */
  predicate SubmitFails(c: Computed, env: Env) {
    || !env.submit
    || (c.template != "" && !(env.readable && env.writeTemplate))
    || (c.parameters != "" && !(env.readable && env.writeParameters))
  }

  /** An unchanged deployment is followed by the step for the NAT gateway, which may fail. */
  predicate CompareFails(w: World, c: Computed, failed: bool, env: Env) {
    if failed then SubmitFails(c, env)
    else !env.readable || if Unchanged(w, c) then !env.natGateway else SubmitFails(c, env)
  }

  predicate Fails(w: World, env: Env) {
    w.cidr && (
      || !env.setup || !env.deploymentGet
      || (w.deployment.None? && (env.initial.None? || CompareFails(w, env.initial.value, false, env)))
      || (w.deployment.Some? && FinalState(w.deployment.value) && (
            || env.later.None? || !env.subnetGet
            || (!w.endpoint && !env.endpointWrite)
            || (w.endpoint && (!env.enrich
                  || CompareFails(w, env.later.value, w.deployment.value != "Succeeded", env))))))
  }

  class Handler {
    const cidr: bool
    const holder: StatusHolder
    var deployment: Option<string>
    var endpoint: bool
    var submissions: nat

    ghost function View(): World
      reads this, holder
    {
      World(cidr, deployment, endpoint, holder.resources, submissions)
    }

    constructor (w: World)
      ensures View() == w && fresh(holder)
    {
      cidr, deployment, endpoint, submissions := w.cidr, w.deployment, w.endpoint, w.submissions;
      holder := new StatusHolder(w.status);
    }

    method EnsureServiceEndpoints(env: Env) returns (failed: bool, canceled: bool)
      modifies this`endpoint
      ensures failed <==> !env.subnetGet || (!old(endpoint) && !env.endpointWrite)
      ensures !failed ==> (canceled <==> !old(endpoint))
      ensures endpoint == (old(endpoint) || (env.subnetGet && env.endpointWrite))
    {
      if !env.subnetGet { return true, false; }
      if endpoint { return false, false; }
      if !env.endpointWrite { return true, false; }
      endpoint := true;
      return false, true;
    }

    method EnsureCreated(env: Env) returns (err: bool)
      modifies this`deployment, this`endpoint, this`submissions, holder
      ensures View() == Pass(old(View()), env)
      ensures err <==> Fails(old(View()), env)
    {
      hide Get, Set;
      if !cidr { return false; }
      if !env.setup || !env.deploymentGet { return true; }
      var failed := false;
      var computed;
      if deployment.None? {
        if env.initial.None? { return true; }
        computed := env.initial.value;
      } else {
        if deployment.value != "Succeeded" { failed := true; }
        if !FinalState(deployment.value) { return false; }
        if env.later.None? { return true; }
        computed := env.later.value;
        var refused, canceled := EnsureServiceEndpoints(env);
        if refused { return true; }
        if canceled { return false; }
        if !env.enrich { return true; }
      }
      if !failed {
        var template, unread := holder.GetResourceStatus(HANDLER, TEMPLATE_CHECKSUM, env.readable);
        if unread { return true; }
        var parameters;
        parameters, unread := holder.GetResourceStatus(HANDLER, PARAMETERS_CHECKSUM, env.readable);
        if unread { return true; }
        if template == computed.template && parameters == computed.parameters { return !env.natGateway; }
      }
      err := SubmitDeployment(computed, env);
    }

    method SubmitDeployment(computed: Computed, env: Env) returns (err: bool)
      modifies this`deployment, this`submissions, holder
      ensures View() == Submit(old(View()), computed, env)
      ensures err <==> SubmitFails(computed, env)
    {
      hide Get, Set;
      if !env.submit { return true; }
      err := false;
      deployment, submissions := Some("Accepted"), submissions + 1;
      if computed.template != "" {
        err := holder.SetResourceStatus(HANDLER, TEMPLATE_CHECKSUM, computed.template, env.now, env.readable,
            env.writeTemplate);
        if err { return; }
      }
      if computed.parameters != "" {
        err := holder.SetResourceStatus(HANDLER, PARAMETERS_CHECKSUM, computed.parameters, env.now, env.readable,
            env.writeParameters);
      }
    }
  }

  // ---------------------------------------------------------------- runs

  predicate Good(env: Env) {
    && env.setup && env.deploymentGet && env.subnetGet && env.endpointWrite && env.enrich && env.readable && env.submit
    && env.writeTemplate && env.writeParameters
  }

  /** Good replies while these two deployments, with real checksums, are the ones computed. */
  predicate Steady(env: Env, initial: Computed, later: Computed) {
    && Good(env) && env.initial == Some(initial) && env.later == Some(later)
    && initial.template != "" && initial.parameters != "" && later.template != "" && later.parameters != ""
  }

  /** Between two passes a deployment succeeds. */
  function Settle(w: World): World { if w.deployment.Some? then w.(deployment := Some("Succeeded")) else w }

  ghost predicate SteadyRun(ws: seq<World>, envs: seq<Env>, initial: Computed, later: Computed) {
    && |ws| > 0 && |envs| == |ws| - 1
    && forall i :: 0 <= i < |ws| - 1 ==> Steady(envs[i], initial, later) && ws[i + 1] == Settle(Pass(ws[i], envs[i]))
  }

  lemma SubmitStores(w: World, c: Computed, env: Env)
    requires !SubmitFails(c, env) && c.template != "" && c.parameters != ""
    ensures var w' := Submit(w, c, env);
      && Unchanged(w', c)
      && w' == w.(deployment := Some("Accepted"), submissions := w.submissions + 1, status := w'.status)
  {
    assert |TEMPLATE_CHECKSUM| == 16 && |PARAMETERS_CHECKSUM| == 18;
    var first := Set(w.status, HANDLER, TEMPLATE_CHECKSUM, c.template, env.now);
    SetIsMapUpdate(w.status, HANDLER, TEMPLATE_CHECKSUM, c.template, env.now, HANDLER, TEMPLATE_CHECKSUM);
    SetIsMapUpdate(first, HANDLER, PARAMETERS_CHECKSUM, c.parameters, env.now, HANDLER, TEMPLATE_CHECKSUM);
    SetIsMapUpdate(first, HANDLER, PARAMETERS_CHECKSUM, c.parameters, env.now, HANDLER, PARAMETERS_CHECKSUM);
    hide Set, Get;
  }

  /** A pass that compares checksums and reports no error leaves those of the deployment it computed in the status: it
      found them there, or stored them after its submission. */
  lemma SuccessMeansStored(w: World, env: Env)
    requires w.cidr && !Fails(w, env) && (w.deployment.None? || (FinalState(w.deployment.value) && w.endpoint))
    ensures var c := if w.deployment.None? then env.initial.value else env.later.value;
      c.template != "" && c.parameters != "" ==> Unchanged(Pass(w, env), c)
  {
    var c := if w.deployment.None? then env.initial.value else env.later.value;
    if c.template != "" && c.parameters != "" && !SubmitFails(c, env) { SubmitStores(w, c, env); }
    hide Set, Get, Submit, SubmitFails, Unchanged;
  }

  /** The two stored checksums are those of the computed deployment. */
  predicate Matches(w: World, c: Computed) {
    w.Checksum("TemplateChecksum") == c.template && w.Checksum("ParametersChecksum") == c.parameters
  }

  /** When the deployment is submitted, for all replies: it is missing or succeeded and a checksum differs, or it
      failed, whatever the checksums; one still in progress never is. Before one that ended is submitted again the
      master subnet gets its service endpoint, in a pass of its own. */
  lemma SubmitsIff(w: World, env: Env)
    ensures var w' := Pass(w, env);
      var starts := w.cidr && env.setup && env.deploymentGet;
      var ended := w.deployment.Some? && w.deployment.value in {"Succeeded", "Failed", "Canceled"};
      var ready := starts && ended && env.later.Some? && env.subnetGet;
      var submits := env.submit &&
        (|| (starts && w.deployment.None? && env.initial.Some? && env.readable && !Matches(w, env.initial.value))
         || (ready && w.endpoint && env.enrich
               && (w.deployment.value != "Succeeded" || (env.readable && !Matches(w, env.later.value)))));
      && w'.submissions == w.submissions + (if submits then 1 else 0)
      && w'.deployment == (if submits then Some("Accepted") else w.deployment)
      && (w'.endpoint <==> w.endpoint || (ready && env.endpointWrite))
      && (!submits ==> w'.status == w.status)
  {
    hide Set, Get;
  }

  /** A missing deployment is submitted by a good pass exactly when the stored checksums are not already those of
      the initial deployment: a deployment that was lost right after its first submission is never submitted
      again. */
  lemma MissingIsSubmittedIff(w: World, env: Env)
    requires w.cidr && w.deployment.None? && Good(env) && env.initial.Some?
    ensures Pass(w, env).deployment.Some? <==> !Unchanged(w, env.initial.value)
    ensures Unchanged(w, env.initial.value) ==> Pass(w, env) == w
  {
    hide Set, Get;
  }

  /** Lost right after its first submission, the main deployment stays lost in every run, whatever the replies, as long
      as the initial deployment computes to the same checksums. */
  lemma {:induction false} LostStaysLost(ws: seq<World>, envs: seq<Env>, initial: Computed)
    requires |ws| == |envs| + 1 && forall i :: 0 <= i < |envs| ==> ws[i + 1] == Pass(ws[i], envs[i])
    requires forall i :: 0 <= i < |envs| && envs[i].initial.Some? ==> envs[i].initial.value == initial
    requires ws[0].deployment.None? && Unchanged(ws[0], initial)
    ensures forall i :: 0 <= i < |ws| ==> ws[i] == ws[0]
  {
    hide Pass, Unchanged;
    for n := 0 to |envs|
      invariant forall i :: 0 <= i <= n ==> ws[i] == ws[0]
    {
      LostPass(ws[n], envs[n], initial);
      assert ws[n + 1] == Pass(ws[n], envs[n]);
    }
  }

  lemma LostPass(w: World, env: Env, initial: Computed)
    requires w.deployment.None? && Unchanged(w, initial) && (env.initial.Some? ==> env.initial.value == initial)
    ensures Pass(w, env) == w
  {
    hide Set, Get;
  }

  lemma RestingPass(w: World, env: Env, initial: Computed, later: Computed)
    requires Steady(env, initial, later) && w.cidr && w.deployment == Some("Succeeded") && w.endpoint
        && Unchanged(w, later)
    ensures Settle(Pass(w, env)) == w
  {
    hide Set, Get;
  }

  lemma LaterPass(w: World, env: Env, initial: Computed, later: Computed)
    requires Steady(env, initial, later) && w.cidr && w.deployment == Some("Succeeded")
    requires w.endpoint ==> !Unchanged(w, later)
    ensures var w' := Settle(Pass(w, env));
      if w.endpoint
      then w' == w.(submissions := w.submissions + 1, status := w'.status) && Unchanged(w', later)
      else w' == w.(endpoint := true)
  {
    SubmitStores(w, later, env);
    hide Set, Get, Submit;
  }

  lemma FirstPass(w: World, env: Env, initial: Computed, later: Computed)
    requires Steady(env, initial, later) && w.cidr && w.deployment.None? && !Unchanged(w, initial)
    ensures var w' := Settle(Pass(w, env));
      && w' == w.(deployment := Some("Succeeded"), submissions := w.submissions + 1, status := w'.status)
          && Unchanged(w', initial)
  {
    SubmitStores(w, initial, env);
    hide Set, Get, Submit;
  }

  /** The main result: the first submission stores the checksum of the initial parameters, so a cluster whose
      two deployments differ is always submitted exactly twice, and from the third pass on the world never
      changes again; if they agree it is submitted once. */
  lemma {:induction false} SubmittedTwice(ws: seq<World>, envs: seq<Env>, initial: Computed, later: Computed)
    requires SteadyRun(ws, envs, initial, later) && |ws| >= 4
    requires ws[0].cidr && ws[0].deployment.None? && !Unchanged(ws[0], initial)
    ensures forall i :: 3 <= i < |ws| ==> ws[i] == ws[3]
    ensures ws[3].submissions == ws[0].submissions + if initial == later then 1 else 2
    ensures ws[3].deployment == Some("Succeeded") && Unchanged(ws[3], later)
  {
    hide Pass, Settle, Steady, Unchanged;
    assert Steady(envs[0], initial, later) && ws[0 + 1] == Settle(Pass(ws[0], envs[0]));
    assert Steady(envs[1], initial, later) && ws[1 + 1] == Settle(Pass(ws[1], envs[1]));
    assert Steady(envs[2], initial, later) && ws[2 + 1] == Settle(Pass(ws[2], envs[2]));
    FirstPass(ws[0], envs[0], initial, later);
    TwoChecksums(ws[1], initial, later);
    if initial == later && ws[0].endpoint {
      RestingPass(ws[1], envs[1], initial, later);
    } else {
      LaterPass(ws[1], envs[1], initial, later);
    }
    TwoChecksums(ws[2], if ws[0].endpoint then later else initial, later);
    if initial == later || ws[0].endpoint {
      RestingPass(ws[2], envs[2], initial, later);
    } else {
      LaterPass(ws[2], envs[2], initial, later);
    }
    for n := 4 to |ws|
      invariant forall i :: 3 <= i < n ==> ws[i] == ws[3]
    {
      assert Steady(envs[n - 1], initial, later) && ws[n - 1 + 1] == Settle(Pass(ws[n - 1], envs[n - 1]));
      RestingPass(ws[n - 1], envs[n - 1], initial, later);
    }
  }

  lemma TwoChecksums(w: World, a: Computed, b: Computed)
    requires Unchanged(w, a)
    ensures Unchanged(w, b) <==> a == b
    ensures Unchanged(w.(endpoint := true), a)
  {}
}
