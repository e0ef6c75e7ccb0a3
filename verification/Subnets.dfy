/** Reconciliation of the subnets of an AzureCluster with Azure
    (service/controller/azurecluster/handler/subnet/resource.go). */
module Subnets {
  import opened Common
  import opened SubnetList

  /** An ARM deployment of a subnet: its two parameters that count, its provisioning state, and its output. */
  datatype Deployment = Deployment(name: string, cidr: string, state: string, id: string)

  /** `deployments` has the deployments by name of the subnet, as the name of a deployment is that of its subnet with
      a fixed prefix; `rules` the subnets allowed to the storage account, `live` the names of the subnets in Azure,
      `log` the indices of the submitted subnets. */
  datatype World = World(spec: seq<SubnetSpec>, deployments: map<string, Deployment>, rules: seq<string>,
                         live: seq<string>, log: seq<nat>)

  datatype Listing = Listed | NoVNet | ListFailed
  datatype Deletion = Deleted | InUse | Refused
  datatype Gateway = Ready | NotReady | NoAnswer
  datatype Account = Answered | AccountMissing | AccountFailed

  /** The replies of all APIs during one pass, by index of the subnet or by name. */
  datatype Env = Env(
    setup: bool, listing: Listing, deleteSubnet: string -> Deletion, deleteDeployment: string -> bool,
    gateway: Gateway, template: bool, get: nat -> bool, parameters: nat -> bool, create: nat -> bool,
    dropFailed: nat -> bool,
    output: nat -> bool, save: nat -> Save, ruleRead: nat -> Account, ruleWrite: nat -> Account)

  /** How the loop goes on after a subnet: to the next one, or out of the handler, with an error or without. */
  datatype Outcome = Done | Submitted(index: nat) | Canceled | Error

  // ---------------------------------------------------------------- one subnet

  predicate OutOfDate(w: World, i: nat)
    requires i < |w.spec| && w.spec[i].cidrs != []
  {
    var s := w.spec[i];
    s.name !in w.deployments || w.deployments[s.name].name != s.name || w.deployments[s.name].cidr != s.cidrs[0]
  }

  function Submit(w: World, i: nat): World
    requires i < |w.spec| && w.spec[i].cidrs != []
  {
    var s := w.spec[i];
    w.(deployments := w.deployments[s.name := Deployment(s.name, s.cidrs[0], "Accepted", "")], log := w.log + [i])
  }

  /** The storage rule of a subnet whose id is recorded. */
  function Allow(w: World, i: nat, id: string, env: Env): (World, Outcome) {
    if !env.ruleRead(i).Answered? then (w, Stopped(env.ruleRead(i)))
    else if id in w.rules then (w, Done)
    else if !env.ruleWrite(i).Answered? then (w, Stopped(env.ruleWrite(i)))
    else (w.(rules := w.rules + [id]), Done)
  }

  /** A missing storage account only cancels the handler. */
  function Stopped(reply: Account): Outcome { if reply.AccountMissing? then Canceled else Error }

  /** A subnet whose deployment succeeded: record its id, then allow it to the storage account. */
  function Record(w: World, i: nat, id: string, env: Env): (World, Outcome)
    requires i < |w.spec|
  {
    if !env.output(i) then (w, Error)
    else if w.spec[i].id == id then Allow(w, i, id, env)
    else
      match env.save(i)
      case Conflict => (w, Canceled)
      case SaveFailed => (w, Error)
      case Saved => Allow(w.(spec := w.spec[i := w.spec[i].(id := id)]), i, id, env)
  }

  function One(w: World, i: nat, env: Env): (World, Outcome)
    requires i < |w.spec| && w.spec[i].cidrs != []
  {
    var name := w.spec[i].name;
    if name in w.deployments && !env.parameters(i) then (w, Error)
    else if OutOfDate(w, i) then
      if env.create(i) then (Submit(w, i), Submitted(i)) else (w, Error)
    else if FailedState(w.deployments[name].state) then
      if env.dropFailed(i) then (w.(deployments := w.deployments - {name}), Done) else (w, Error)
    else if w.deployments[name].state == "Succeeded" then Record(w, i, w.deployments[name].id, env)
    else (w, Done)
  }

  /** The loop from index i on. A submission ends the pass, as Azure creates subnets one at a time. */
  function Ensure(w: World, i: nat, env: Env): (World, Outcome)
    requires i <= |w.spec|
    decreases |w.spec| - i
  {
    if i == |w.spec| then (w, Done)
    else if !env.get(i) then (w, Error)
    else if w.spec[i].cidrs == [] then Ensure(w, i + 1, env)
    else
      var (w', o) := One(w, i, env);
      if o.Done? then Ensure(w', i + 1, env) else (w', o)
  }

  // ---------------------------------------------------------------- garbage collection

  predicate InSpec(spec: seq<SubnetSpec>, name: string) { exists i :: 0 <= i < |spec| && spec[i].name == name }

  predicate Protected(name: string) {
    HasSuffix(name, "-MasterSubnet") || HasSuffix(name, "-WorkerSubnet") || HasSuffix(name, "GatewaySubnet")
  }

  function WithoutName(s: seq<string>, name: string): (r: seq<string>)
    ensures forall n :: n in r <==> n in s && n != name
  {
    if s == [] then [] else
    var rest := WithoutName(s[..|s| - 1], name);
    assert s == s[..|s| - 1] + [s[|s| - 1]];
    if s[|s| - 1] == name then rest else rest + [s[|s| - 1]]
  }

  /** The loop over the subnets in Azure: one in use is passed over, another failure ends the loop. */
  function Sweep(names: seq<string>, w: World, env: Env): (World, bool) {
    if names == [] then (w, false)
    else if InSpec(w.spec, names[0]) || Protected(names[0]) then Sweep(names[1..], w, env)
    else
      match env.deleteSubnet(names[0])
      case InUse => Sweep(names[1..], w, env)
      case Refused => (w, true)
      case Deleted =>
        var w1 := w.(live := WithoutName(w.live, names[0]));
        if !env.deleteDeployment(names[0]) then (w1, true)
        else Sweep(names[1..], w1.(deployments := w1.deployments - {names[0]}), env)
  }

  function Collect(w: World, env: Env): (World, bool) {
    match env.listing
    case NoVNet => (w, false)
    case ListFailed => (w, true)
    case Listed => Sweep(w.live, w, env)
  }

  /** A pass: collect garbage, then go over the subnets when the NAT gateway is ready. The second part says whether the
      handler fails; a gateway that is not ready only cancels it. */
  function Attempt(w: World, env: Env): (World, bool) {
    if !env.setup then (w, true)
    else
      var (w', failed) := Collect(w, env);
      if failed || env.gateway.NoAnswer? then (w', true)
      else if env.gateway.NotReady? then (w', false)
      else if !env.template then (w', true)
      else var (w'', o) := Ensure(w', 0, env); (w'', o.Error?)
  }

  function Pass(w: World, env: Env): World { Attempt(w, env).0 }

  // ---------------------------------------------------------------- the handler

  class Handler {
    var spec: seq<SubnetSpec>
    var deployments: map<string, Deployment>
    var rules: seq<string>
    var live: seq<string>
    ghost var log: seq<nat>

    ghost function View(): World
      reads this
    {
      World(spec, deployments, rules, live, log)
    }

    constructor (w: World)
      ensures View() == w
    {
      spec, deployments, rules, live, log := w.spec, w.deployments, w.rules, w.live, w.log;
    }

    method IsDeploymentOutOfDate(i: nat) returns (r: bool)
      requires i < |spec| && spec[i].cidrs != [] && spec[i].name in deployments
      ensures r <==> OutOfDate(View(), i)
    {
      var d := deployments[spec[i].name];
      return spec[i].name != d.name || spec[i].cidrs[0] != d.cidr;
    }

    method EnsureSubnetIsAllowed(i: nat, id: string, env: Env) returns (o: Outcome)
      modifies this`rules
      ensures (View(), o) == Allow(old(View()), i, id, env)
    {
      if env.ruleRead(i).AccountMissing? { return Canceled; }
      if env.ruleRead(i).AccountFailed? { return Error; }
      for k := 0 to |rules|
        invariant id !in rules[..k]
      {
        if rules[k] == id { return Done; }
      }
      assert rules[..|rules|] == rules;
      if env.ruleWrite(i).AccountMissing? { return Canceled; }
      if env.ruleWrite(i).AccountFailed? { return Error; }
      rules := rules + [id];
      return Done;
    }

    method EnsureOne(i: nat, env: Env) returns (o: Outcome)
      requires i < |spec| && spec[i].cidrs != []
      modifies this`spec, this`deployments, this`rules, this`log
      ensures (View(), o) == One(old(View()), i, env)
    {
      var name := spec[i].name;
      var shouldSubmit := name !in deployments;
      if !shouldSubmit {
        if !env.parameters(i) { return Error; }
        shouldSubmit := IsDeploymentOutOfDate(i);
      }
      if shouldSubmit {
        if !env.create(i) { return Error; }
        deployments := deployments[name := Deployment(name, spec[i].cidrs[0], "Accepted", "")];
        log := log + [i];
        return Submitted(i);
      }
      var state := deployments[name].state;
      if state == "Failed" || state == "Canceled" {
        if !env.dropFailed(i) { return Error; }
        deployments := deployments - {name};
      } else if state == "Succeeded" {
        if !env.output(i) { return Error; }
        var id := deployments[name].id;
        if spec[i].id != id {
          if env.save(i).Conflict? { return Canceled; }
          if env.save(i).SaveFailed? { return Error; }
          spec := spec[i := spec[i].(id := id)];
        }
        o := EnsureSubnetIsAllowed(i, id, env);
        return;
      }
      return Done;
    }

    method EnsureSubnets(env: Env) returns (o: Outcome)
      modifies this`spec, this`deployments, this`rules, this`log
      ensures env.gateway.Ready? && env.template ==> (View(), o) == Ensure(old(View()), 0, env)
      ensures !env.gateway.Ready? || !env.template ==>
          View() == old(View()) && o == if env.gateway.NotReady? then Canceled else Error
    {
      hide One;
      if env.gateway.NotReady? { return Canceled; }
      if env.gateway.NoAnswer? || !env.template { return Error; }
      var i := 0;
      while i < |spec|
        invariant 0 <= i <= |spec| == old(|spec|)
        invariant Ensure(old(View()), 0, env) == Ensure(View(), i, env)
      {
        if !env.get(i) { return Error; }
        if |spec[i].cidrs| == 0 { i := i + 1; continue; }
        OneKeepsLength(View(), i, env);
        o := EnsureOne(i, env);
        if !o.Done? { return; }
        i := i + 1;
      }
      return Done;
    }

    method IsSubnetInSpec(name: string) returns (r: bool)
      ensures r <==> InSpec(spec, name)
    {
      for i := 0 to |spec|
        invariant forall j :: 0 <= j < i ==> spec[j].name != name
      {
        if spec[i].name == name { return true; }
      }
      return false;
    }

    method GarbageCollectSubnets(env: Env) returns (failed: bool)
      modifies this`live, this`deployments
      ensures (View(), failed) == Collect(old(View()), env)
    {
      hide InSpec, Protected, WithoutName;
      if env.listing.NoVNet? { return false; }
      if env.listing.ListFailed? { return true; }
      var names := live;
      for k := 0 to |names|
        invariant Sweep(names, old(View()), env) == Sweep(names[k..], View(), env)
      {
        assert names[k..][0] == names[k] && names[k..][1..] == names[k + 1..];
        var name := names[k];
        var kept := IsSubnetInSpec(name);
        if kept || Protected(name) { continue; }
        var reply := env.deleteSubnet(name);
        if reply.InUse? { continue; }
        if reply.Refused? { return true; }
        live := WithoutName(live, name);
        if !env.deleteDeployment(name) { return true; }
        deployments := deployments - {name};
      }
      return false;
    }

    method EnsureCreated(env: Env) returns (failed: bool)
      modifies this
      ensures (View(), failed) == Attempt(old(View()), env)
    {
      hide Collect, Ensure;
      if !env.setup { return true; }
      failed := GarbageCollectSubnets(env);
      if failed { return; }
      var o := EnsureSubnets(env);
      failed := o.Error?;
    }
  }

  // ---------------------------------------------------------------- what one pass does

  /** The same subnets, up to their ids. */
  predicate SameSubnets(a: seq<SubnetSpec>, b: seq<SubnetSpec>) {
    |a| == |b| && forall i :: 0 <= i < |a| ==> a[i].name == b[i].name && a[i].cidrs == b[i].cidrs
  }

  lemma OneKeepsLength(w: World, i: nat, env: Env)
    requires i < |w.spec| && w.spec[i].cidrs != []
    ensures SameSubnets(w.spec, One(w, i, env).0.spec)
  {
    hide OutOfDate, FailedState;
  }

  predicate NoDuplicates(s: seq<string>) { forall i, j :: 0 <= i < j < |s| ==> s[i] != s[j] }

  lemma OneKeepsRules(w: World, i: nat, env: Env)
    requires i < |w.spec| && w.spec[i].cidrs != []
    ensures var (w', o) := One(w, i, env);
      && w'.live == w.live && w.rules <= w'.rules && (NoDuplicates(w.rules) ==> NoDuplicates(w'.rules))
      && w'.log == (if o.Submitted? then w.log + [o.index] else w.log)
  {
    hide OutOfDate, FailedState;
  }

  /** What a pass over the subnets may do, whatever the replies: at most one submission, which is its outcome; storage
      rules are only added, and never twice. */
  lemma {:induction false} EnsureFrame(w: World, i: nat, env: Env)
    requires i <= |w.spec|
    ensures var (w', o) := Ensure(w, i, env);
      && SameSubnets(w.spec, w'.spec) && w'.live == w.live && w.rules <= w'.rules
      && (NoDuplicates(w.rules) ==> NoDuplicates(w'.rules))
      && w'.log == (if o.Submitted? then w.log + [o.index] else w.log)
    decreases |w.spec| - i
  {
    hide OutOfDate, FailedState;
    if i < |w.spec| && env.get(i) {
      if w.spec[i].cidrs == [] {
        EnsureFrame(w, i + 1, env);
      } else {
        OneKeepsLength(w, i, env);
        OneKeepsRules(w, i, env);
        hide One, NoDuplicates;
        var (w', o) := One(w, i, env);
        if o.Done? { EnsureFrame(w', i + 1, env); }
      }
    }
  }

  /** From index i on, an earlier subnet of the same name has a failed deployment, which the pass drops. */
  predicate DroppedBefore(w: World, i: nat, k: nat)
    requires k < |w.spec|
  {
    exists j :: i <= j < k && w.spec[j].name == w.spec[k].name && w.spec[k].name in w.deployments
                && FailedState(w.deployments[w.spec[k].name].state)
  }

  lemma OneFrame(w: World, i: nat, env: Env)
    requires i < |w.spec| && w.spec[i].cidrs != [] && One(w, i, env).1.Done?
    ensures var w' := One(w, i, env).0;
      && SameSubnets(w.spec, w'.spec) && !OutOfDate(w, i)
      && (forall n :: n in w'.deployments ==> n in w.deployments && w'.deployments[n] == w.deployments[n])
      && (forall n :: n in w.deployments && n !in w'.deployments ==>
          n == w.spec[i].name && FailedState(w.deployments[n].state))
  {
    hide FailedState;
  }

  lemma OutOfDateAfter(w: World, i: nat, env: Env, k: nat)
    requires i < k < |w.spec| && w.spec[i].cidrs != [] && w.spec[k].cidrs != [] && One(w, i, env).1.Done?
    ensures var w' := One(w, i, env).0;
      && |w'.spec| == |w.spec| && w'.spec[k].name == w.spec[k].name && w'.spec[k].cidrs == w.spec[k].cidrs
      && (OutOfDate(w, k) ==> OutOfDate(w', k))
      && (OutOfDate(w', k) || DroppedBefore(w', i + 1, k) ==> OutOfDate(w, k) || DroppedBefore(w, i, k))
  {
    OneFrame(w, i, env);
    var w' := One(w, i, env).0;
    hide One, FailedState;
    if DroppedBefore(w', i + 1, k) {
      var j :| i + 1 <= j < k && w'.spec[j].name == w'.spec[k].name && w'.spec[k].name in w'.deployments
               && FailedState(w'.deployments[w'.spec[k].name].state);
      assert w.spec[j].name == w.spec[k].name;
    }
  }

  lemma OutOfDateAfterOne(w: World, i: nat, env: Env)
    requires i < |w.spec| && w.spec[i].cidrs != [] && One(w, i, env).1.Done?
    ensures var w' := One(w, i, env).0;
      |w'.spec| == |w.spec| && forall k :: i < k < |w.spec| ==>
        && w'.spec[k].name == w.spec[k].name && w'.spec[k].cidrs == w.spec[k].cidrs
        && (w.spec[k].cidrs != [] ==>
              && (OutOfDate(w, k) ==> OutOfDate(w', k))
              && (OutOfDate(w', k) || DroppedBefore(w', i + 1, k) ==> OutOfDate(w, k) || DroppedBefore(w, i, k)))
  {
    OneKeepsLength(w, i, env);
    hide One, OutOfDate, DroppedBefore;
    forall k | i < k < |w.spec| && w.spec[k].cidrs != []
      ensures OutOfDate(w, k) ==> OutOfDate(One(w, i, env).0, k)
      ensures OutOfDate(One(w, i, env).0, k) || DroppedBefore(One(w, i, env).0, i + 1, k) ==>
          OutOfDate(w, k) || DroppedBefore(w, i, k)
    {
      OutOfDateAfter(w, i, env, k);
    }
  }

  /** A submission is of the first subnet with a CIDR, in order, whose deployment is missing, differs in name or CIDR,
      or was dropped as failed for an earlier subnet of the same name; and the pass goes through to the end only
      when there is no subnet of the first two kinds. */
  lemma {:induction false} SubmitsTheFirst(w: World, i: nat, env: Env)
    requires i <= |w.spec|
    ensures var (w', o) := Ensure(w, i, env);
      && (o.Submitted? ==>
            var k := o.index;
            && i <= k < |w.spec| && w.spec[k].cidrs != [] && (OutOfDate(w, k) || DroppedBefore(w, i, k))
            && (forall j :: i <= j < k && w.spec[j].cidrs != [] ==> !OutOfDate(w, j))
            && w.spec[k].name in w'.deployments
            && w'.deployments[w.spec[k].name] == Deployment(w.spec[k].name, w.spec[k].cidrs[0], "Accepted", ""))
      && (o.Done? ==> forall j :: i <= j < |w.spec| && w.spec[j].cidrs != [] ==> !OutOfDate(w, j))
    decreases |w.spec| - i
  {
    if i < |w.spec| && env.get(i) {
      if w.spec[i].cidrs == [] {
        hide OutOfDate;
        SubmitsTheFirst(w, i + 1, env);
        hide Ensure;
        DropEarlier(w, i);
      } else {
        var (w', o) := One(w, i, env);
        if o.Done? {
          OneFrame(w, i, env);
          OutOfDateAfterOne(w, i, env);
          hide OutOfDate, DroppedBefore, One;
          SubmitsTheFirst(w', i + 1, env);
        }
      }
    }
  }

  lemma DropEarlier(w: World, i: nat)
    ensures forall k :: 0 <= k < |w.spec| && DroppedBefore(w, i + 1, k) ==> DroppedBefore(w, i, k)
  {
    hide FailedState;
  }

  /** With unique names, as allocation keeps them, the submitted subnet is the first one missing or out of date. */
  lemma SubmitsTheFirstStale(w: World, env: Env)
    requires UniqueNames(w.spec)
    ensures var o := Ensure(w, 0, env).1;
      o.Submitted? ==>
        && o.index < |w.spec| && w.spec[o.index].cidrs != [] && OutOfDate(w, o.index)
        && forall j :: 0 <= j < o.index && w.spec[j].cidrs != [] ==> !OutOfDate(w, j)
  {
    SubmitsTheFirst(w, 0, env);
    hide Ensure, OutOfDate, FailedState;
    assert forall k :: 0 <= k < |w.spec| ==> !DroppedBefore(w, 0, k);
  }

  // ---------------------------------------------------------------- garbage collection

  predicate Kept(w: World, name: string) { InSpec(w.spec, name) || Protected(name) }

  /** Whatever the replies, garbage collection deletes only subnets that are neither in the specification nor
      protected, and keeps the deployments of all subnets in the specification. */
  lemma {:induction false} SweepIsSafe(names: seq<string>, w: World, env: Env)
    ensures var w' := Sweep(names, w, env).0;
      && w' == w.(live := w'.live, deployments := w'.deployments)
      && (forall n :: n in w'.live ==> n in w.live)
      && (forall n :: n in w.live && n !in w'.live ==> !Kept(w, n) && n in names && env.deleteSubnet(n).Deleted?)
      && (forall n :: InSpec(w.spec, n) || n !in names ==> (n in w'.deployments <==> n in w.deployments))
      && (forall n :: n in w'.deployments ==> n in w.deployments && w'.deployments[n] == w.deployments[n])
  {
    hide InSpec, Protected, WithoutName;
    if names != [] {
      var n := names[0];
      var w1 := if Kept(w, n) || !env.deleteSubnet(n).Deleted? then w
                else w.(live := WithoutName(w.live, n), deployments := w.deployments - {n});
      SweepIsSafe(names[1..], w1, env);
      assert names == [n] + names[1..];
    }
  }

  ghost predicate AnswersAll(env: Env) {
    (forall n :: !env.deleteSubnet(n).Refused?) && forall n :: env.deleteDeployment(n)
  }

  lemma {:induction false} SweepIsComplete(names: seq<string>, w: World, env: Env)
    requires AnswersAll(env)
    ensures var (w', failed) := Sweep(names, w, env);
      !failed && forall n :: n in names && n in w'.live ==> Kept(w, n) || env.deleteSubnet(n).InUse?
  {
    hide InSpec, Protected, WithoutName;
    if names != [] {
      var n := names[0];
      var w1 := if Kept(w, n) || !env.deleteSubnet(n).Deleted? then w
                else w.(live := WithoutName(w.live, n), deployments := w.deployments - {n});
      SweepIsComplete(names[1..], w1, env);
      SweepIsSafe(names[1..], w1, env);
      assert names == [n] + names[1..];
    }
  }

  /** The loop goes on after this name: it is kept, in use, or deleted together with its deployment. */
  predicate Goes(w: World, name: string, env: Env) {
    Kept(w, name) || env.deleteSubnet(name).InUse? || (env.deleteSubnet(name).Deleted? && env.deleteDeployment(name))
  }

  /** The loop comes to the name. */
  predicate Reached(names: seq<string>, w: World, name: string, env: Env) {
    exists i :: 0 <= i < |names| && names[i] == name && forall j :: 0 <= j < i ==> Goes(w, names[j], env)
  }

  /** The loop deletes the subnet. */
  predicate Removed(names: seq<string>, w: World, name: string, env: Env) {
    Reached(names, w, name, env) && !Kept(w, name) && env.deleteSubnet(name).Deleted?
  }

  lemma ReachedStep(names: seq<string>, w: World, name: string, env: Env)
    requires names != []
    ensures Reached(names, w, name, env) <==>
        names[0] == name || (Goes(w, names[0], env) && Reached(names[1..], w, name, env))
  {
    hide Goes;
    assert names == [names[0]] + names[1..];
    if names[0] != name && Goes(w, names[0], env) && Reached(names[1..], w, name, env) {
      var i :| 0 <= i < |names[1..]| && names[1..][i] == name && forall j :: 0 <= j < i ==> Goes(w, names[1..][j], env);
      assert forall j :: 0 < j < i + 1 ==> names[j] == names[1..][j - 1];
      assert names[i + 1] == name;
    }
    if names[0] != name && Reached(names, w, name, env) {
      var i :| 0 <= i < |names| && names[i] == name && forall j :: 0 <= j < i ==> Goes(w, names[j], env);
      assert names[1..][i - 1] == name;
      assert forall j :: 0 <= j < i - 1 ==> names[1..][j] == names[j + 1];
    }
  }

  lemma SameReached(names: seq<string>, w: World, w1: World, name: string, env: Env)
    requires w1.spec == w.spec
    ensures Removed(names, w1, name, env) <==> Removed(names, w, name, env)
  {
    assert forall n :: Goes(w1, n, env) <==> Goes(w, n, env);
    assert Kept(w1, name) <==> Kept(w, name);
    hide Goes, Kept;
  }

  /** What the loop does to one name, for all replies: its subnet goes exactly when it is removed, its deployment
      exactly when that is deleted too. */
  lemma {:induction false} SweepIff(names: seq<string>, w: World, env: Env, name: string)
    ensures var w' := Sweep(names, w, env).0; var gone := Removed(names, w, name, env);
      && (name in w'.live <==> name in w.live && !gone)
      && (name in w'.deployments <==> name in w.deployments && !(gone && env.deleteDeployment(name)))
  {
    if names != [] {
      var n := names[0];
      ReachedStep(names, w, name, env);
      hide InSpec, Protected, WithoutName, Reached;
      var w1 := if Kept(w, n) || !env.deleteSubnet(n).Deleted? then w
                else w.(live := WithoutName(w.live, n), deployments := w.deployments - {n});
      SweepIff(names[1..], w1, env, name);
      SameReached(names[1..], w, w1, name, env);
    }
  }

  /** For all replies, the sweep fails exactly when it cannot go on at some name. */
  lemma {:induction false} SweepFailsIff(names: seq<string>, w: World, env: Env)
    ensures Sweep(names, w, env).1 <==> exists n :: n in names && !Goes(w, n, env)
  {
    if names != [] {
      hide InSpec, Protected, WithoutName;
      var n := names[0];
      var w1 := if Kept(w, n) || !env.deleteSubnet(n).Deleted? then w
                else w.(live := WithoutName(w.live, n), deployments := w.deployments - {n});
      SweepFailsIff(names[1..], w1, env);
      assert names == [n] + names[1..];
      assert n in names && forall m :: m in names <==> m == n || m in names[1..];
      assert forall m :: Goes(w1, m, env) <==> Goes(w, m, env);
      assert !Goes(w, n, env) ==> Sweep(names, w, env).1;
      hide Goes, Kept;
    }
  }

  /** Exactly which subnets garbage collection leaves, and when it fails, for all replies; with good ones, exactly the
      subnets in the specification, the protected ones and the ones in use are left. */
  lemma CollectLeavesIff(w: World, env: Env)
    ensures var (w', failed) := Collect(w, env);
      && (failed <==> env.listing.ListFailed? || (env.listing.Listed? && exists n :: n in w.live && !Goes(w, n, env)))
      && (forall n :: n in w'.live <==> n in w.live && !(env.listing.Listed? && Removed(w.live, w, n, env)))
      && (AnswersAll(env) && env.listing.Listed? ==>
            !failed && forall n :: n in w'.live <==> n in w.live && (Kept(w, n) || env.deleteSubnet(n).InUse?))
  {
    SweepFailsIff(w.live, w, env);
    forall n ensures n in Sweep(w.live, w, env).0.live <==> n in w.live && !Removed(w.live, w, n, env) {
      SweepIff(w.live, w, env, n);
    }
    if AnswersAll(env) {
      SweepIsComplete(w.live, w, env);
      SweepIsSafe(w.live, w, env);
    }
    hide Sweep, Kept, Goes, Removed, AnswersAll;
  }

  /** Whatever the replies, the subnets of the masters, the workers and the VPN gateway are never deleted, and with good
      ones every subnet of another name is, unless it is in use or in the specification. */
  lemma ProtectedIff(w: World, env: Env, name: string)
    requires name in w.live
    ensures var protected :=
        HasSuffix(name, "-MasterSubnet") || HasSuffix(name, "-WorkerSubnet") || HasSuffix(name, "GatewaySubnet");
      && (protected ==> name in Pass(w, env).live)
      && (AnswersAll(env) && env.setup && env.listing.Listed? && env.deleteSubnet(name).Deleted? ==>
            (name in Pass(w, env).live <==> protected || exists i :: 0 <= i < |w.spec| && w.spec[i].name == name))
  {
    SweepIsSafe(w.live, w, env);
    CollectLeavesIff(w, env);
    EnsureFrame(Collect(w, env).0, 0, env);
    hide Sweep, Ensure, Goes, Removed, AnswersAll, HasSuffix;
  }

  /** Exactly which deployments are collected, for all replies: those of the subnets that the same pass deletes, unless
      their own deletion fails. So the deployment of a subnet that is gone never is. */
  lemma CollectedIff(w: World, env: Env, name: string)
    requires name in w.deployments
    ensures name !in Collect(w, env).0.deployments <==>
        env.listing.Listed? && Removed(w.live, w, name, env) && env.deleteDeployment(name)
  {
    SweepIff(w.live, w, env, name);
    hide Sweep, Removed;
  }

  /** When the handler fails, for all replies: a NAT gateway that is not ready only cancels it. */
  lemma AttemptFailsIff(w: World, env: Env)
    ensures Attempt(w, env).1 <==>
      || !env.setup || env.listing.ListFailed?
      || (env.listing.Listed? && exists n :: n in w.live && !Goes(w, n, env))
      || env.gateway.NoAnswer?
      || (env.gateway.Ready? && (!env.template || Ensure(Collect(w, env).0, 0, env).1.Error?))
  {
    CollectLeavesIff(w, env);
    hide Collect, Ensure, Goes, Removed, AnswersAll, Kept;
  }

  /** The storage rule of a subnet is there when the pass goes on; it stops, without an error, when the storage account
      is missing. */
  lemma AllowMeans(w: World, i: nat, id: string, env: Env)
    ensures var (w', o) := Allow(w, i, id, env); var asks := env.ruleRead(i).Answered? && id !in w.rules;
      && (o == Done <==> env.ruleRead(i).Answered? && (id in w.rules || env.ruleWrite(i).Answered?))
      && (o == Canceled <==> env.ruleRead(i).AccountMissing? || (asks && env.ruleWrite(i).AccountMissing?))
      && (o == Done || o == Canceled || o == Error)
      && w' == w.(rules := if asks && env.ruleWrite(i).Answered? then w.rules + [id] else w.rules)
  {}

  /** The id of a subnet is saved exactly when it is another one, and only then a conflict or a failed save ends the
      pass; the rule comes after that. */
  lemma RecordMeans(w: World, i: nat, id: string, env: Env)
    requires i < |w.spec|
    ensures var (w', o) := Record(w, i, id, env); var saves := env.output(i) && w.spec[i].id != id;
      && w'.spec == (if saves && env.save(i).Saved? then w.spec[i := w.spec[i].(id := id)] else w.spec)
      && (if !env.output(i) || (saves && !env.save(i).Saved?)
          then w' == w && o == if saves && env.save(i).Conflict? then Canceled else Error
          else (w', o) == Allow(w.(spec := w'.spec), i, id, env))
  {}

  // ---------------------------------------------------------------- deployments without a subnet

  /** There is no subnet of that name in Azure, but a deployment of it that did not fail; and where the specification
      has the name, it is with the CIDR of that deployment. */
  predicate Orphaned(w: World, name: string, cidr: string) { name !in w.live && Deployed(w, name, cidr) }

  predicate Deployed(w: World, name: string, cidr: string) {
    && name in w.deployments
    && w.deployments[name].name == name && w.deployments[name].cidr == cidr && !FailedState(w.deployments[name].state)
    && forall i :: 0 <= i < |w.spec| && w.spec[i].name == name ==> w.spec[i].cidrs == [] || w.spec[i].cidrs[0] == cidr
  }

  lemma CollectKeepsOrphan(w: World, env: Env, name: string, cidr: string)
    requires Orphaned(w, name, cidr)
    ensures var w' := Collect(w, env).0; Orphaned(w', name, cidr) && w'.spec == w.spec && w'.log == w.log
  {
    SweepIsSafe(w.live, w, env);
    hide Sweep, FailedState;
  }

  lemma OneKeepsOrphan(w: World, i: nat, env: Env, name: string, cidr: string)
    requires i < |w.spec| && w.spec[i].cidrs != [] && Orphaned(w, name, cidr)
    ensures var (w', o) := One(w, i, env);
      && Orphaned(w', name, cidr) && SameSubnets(w.spec, w'.spec)
      && (o.Submitted? ==> o.index == i && w.spec[i].name != name && w'.log == w.log + [i])
      && (!o.Submitted? ==> w'.log == w.log)
  {
    OneKeepsLength(w, i, env);
    OneKeepsRules(w, i, env);
    hide FailedState;
  }

  lemma {:induction false} EnsureKeepsOrphan(w: World, i: nat, env: Env, name: string, cidr: string)
    requires i <= |w.spec| && Orphaned(w, name, cidr)
    ensures var (w', o) := Ensure(w, i, env);
      && Orphaned(w', name, cidr) && SameSubnets(w.spec, w'.spec)
      && (if o.Submitted?
          then o.index < |w.spec| && w.spec[o.index].name != name && w'.log == w.log + [o.index]
          else w'.log == w.log)
    decreases |w.spec| - i
  {
    hide Orphaned;
    if i < |w.spec| && env.get(i) {
      if w.spec[i].cidrs == [] {
        EnsureKeepsOrphan(w, i + 1, env, name, cidr);
      } else {
        OneKeepsOrphan(w, i, env, name, cidr);
        hide One;
        var (w', o) := One(w, i, env);
        if o.Done? {
          EnsureKeepsOrphan(w', i + 1, env, name, cidr);
          var (w'', o') := Ensure(w', i + 1, env);
          SameSubnetsTransitive(w.spec, w'.spec, w''.spec);
          assert o'.Submitted? && o'.index < |w.spec| ==> w'.spec[o'.index].name == w.spec[o'.index].name;
        }
      }
    }
  }

  lemma {:induction false} EnsureAddsSpecified(w: World, i: nat, env: Env, name: string)
    requires i <= |w.spec| && name !in w.deployments && !InSpec(w.spec, name)
    ensures name !in Ensure(w, i, env).0.deployments
    decreases |w.spec| - i
  {
    hide FailedState, OutOfDate;
    if i < |w.spec| && env.get(i) {
      if w.spec[i].cidrs == [] {
        EnsureAddsSpecified(w, i + 1, env, name);
      } else {
        OneKeepsLength(w, i, env);
        var (w', o) := One(w, i, env);
        if o.Done? { EnsureAddsSpecified(w', i + 1, env, name); }
      }
    }
  }

  /** Exactly when garbage collection leaves an orphan: it was one before, or the subnet is deleted and then the
      deletion of its deployment fails. */
  lemma CollectOrphansIff(w: World, env: Env, name: string, cidr: string)
    ensures Orphaned(Collect(w, env).0, name, cidr) <==>
        && Deployed(w, name, cidr)
        && (name in w.live ==>
              env.listing.Listed? && Removed(w.live, w, name, env) && !env.deleteDeployment(name))
  {
    SweepIff(w.live, w, env, name);
    SweepIsSafe(w.live, w, env);
    hide Sweep, Removed, Kept, FailedState, InSpec;
  }

  /** The same for a whole pass, which stops there and can submit no subnet of that name. */
  lemma PassOrphansIff(w: World, env: Env, name: string, cidr: string)
    requires name in w.live
    ensures Orphaned(Pass(w, env), name, cidr) <==>
        && env.setup && env.listing.Listed? && Deployed(w, name, cidr)
        && Removed(w.live, w, name, env) && !env.deleteDeployment(name)
  {
    CollectOrphansIff(w, env, name, cidr);
    CollectLeavesIff(w, env);
    SweepIff(w.live, w, env, name);
    SweepIsSafe(w.live, w, env);
    var w1 := Collect(w, env).0;
    EnsureFrame(w1, 0, env);
    if Removed(w.live, w, name, env) {
      if env.deleteDeployment(name) {
        if env.listing.Listed? { EnsureAddsSpecified(w1, 0, env, name); }
      } else {
        assert !Goes(w, name, env);
      }
    }
    hide Sweep, Ensure, Goes, Removed, FailedState, InSpec, AnswersAll;
  }

  /** The step submits nothing, or a subnet of another name. */
  predicate SubmitsNot(w: World, w': World, name: string) {
    || w'.log == w.log
    || (|w'.log| == |w.log| + 1 && w'.log[..|w.log|] == w.log && w'.log[|w.log|] < |w.spec|
        && w.spec[w'.log[|w.log|]].name != name)
  }

  lemma PassKeepsOrphan(w: World, env: Env, name: string, cidr: string)
    requires Orphaned(w, name, cidr)
    ensures Orphaned(Pass(w, env), name, cidr) && SubmitsNot(w, Pass(w, env), name)
  {
    CollectKeepsOrphan(w, env, name, cidr);
    EnsureKeepsOrphan(Collect(w, env).0, 0, env, name, cidr);
    hide Collect, Ensure, Orphaned;
  }

  ghost predicate PassOf(w: World, w': World) { exists env :: w' == Pass(w, env) }

  /** Main result on garbage: a deployment that did not fail and whose subnet is gone stays for ever, in every run of
      passes with any replies and of changes to anything else; and a pool that gets its name and CIDR is taken for
      deployed and never submitted, so its subnet never comes to exist. */
  lemma {:induction false} OrphanedDeploymentStays(ws: seq<World>, name: string, cidr: string)
    requires |ws| > 0 && Orphaned(ws[0], name, cidr)
    requires forall i :: 0 <= i < |ws| - 1 ==>
      PassOf(ws[i], ws[i + 1]) || (ws[i + 1].log == ws[i].log && (Orphaned(ws[i], name, cidr) ==>
          Orphaned(ws[i + 1], name, cidr)))
    ensures forall i :: 0 <= i < |ws| ==> Orphaned(ws[i], name, cidr)
    ensures forall i :: 0 <= i < |ws| - 1 ==> SubmitsNot(ws[i], ws[i + 1], name)
  {
    hide Orphaned, Pass;
    for n := 1 to |ws|
      invariant forall i :: 0 <= i < n ==> Orphaned(ws[i], name, cidr)
      invariant forall i :: 0 <= i < n - 1 ==> SubmitsNot(ws[i], ws[i + 1], name)
    {
      if PassOf(ws[n - 1], ws[n - 1 + 1]) {
        var env :| ws[n] == Pass(ws[n - 1], env);
        PassKeepsOrphan(ws[n - 1], env, name, cidr);
      }
    }
  }

  // ---------------------------------------------------------------- convergence

  /** The deployment of the subnet has failed. */
  predicate FailedAt(w: World, i: nat)
    requires i < |w.spec|
  {
    w.spec[i].name in w.deployments && FailedState(w.deployments[w.spec[i].name].state)
  }

  predicate StaleAt(w: World, i: nat) { i < |w.spec| && w.spec[i].cidrs != [] && (OutOfDate(w, i) || FailedAt(w, i)) }

  /** The subnets whose deployment is missing, out of date or failed. */
  function Stale(w: World): set<nat> { set i: nat | i < |w.spec| && StaleAt(w, i) }

  predicate NoFailures(w: World) { forall i :: 0 <= i < |w.spec| && w.spec[i].cidrs != [] ==> !FailedAt(w, i) }

  predicate NoneOutOfDate(w: World) { forall i :: 0 <= i < |w.spec| && w.spec[i].cidrs != [] ==> !OutOfDate(w, i) }

  /** Subnets of the same name have the same CIDR; so they do when names are unique. */
  predicate Coherent(s: seq<SubnetSpec>) {
    forall i, j :: 0 <= i < j < |s| && s[i].cidrs != [] && s[j].cidrs != [] && s[i].name == s[j].name ==>
      s[i].cidrs[0] == s[j].cidrs[0]
  }

  function DeploymentFor(s: seq<SubnetSpec>, i: nat): map<string, Deployment>
    decreases |s| - i
  {
    if i >= |s| then map[]
    else if s[i].cidrs == [] then DeploymentFor(s, i + 1)
    else DeploymentFor(s, i + 1)[s[i].name := Deployment(s[i].name, s[i].cidrs[0], "Succeeded", "")]
  }

  predicate Fits(ds: map<string, Deployment>, s: SubnetSpec)
    requires s.cidrs != []
  {
    s.name in ds && ds[s.name].name == s.name && ds[s.name].cidr == s.cidrs[0] && ds[s.name].state == "Succeeded"
  }

  lemma {:induction false} DeploymentsFit(s: seq<SubnetSpec>, i: nat)
    requires Coherent(s) && i <= |s|
    ensures forall j :: i <= j < |s| && s[j].cidrs != [] ==> Fits(DeploymentFor(s, i), s[j])
    decreases |s| - i
  {
    if i < |s| { DeploymentsFit(s, i + 1); }
  }

  /** A specification can be in step with some deployments exactly when subnets of the same name have the same CIDR. */
  lemma CanRestIff(w: World)
    ensures (exists ds :: Stale(w.(deployments := ds)) == {}) <==> Coherent(w.spec)
  {
    if Coherent(w.spec) {
      DeploymentsFit(w.spec, 0);
      var w' := w.(deployments := DeploymentFor(w.spec, 0));
      assert !FailedState("Succeeded");
      assert forall i :: 0 <= i < |w.spec| && w.spec[i].cidrs != [] ==>
          Fits(w'.deployments, w.spec[i]) && !StaleAt(w', i);
      hide DeploymentFor;
      assert Stale(w') == {};
    }
    if ds :| Stale(w.(deployments := ds)) == {} {
      var w' := w.(deployments := ds);
      forall i | 0 <= i < |w.spec| && w.spec[i].cidrs != [] ensures !OutOfDate(w', i) { assert i !in Stale(w'); }
      InStepIsCoherent(w');
    }
  }

  lemma InStepIsCoherent(w: World)
    requires NoneOutOfDate(w)
    ensures Coherent(w.spec)
  {}

  ghost predicate Good(env: Env) {
    && env.setup && env.gateway.Ready? && env.template && !env.listing.ListFailed? && AnswersAll(env)
    && (forall i: nat :: env.get(i) && env.parameters(i) && env.create(i) && env.dropFailed(i) && env.output(i))
    && (forall i: nat :: env.save(i).Saved? && env.ruleRead(i).Answered? && env.ruleWrite(i).Answered?)
  }

  /** All deployments have come to an end, the successful ones with the id of their subnet. */
  predicate Settled(w: World, id: string -> string) {
    forall n :: n in w.deployments ==>
      FailedState(w.deployments[n].state) || (w.deployments[n].state == "Succeeded" && w.deployments[n].id == id(n))
  }

  /** Between two passes the deployments that have not failed succeed. */
  function Settle(w: World, id: string -> string): World {
    w.(deployments := map n | n in w.deployments ::
         if FailedState(w.deployments[n].state) then w.deployments[n]
         else w.deployments[n].(state := "Succeeded", id := id(n)))
  }

  /** The id of the subnet is in the specification, and the storage account allows it. */
  predicate Recorded(w: World, i: nat, id: string -> string)
    requires i < |w.spec|
  {
    w.spec[i].id == id(w.spec[i].name) && w.spec[i].id in w.rules
  }

  predicate AllRecorded(w: World, id: string -> string) {
    forall i :: 0 <= i < |w.spec| && w.spec[i].cidrs != [] ==> Recorded(w, i, id)
  }

  /** What a pass over the subnets with good replies comes to. */
  predicate Progress(w: World, w': World, o: Outcome, i: nat) {
    && SameSubnets(w.spec, w'.spec) && w'.live == w.live && (o.Submitted? || o.Done?)
    && (forall n :: n in w.deployments && n !in w'.deployments ==> FailedState(w.deployments[n].state))
    && (o.Done? ==>
          && w'.log == w.log
          && (forall n :: n in w'.deployments ==> n in w.deployments && w'.deployments[n] == w.deployments[n])
          && (forall j :: i <= j < |w.spec| && w.spec[j].cidrs != [] ==>
                !OutOfDate(w, j) && (FailedAt(w, j) ==> w.spec[j].name !in w'.deployments)))
    && (o.Submitted? ==>
          && w'.log == w.log + [o.index] && StaleAt(w, o.index)
          && var s := w.spec[o.index];
             && s.name in w'.deployments && w'.deployments[s.name] == Deployment(s.name, s.cidrs[0], "Accepted", "")
             && forall n :: n in w'.deployments && n != s.name ==>
                 n in w.deployments && w'.deployments[n] == w.deployments[n])
  }

  lemma GoodOne(w: World, i: nat, env: Env)
    requires i < |w.spec| && w.spec[i].cidrs != [] && Good(env)
    ensures var (w', o) := One(w, i, env);
      && SameSubnets(w.spec, w'.spec) && w'.live == w.live
      && if OutOfDate(w, i) then o == Submitted(i) && w' == Submit(w, i)
         else o == Done && w'.log == w.log
              && w'.deployments == if FailedAt(w, i) then w.deployments - {w.spec[i].name} else w.deployments
  {
    OneKeepsLength(w, i, env);
    hide SameSubnets, FailedState;
  }

  lemma {:induction false} GoodEnsure(w: World, i: nat, env: Env)
    requires i <= |w.spec| && Good(env)
    ensures Progress(w, Ensure(w, i, env).0, Ensure(w, i, env).1, i)
    decreases |w.spec| - i
  {
    if i < |w.spec| {
      if w.spec[i].cidrs == [] {
        hide Progress;
        GoodEnsure(w, i + 1, env);
        ProgressFromBefore(w, Ensure(w, i + 1, env).0, Ensure(w, i + 1, env).1, i);
      } else {
        GoodOne(w, i, env);
        var (w1, o) := One(w, i, env);
        if OutOfDate(w, i) {
          hide Ensure, Good, FailedState;
        } else {
          hide One, Progress;
          GoodEnsure(w1, i + 1, env);
          hide Good;
          ProgressAfterOne(w, w1, Ensure(w1, i + 1, env).0, Ensure(w1, i + 1, env).1, i);
        }
      }
    }
  }

  lemma ProgressFromBefore(w: World, w': World, o: Outcome, i: nat)
    requires i < |w.spec| && w.spec[i].cidrs == [] && Progress(w, w', o, i + 1)
    ensures Progress(w, w', o, i)
  {
    hide OutOfDate, FailedAt, FailedState, SameSubnets;
  }

  lemma ProgressAfterOne(w: World, w1: World, w': World, o: Outcome, i: nat)
    requires i < |w.spec| && w.spec[i].cidrs != [] && !OutOfDate(w, i)
    requires SameSubnets(w.spec, w1.spec) && w1.live == w.live && w1.log == w.log
    requires w1.deployments == if FailedAt(w, i) then w.deployments - {w.spec[i].name} else w.deployments
    requires Progress(w1, w', o, i + 1)
    ensures Progress(w, w', o, i)
  {
    SameSubnetsTransitive(w.spec, w1.spec, w'.spec);
    forall j | 0 <= j < |w.spec| && w.spec[j].cidrs != []
      ensures StaleAt(w1, j) ==> StaleAt(w, j)
      ensures OutOfDate(w, j) ==> OutOfDate(w1, j)
      ensures FailedAt(w, j) ==> FailedAt(w1, j) || w.spec[j].name !in w1.deployments
    {}
    hide OutOfDate, StaleAt, FailedState;
  }

  /** The same for a whole pass and the time until the next. */
  function Round(w: World, env: Env, id: string -> string): World { Settle(Pass(w, env), id) }

  /** What a round does to the stale subnets: none becomes stale, and those of the submitted name are no longer;
      without a submission the failed deployments are gone. */
  predicate RoundOf(w: World, w': World) {
    && SameSubnets(w.spec, w'.spec)
    && (NoFailures(w) ==> NoFailures(w'))
    && (|| (w'.log == w.log && NoneOutOfDate(w) && NoFailures(w') && Stale(w') == Stale(w))
        || (|w'.log| == |w.log| + 1 && w'.log[..|w.log|] == w.log
            && var k := w'.log[|w.log|];
               && k in Stale(w)
               && (forall j :: j in Stale(w) && j !in Stale(w') ==> w.spec[j].name == w.spec[k].name)
               && (Coherent(w.spec) ==> k !in Stale(w') && Stale(w') <= Stale(w))))
  }

  lemma ProgressIsRound(w: World, w': World, o: Outcome)
    requires Progress(w, w', o, 0)
    ensures RoundOf(w, w')
  {
    forall j: nat | j < |w.spec| && w.spec[j].cidrs != []
      ensures FailedAt(w', j) ==> FailedAt(w, j)
      ensures o.Done? ==> (StaleAt(w', j) <==> StaleAt(w, j)) && !FailedAt(w', j)
      ensures o.Submitted? && w.spec[j].name != w.spec[o.index].name ==> (StaleAt(w', j) <==> StaleAt(w, j))
      ensures o.Submitted? && Coherent(w.spec) && w.spec[j].name == w.spec[o.index].name ==> !StaleAt(w', j)
    {
      StaleCases(w, w', o, j);
    }
    hide OutOfDate, FailedAt, FailedState, Coherent;
  }

  lemma StaleCases(w: World, w': World, o: Outcome, j: nat)
    requires Progress(w, w', o, 0) && j < |w.spec| && w.spec[j].cidrs != []
    ensures FailedAt(w', j) ==> FailedAt(w, j)
    ensures o.Done? ==> (StaleAt(w', j) <==> StaleAt(w, j)) && !FailedAt(w', j)
    ensures o.Submitted? && w.spec[j].name != w.spec[o.index].name ==> (StaleAt(w', j) <==> StaleAt(w, j))
    ensures o.Submitted? && Coherent(w.spec) && w.spec[j].name == w.spec[o.index].name ==> !StaleAt(w', j)
  {
    assert w'.spec[j].name == w.spec[j].name && w'.spec[j].cidrs == w.spec[j].cidrs;
    assert !FailedState("Accepted");
    if o.Submitted? && Coherent(w.spec) && w.spec[j].name == w.spec[o.index].name {
      assert w.spec[j].cidrs[0] == w.spec[o.index].cidrs[0];
    }
    hide FailedState, Coherent;
  }

  lemma SameStale(w: World, w': World)
    requires w'.spec == w.spec
    requires forall i :: 0 <= i < |w.spec| && w.spec[i].cidrs != [] ==>
      (OutOfDate(w', i) <==> OutOfDate(w, i)) && (FailedAt(w', i) <==> FailedAt(w, i))
    ensures Stale(w') == Stale(w) && (NoFailures(w') <==> NoFailures(w)) && (NoneOutOfDate(w') <==> NoneOutOfDate(w))
  {
    hide OutOfDate, FailedAt;
  }

  lemma SettleEffect(w: World, id: string -> string)
    ensures var w' := Settle(w, id);
      && Settled(w', id) && w' == w.(deployments := w'.deployments)
      && Stale(w') == Stale(w) && (NoFailures(w') <==> NoFailures(w)) && (NoneOutOfDate(w') <==> NoneOutOfDate(w))
  {
    var w' := Settle(w, id);
    assert !FailedState("Succeeded");
    forall i | 0 <= i < |w.spec| && w.spec[i].cidrs != []
      ensures (OutOfDate(w', i) <==> OutOfDate(w, i)) && (FailedAt(w', i) <==> FailedAt(w, i))
    {}
    hide FailedState;
    SameStale(w, w');
  }

  lemma CollectEffect(w: World, env: Env, id: string -> string)
    requires Good(env)
    ensures var (w', failed) := Collect(w, env);
      && !failed && (Settled(w, id) ==> Settled(w', id)) && w' == w.(live := w'.live, deployments := w'.deployments)
      && Stale(w') == Stale(w) && (NoFailures(w') <==> NoFailures(w)) && (NoneOutOfDate(w') <==> NoneOutOfDate(w))
  {
    var w' := Collect(w, env).0;
    SweepIsSafe(w.live, w, env);
    SweepIsComplete(w.live, w, env);
    hide Sweep, FailedState;
    forall i | 0 <= i < |w.spec| && w.spec[i].cidrs != []
      ensures (OutOfDate(w', i) <==> OutOfDate(w, i)) && (FailedAt(w', i) <==> FailedAt(w, i))
    {
      assert InSpec(w.spec, w.spec[i].name);
    }
    SameStale(w, w');
  }

  lemma GoodPass(w: World, env: Env)
    requires Good(env)
    ensures Pass(w, env) == Ensure(Collect(w, env).0, 0, env).0
  {
    SweepIsComplete(w.live, w, env);
    hide Sweep, Ensure;
  }

  lemma RoundEffect(w: World, env: Env, id: string -> string)
    requires Good(env)
    ensures RoundOf(w, Round(w, env, id)) && Settled(Round(w, env, id), id)
  {
    hide Good, Pass, Collect, Ensure, Settled, Coherent, Settle, Progress;
    hide Stale, NoFailures, NoneOutOfDate, SameSubnets;
    CollectEffect(w, env, id);
    var w1 := Collect(w, env).0;
    GoodEnsure(w1, 0, env);
    var (w2, o) := Ensure(w1, 0, env);
    ProgressIsRound(w1, w2, o);
    SettleEffect(w2, id);
    GoodPass(w, env);
  }

  lemma SettledOne(w: World, i: nat, env: Env, id: string -> string)
    requires i < |w.spec| && w.spec[i].cidrs != [] && Good(env) && Settled(w, id) && !StaleAt(w, i)
    ensures var (w', o) := One(w, i, env);
      && o == Done && w'.deployments == w.deployments && SameSubnets(w.spec, w'.spec)
      && Recorded(w', i, id) && w.rules <= w'.rules
      && (forall j :: 0 <= j < |w.spec| && j != i ==> w'.spec[j] == w.spec[j])
      && (Recorded(w, i, id) ==> w' == w)
  {
    OneKeepsLength(w, i, env);
    assert !FailedState("Succeeded");
    hide SameSubnets;
  }

  lemma StaleSame(w: World, w': World)
    requires SameSubnets(w.spec, w'.spec) && w.deployments == w'.deployments
    ensures Stale(w') == Stale(w)
  {
    forall i: nat | i < |w.spec| ensures StaleAt(w, i) <==> StaleAt(w', i) {}
    hide StaleAt;
  }

  /** Once nothing is stale, a good pass leaves every id recorded and allowed, and if they already were it changes
      nothing. */
  lemma {:induction false} RestingEnsure(w: World, i: nat, env: Env, id: string -> string)
    requires i <= |w.spec| && Good(env) && Settled(w, id) && Stale(w) == {}
    requires forall j :: 0 <= j < i && w.spec[j].cidrs != [] ==> Recorded(w, j, id)
    ensures var (w', o) := Ensure(w, i, env); AllRecorded(w', id) && (AllRecorded(w, id) ==> w' == w)
    decreases |w.spec| - i
  {
    if i < |w.spec| {
      if w.spec[i].cidrs == [] {
        RestingEnsure(w, i + 1, env, id);
      } else {
        assert !StaleAt(w, i) by { assert i !in Stale(w); }
        SettledOne(w, i, env, id);
        var (w', o) := One(w, i, env);
        StaleSame(w, w');
        hide One, Stale;
        RestingEnsure(w', i + 1, env, id);
      }
    }
  }

  lemma RestingRound(w: World, env: Env, id: string -> string)
    requires Good(env) && Settled(w, id) && Stale(w) == {}
    ensures var w' := Round(w, env, id);
      AllRecorded(w', id) && (AllRecorded(w, id) ==> w'.spec == w.spec && w'.rules == w.rules)
  {
    CollectEffect(w, env, id);
    var w1 := Collect(w, env).0;
    RestingEnsure(w1, 0, env, id);
    hide Collect, Ensure, Settled, Stale, Good;
  }

  ghost predicate Rounds(ws: seq<World>, envs: seq<Env>, id: string -> string) {
    |ws| > 0 && |envs| == |ws| - 1 && forall k :: 0 <= k < |ws| - 1 ==>
        Good(envs[k]) && ws[k + 1] == Round(ws[k], envs[k], id)
  }

  lemma CoherentSame(a: seq<SubnetSpec>, b: seq<SubnetSpec>)
    requires SameSubnets(a, b)
    ensures Coherent(a) <==> Coherent(b)
  {}

  lemma Fewer(a: set<nat>, b: set<nat>, k: nat)
    requires a <= b && k in b && k !in a
    ensures |a| < |b|
  {
    assert b == (b - a) + a && k in b - a;
  }

  /** The rounds to come before nothing is stale: one for each stale subnet, and one more when a deployment has failed
      and has to be dropped first. */
  function Potential(w: World): nat { |Stale(w)| + if NoFailures(w) then 0 else 1 }

  lemma NothingStale(w: World)
    requires Stale(w) == {}
    ensures NoFailures(w) && NoneOutOfDate(w)
  {
    forall i: nat | i < |w.spec| && w.spec[i].cidrs != [] ensures !StaleAt(w, i) { assert i !in Stale(w); }
  }

  lemma InStepIsNotStale(w: World)
    requires NoFailures(w) && NoneOutOfDate(w)
    ensures Stale(w) == {}
  {
    forall i: nat | i < |w.spec| ensures !StaleAt(w, i) {}
    hide StaleAt;
  }

  lemma RoundLowersPotential(w: World, w': World)
    requires RoundOf(w, w') && Coherent(w.spec)
    ensures Coherent(w'.spec) && |w'.log| + |Stale(w')| <= |w.log| + |Stale(w)|
    ensures Stale(w) != {} ==> Potential(w') < Potential(w)
    ensures Stale(w) == {} ==> Stale(w') == {} && w'.log == w.log
  {
    CoherentSame(w.spec, w'.spec);
    if w'.log != w.log { Fewer(Stale(w'), Stale(w), w'.log[|w.log|]); }
    if NoneOutOfDate(w) && NoFailures(w) { InStepIsNotStale(w); }
    if Stale(w) == {} { NothingStale(w); }
    hide Stale, NoFailures, NoneOutOfDate, Coherent, SameSubnets;
  }

  /** Main result on subnets: from any start, in rounds in which deployments succeed, m stale subnets take at most m
      submissions, and as many passes, or one more if some deployment had failed or was still running. One pass
      later every id is recorded and allowed, and from then on nothing is written. */
  lemma {:induction false} Converges(ws: seq<World>, envs: seq<Env>, id: string -> string)
    requires Rounds(ws, envs, id) && Coherent(ws[0].spec)
    ensures var m := |Stale(ws[0])|; var d := m + if NoFailures(ws[0]) && Settled(ws[0], id) then 0 else 1;
      forall k :: 0 <= k < |ws| ==>
        && SameSubnets(ws[0].spec, ws[k].spec) && |ws[k].log| <= |ws[0].log| + m
        && (k >= d ==> Stale(ws[k]) == {} && ws[k].log == ws[d].log)
        && (k >= d + 1 ==> AllRecorded(ws[k], id) && ws[k].spec == ws[d + 1].spec && ws[k].rules == ws[d + 1].rules)
  {
    hide Round, Good, Stale, Settled, SameSubnets, Coherent, AllRecorded, NoFailures, RoundOf;
    var m := |Stale(ws[0])|;
    var d := m + if NoFailures(ws[0]) && Settled(ws[0], id) then 0 else 1;
    SameSubnetsReflexive(ws[0].spec);
    for n := 1 to |ws|
      invariant forall k :: 0 <= k < n ==> SameSubnets(ws[0].spec, ws[k].spec) && |ws[k].log| <= |ws[0].log| + m
      invariant Coherent(ws[n - 1].spec) && (n - 1 >= d ==> Settled(ws[n - 1], id))
      invariant |Stale(ws[n - 1])| + |ws[n - 1].log| <= |ws[0].log| + m
      invariant Stale(ws[n - 1]) == {} || Potential(ws[n - 1]) <= d - (n - 1)
      invariant forall k :: d <= k < n ==> Stale(ws[k]) == {} && ws[k].log == ws[d].log
      invariant forall k :: d + 1 <= k < n ==>
          AllRecorded(ws[k], id) && ws[k].spec == ws[d + 1].spec && ws[k].rules == ws[d + 1].rules
    {
      assert Good(envs[n - 1]) && ws[n - 1 + 1] == Round(ws[n - 1], envs[n - 1], id);
      RoundEffect(ws[n - 1], envs[n - 1], id);
      RoundLowersPotential(ws[n - 1], ws[n]);
      RoundKeepsSubnets(ws[n - 1], ws[n]);
      SameSubnetsTransitive(ws[0].spec, ws[n - 1].spec, ws[n].spec);
      if n - 1 >= d { RestingRound(ws[n - 1], envs[n - 1], id); }
    }
  }

  lemma RoundKeepsSubnets(w: World, w': World)
    requires RoundOf(w, w')
    ensures SameSubnets(w.spec, w'.spec)
  {
    hide SameSubnets, Stale;
  }

  lemma SameSubnetsReflexive(a: seq<SubnetSpec>)
    ensures SameSubnets(a, a)
  {}

  lemma SameSubnetsTransitive(a: seq<SubnetSpec>, b: seq<SubnetSpec>, c: seq<SubnetSpec>)
    requires SameSubnets(a, b) && SameSubnets(b, c)
    ensures SameSubnets(a, c)
  {}

  lemma UniqueIsCoherent(s: seq<SubnetSpec>)
    requires UniqueNames(s)
    ensures Coherent(s)
  {}

  lemma UniqueSame(a: seq<SubnetSpec>, b: seq<SubnetSpec>)
    requires SameSubnets(a, b) && UniqueNames(a)
    ensures UniqueNames(b)
  {}

  /** With unique names a round submits one subnet, which is the only one that is no longer stale, or changes none. */
  lemma UniqueRound(w: World, w': World)
    requires RoundOf(w, w') && UniqueNames(w.spec)
    ensures UniqueNames(w'.spec) && w.log <= w'.log
    ensures if w'.log == w.log then Stale(w') == Stale(w)
            else |w'.log| == |w.log| + 1 && w'.log[|w.log|] in Stale(w) && Stale(w') == Stale(w) - {w'.log[|w.log|]}
  {
    UniqueIsCoherent(w.spec);
    UniqueSame(w.spec, w'.spec);
    if w'.log != w.log {
      var k := w'.log[|w.log|];
      assert forall j :: j in Stale(w) && j !in Stale(w') ==> j < |w.spec| && w.spec[j].name == w.spec[k].name;
      assert k < |w.spec|;
    }
    hide Stale, Coherent, SameSubnets, NoFailures, NoneOutOfDate;
  }

  /** With unique names, exactly the subnets are ever submitted that were stale at the start, each of them once; so a
      pool whose deployment is there, with its name and CIDR, and did not fail, never is. */
  lemma {:induction false} SubmittedIffStale(ws: seq<World>, envs: seq<Env>, id: string -> string)
    requires Rounds(ws, envs, id) && UniqueNames(ws[0].spec) && |ws| >= |Stale(ws[0])| + 2
    ensures var old', new' := ws[0].log, ws[|ws| - 1].log;
      && old' <= new' && |new'| == |old'| + |Stale(ws[0])|
      && forall i :: i in new'[|old'|..] <==> i in Stale(ws[0])
  {
    hide Round, Good, Stale, UniqueNames, RoundOf, Settled, AllRecorded, NoFailures, Coherent, SameSubnets;
    UniqueIsCoherent(ws[0].spec);
    Converges(ws, envs, id);
    var start := ws[0].log;
    for n := 1 to |ws|
      invariant UniqueNames(ws[n - 1].spec) && start <= ws[n - 1].log
      invariant |ws[n - 1].log| + |Stale(ws[n - 1])| == |start| + |Stale(ws[0])|
      invariant Stale(ws[n - 1]) <= Stale(ws[0])
      invariant forall i :: i in Stale(ws[0]) <==> i in ws[n - 1].log[|start|..] || i in Stale(ws[n - 1])
    {
      var w, w' := ws[n - 1], ws[n];
      assert Good(envs[n - 1]) && ws[n - 1 + 1] == Round(ws[n - 1], envs[n - 1], id);
      RoundEffect(w, envs[n - 1], id);
      UniqueRound(w, w');
      if w'.log != w.log {
        assert w'.log[|start|..] == w.log[|start|..] + [w'.log[|w.log|]];
      }
    }
  }

  /** Two subnets of one name with different CIDRs take turns for ever: from any start, every pass submits. */
  lemma {:induction false} NeverRests(ws: seq<World>, envs: seq<Env>, id: string -> string)
    requires Rounds(ws, envs, id) && !Coherent(ws[0].spec)
    ensures forall k :: 0 <= k < |ws| ==> |ws[k].log| == |ws[0].log| + k
  {
    hide Round, Good, Settled, Coherent, RoundOf;
    for n := 1 to |ws|
      invariant forall k :: 0 <= k < n ==> |ws[k].log| == |ws[0].log| + k
      invariant !Coherent(ws[n - 1].spec)
    {
      assert Good(envs[n - 1]) && ws[n - 1 + 1] == Round(ws[n - 1], envs[n - 1], id);
      RoundEffect(ws[n - 1], envs[n - 1], id);
      IncoherentSubmits(ws[n - 1], ws[n]);
    }
  }

  lemma IncoherentSubmits(w: World, w': World)
    requires RoundOf(w, w') && !Coherent(w.spec)
    ensures |w'.log| == |w.log| + 1 && !Coherent(w'.spec)
  {
    CoherentSame(w.spec, w'.spec);
    if NoneOutOfDate(w) {
      InStepIsCoherent(w);
      assert false;
    }
    hide Coherent, SameSubnets, Stale, NoFailures, NoneOutOfDate;
  }
}
