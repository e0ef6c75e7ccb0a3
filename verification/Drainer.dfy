/** Cordoning and draining of workload cluster nodes (pkg/drainer).

    Every API call may fail; the caller passes the replies of one call sequence as an `Api` value.
    Times are nanoseconds; the drain-start annotation keeps whole seconds, as RFC 3339 does. */
module Drainer {
  import opened Common

  const MINUTE: int := 60 * SECOND

  datatype Version = Version(major: nat, minor: nat, patch: nat) {
    predicate LessThan(o: Version) {
      || major < o.major
      || (major == o.major && minor < o.minor)
      || (major == o.major && minor == o.minor && patch < o.patch)
    }
  }

  datatype Pod = Pod(name: string, namespace: string, daemonSet: bool, reason: string)

  /** The drain-started annotation: not set, set to something unparsable, or a time in seconds. */
  datatype Stamp = Missing | Invalid | Started(seconds: int) {
    predicate Expired(now: int, timeout: int) {
      Started? && now - seconds * SECOND > timeout
    }
  }

  datatype Node = Node(ready: bool, worker: bool, operatorVersion: Option<Version>, cgroup: string,
                       kubelet: string, unschedulable: bool, stamp: Stamp, pods: seq<Pod>)

  datatype Reply = Accepted | Refused | Broken

  /** A write is done, finds no node any more, or fails. */
  datatype Write = Written | Vanished | WriteFailed

  /** Replies of the API during one call: reading, writing and listing may fail, and each eviction
      request is accepted, refused ("Cannot evict pod") or broken. */
  datatype Api = Api(get: bool, write: Write, list: bool, evict: Pod -> Reply)

  datatype Verdict = Gone | Drained | TimedOut | InProgress | Failed {
    predicate Finished() { Gone? || Drained? || TimedOut? }
  }

  // ---------------------------------------------------------------- pods

  predicate Critical(name: string) {
    || HasPrefix(name, "k8s-api-healthz")
    || HasPrefix(name, "k8s-api-server")
    || HasPrefix(name, "k8s-controller-manager")
    || HasPrefix(name, "k8s-scheduler")
  }

  predicate Exempt(p: Pod) {
    Critical(p.name) || p.daemonSet || p.reason == "Evicted"
  }

  predicate System(p: Pod) { p.namespace == "kube-system" }

  predicate CustomPod(p: Pod) { !Exempt(p) && !System(p) }

  predicate SystemPod(p: Pod) { !Exempt(p) && System(p) }

  function Filter<T(!new)>(f: T -> bool, s: seq<T>): (r: seq<T>)
    ensures forall x :: x in r <==> x in s && f(x)
    ensures |r| <= |s|
  {
    if s == [] then [] else
    var rest := Filter(f, s[..|s| - 1]);
    if f(s[|s| - 1]) then rest + [s[|s| - 1]] else rest
  }

  lemma FilterNone<T(!new)>(f: T -> bool, s: seq<T>)
    requires s == []
    ensures Filter(f, s) == []
  {}

  lemma FilterNext<T(!new)>(f: T -> bool, s: seq<T>, i: nat)
    requires i < |s|
    ensures Filter(f, s[..i + 1]) == Filter(f, s[..i]) + if f(s[i]) then [s[i]] else []
  {
    assert s[..i + 1][..i] == s[..i];
  }

  /** The requests a loop over `ps` sends: all of them, or up to the first one that breaks. */
  function Attempts(ps: seq<Pod>, evict: Pod -> Reply): seq<Pod> {
    if ps == [] then []
    else if evict(ps[0]) == Broken then [ps[0]]
    else [ps[0]] + Attempts(ps[1..], evict)
  }

  lemma {:induction false} AttemptsArePrefix(ps: seq<Pod>, evict: Pod -> Reply)
    ensures var r := Attempts(ps, evict);
      && r <= ps && (r == [] <==> ps == [])
      && ((forall i :: 0 <= i < |ps| ==> evict(ps[i]) != Broken) ==> r == ps)
  {
    if ps != [] {
      AttemptsArePrefix(ps[1..], evict);
      assert ps == [ps[0]] + ps[1..];
    }
  }

  lemma {:induction false} AttemptsStop(ps: seq<Pod>, evict: Pod -> Reply)
    ensures var r := Attempts(ps, evict);
      && (forall i :: 0 <= i < |r| - 1 ==> evict(r[i]) != Broken)
      && (r != ps ==> r != [] && evict(r[|r| - 1]) == Broken)
  {
    if ps != [] && evict(ps[0]) != Broken {
      AttemptsStop(ps[1..], evict);
      assert ps == [ps[0]] + ps[1..];
    }
  }

  /** The requests are the pods from the first one on, up to and with the first that breaks. */
  lemma AttemptsMean(ps: seq<Pod>, evict: Pod -> Reply)
    ensures var r := Attempts(ps, evict);
      && r <= ps && (forall p <- r :: p in ps) && (r == [] <==> ps == [])
      && ((forall p <- ps :: evict(p) != Broken) ==> r == ps)
      && (r != ps ==> evict(r[|r| - 1]) == Broken)
      && (forall i :: 0 <= i < |r| - 1 ==> evict(r[i]) != Broken)
  {
    AttemptsArePrefix(ps, evict);
    AttemptsStop(ps, evict);
    hide Attempts;
    assert forall i :: 0 <= i < |ps| ==> ps[i] in ps;
  }

  predicate Breaks(ps: seq<Pod>, evict: Pod -> Reply) {
    exists p <- ps :: evict(p) == Broken
  }

  /** The pods a pass turns to: the custom ones as long as there are any, the system ones after. */
  function Targets(pods: seq<Pod>): seq<Pod> {
    var custom := Filter(CustomPod, pods);
    if custom != [] then custom else Filter(SystemPod, pods)
  }

  function EvictSpec(pods: seq<Pod>, api: Api): (Verdict, seq<Pod>) {
    if !api.list then (Failed, [])
    else if Targets(pods) == [] then (Drained, [])
    else (if Breaks(Targets(pods), api.evict) then Failed else InProgress, Attempts(Targets(pods), api.evict))
  }

  method EvictLoop(ps: seq<Pod>, evict: Pod -> Reply) returns (broken: bool, sent: seq<Pod>)
    ensures broken == Breaks(ps, evict)
    ensures sent == Attempts(ps, evict)
  {
    hide Attempts;
    sent := [];
    for i := 0 to |ps|
      invariant sent == ps[..i]
      invariant Attempts(ps, evict) == sent + Attempts(ps[i..], evict)
      invariant forall j :: 0 <= j < i ==> evict(ps[j]) != Broken
    {
      AttemptsFrom(ps, evict, i);
      sent := sent + [ps[i]];
      var reply := evict(ps[i]);
      if reply == Broken { return true, sent; }
    }
    assert ps[..|ps|] == ps && ps[|ps|..] == [];
    AttemptsMean([], evict);
    return false, sent;
  }

  lemma AttemptsFrom(ps: seq<Pod>, evict: Pod -> Reply, i: nat)
    requires i < |ps|
    ensures Attempts(ps[i..], evict) == [ps[i]] + if evict(ps[i]) == Broken then [] else Attempts(ps[i + 1..], evict)
  {
    assert ps[i..][1..] == ps[i + 1..];
  }

  method EvictPods(pods: seq<Pod>, api: Api) returns (v: Verdict, sent: seq<Pod>)
    ensures (v, sent) == EvictSpec(pods, api)
  {
    if !api.list { return Failed, []; }
    hide Filter, Critical, Attempts, Breaks;
    var custom, system := [], [];
    FilterNone(CustomPod, pods[..0]);
    FilterNone(SystemPod, pods[..0]);
    for i := 0 to |pods|
      invariant custom == Filter(CustomPod, pods[..i])
      invariant system == Filter(SystemPod, pods[..i])
    {
      FilterNext(CustomPod, pods, i);
      FilterNext(SystemPod, pods, i);
      if Critical(pods[i].name) { continue; }
      if pods[i].daemonSet { continue; }
      if pods[i].reason == "Evicted" { continue; }
      if pods[i].namespace == "kube-system" {
        system := system + [pods[i]];
      } else {
        custom := custom + [pods[i]];
      }
    }
    assert pods[..|pods|] == pods;
    if |custom| + |system| == 0 { return Drained, []; }
    var broken;
    if |custom| > 0 {
      broken, sent := EvictLoop(custom, api.evict);
    } else {
      broken, sent := EvictLoop(system, api.evict);
    }
    v := if broken then Failed else InProgress;
  }

  /** Who the targets are: some pods that are not exempt, without any system pod as long as there is another one. */
  lemma TargetsMean(pods: seq<Pod>)
    ensures var ts := Targets(pods);
      && (forall p <- ts :: p in pods && !Exempt(p))
      && ((exists p <- pods :: CustomPod(p)) ==> forall p <- ts :: !System(p))
      && (ts == [] <==> forall p <- pods :: Exempt(p))
      && (forall p <- pods :: CustomPod(p) ==> p in ts)
      && ((forall p <- pods :: !CustomPod(p)) ==> forall p <- pods :: SystemPod(p) ==> p in ts)
  {
    hide Critical;
    var custom, system := Filter(CustomPod, pods), Filter(SystemPod, pods);
    if p :| p in pods && !Exempt(p) {
      assert p in custom || p in system;
    }
    if Targets(pods) != [] {
      assert Targets(pods)[0] in Targets(pods);
    }
    hide Filter;
  }

  /** What a pass may evict, and when it says it is done. */
  lemma EvictionDiscipline(pods: seq<Pod>, api: Api)
    ensures var (v, sent) := EvictSpec(pods, api);
      && (forall p <- sent :: p in pods && !Exempt(p))
      && ((exists p <- pods :: CustomPod(p)) ==> forall p <- sent :: p.namespace != "kube-system")
      && (v == Failed ==> !api.list || exists p <- sent :: api.evict(p) == Broken)
      && (v == Drained <==> api.list && forall p <- pods :: Exempt(p))
      && (v == InProgress ==> sent != [] && forall p <- sent :: api.evict(p) != Broken)
      && (v == InProgress ==> forall p <- pods :: CustomPod(p) ==> p in sent)
      && (v == InProgress && (forall p <- pods :: !CustomPod(p)) ==> forall p <- pods :: SystemPod(p) ==> p in sent)
  {
    TargetsMean(pods);
    hide Targets, Exempt, CustomPod, SystemPod, Attempts;
    AttemptsMean(Targets(pods), api.evict);
    BrokenIsSent(Targets(pods), api.evict);
  }

  lemma {:induction false} BrokenIsSent(ps: seq<Pod>, evict: Pod -> Reply)
    ensures Breaks(ps, evict) ==> exists p <- Attempts(ps, evict) :: evict(p) == Broken
  {
    AttemptsMean(ps, evict);
    var r := Attempts(ps, evict);
    hide Attempts;
    if Breaks(ps, evict) && r != ps { assert r[|r| - 1] in r; }
  }

  /** Which pod keeps a node from being drained: every one but those of daemon sets, those evicted already, and the
      components of the control plane. It is then asked to go. */
  lemma OnePod(p: Pod, api: Api)
    requires api.list
    ensures var (v, sent) := EvictSpec([p], api);
      && (v == Drained <==>
            || p.daemonSet || p.reason == "Evicted"
            || HasPrefix(p.name, "k8s-api-healthz") || HasPrefix(p.name, "k8s-api-server")
            || HasPrefix(p.name, "k8s-controller-manager") || HasPrefix(p.name, "k8s-scheduler"))
      && sent == if v == Drained then [] else [p]
  {
    EvictionDiscipline([p], api);
    TargetsMean([p]);
    var ts := Targets([p]);
    assert [p][..0] == [] && |ts| <= 1;
    assert p in [p] && (ts != [] ==> ts[0] in ts && ts == [p]);
    AttemptsMean(ts, api.evict);
    hide Targets, Attempts;
  }

  // ---------------------------------------------------------------- one node

  datatype CordonOutcome = NodeAbsent | NodeCordoned | NodeVanished | AlreadyCordoned | CordonFailed {
    predicate Fails() { AlreadyCordoned? || CordonFailed? }
  }

  /** A node that vanishes before it is patched counts as cordoned; that it is gone shows in a later step of the
      environment. */
  function CordonSpec(nodes: map<nat, Node>, id: nat, api: Api): (CordonOutcome, map<nat, Node>) {
    if !api.get then (CordonFailed, nodes)
    else if id !in nodes then (NodeAbsent, nodes)
    else if nodes[id].unschedulable then (AlreadyCordoned, nodes)
    else if api.write.Vanished? then (NodeVanished, nodes)
    else if api.write.WriteFailed? then (CordonFailed, nodes)
    else (NodeCordoned, nodes[id := nodes[id].(unschedulable := true)])
  }

  function DrainSpec(nodes: map<nat, Node>, id: nat, timeout: int, now: int, api: Api)
    : (Verdict, map<nat, Node>, seq<Pod>)
  {
    if !api.get then (Failed, nodes, [])
    else if id !in nodes then (Gone, nodes, [])
    else if nodes[id].stamp.Expired(now, timeout) then (TimedOut, nodes, [])
    else if !nodes[id].stamp.Started? && !api.write.Written? then (Failed, nodes, [])
    else
      var n := if nodes[id].stamp.Started? then nodes[id] else nodes[id].(stamp := Started(now / SECOND));
      var (v, sent) := EvictSpec(n.pods, api);
      (v, nodes[id := n], sent)
  }

  /** The nodes of a workload cluster, keyed by the instance they run on, and the eviction requests
      sent so far. */
  class WorkloadCluster {
    var nodes: map<nat, Node>
    var evictions: seq<Pod>

    constructor (nodes: map<nat, Node>)
      ensures this.nodes == nodes && evictions == []
    {
      this.nodes, evictions := nodes, [];
    }

    method CordonNode(id: nat, api: Api) returns (r: CordonOutcome)
      modifies this`nodes
      ensures (r, nodes) == CordonSpec(old(nodes), id, api)
    {
      if !api.get { return CordonFailed; }
      if id !in nodes { return NodeAbsent; }
      var node := nodes[id];
      if node.unschedulable { return AlreadyCordoned; }
      if api.write.Vanished? { return NodeVanished; }
      if api.write.WriteFailed? { return CordonFailed; }
      nodes := nodes[id := node.(unschedulable := true)];
      return NodeCordoned;
    }

    method DrainNode(id: nat, timeout: int, now: int, api: Api) returns (v: Verdict)
      modifies this
      ensures v == DrainSpec(old(nodes), id, timeout, now, api).0
      ensures nodes == DrainSpec(old(nodes), id, timeout, now, api).1
      ensures evictions == old(evictions) + DrainSpec(old(nodes), id, timeout, now, api).2
    {
      if !api.get { return Failed; }
      if id !in nodes { return Gone; }
      var node := nodes[id];
      var found := node.stamp != Missing;
      if found {
        if node.stamp == Invalid {
          found := false;
        } else {
          var elapsed := now - node.stamp.seconds * SECOND;
          if elapsed > timeout { return TimedOut; }
        }
      }
      if !found {
        if !api.write.Written? { return Failed; }
        node := node.(stamp := Started(now / SECOND));
        nodes := nodes[id := node];
      }
      var sent;
      v, sent := EvictPods(node.pods, api);
      evictions := evictions + sent;
    }
  }

  /** A valid start time is never rewritten, a missing or unparsable one is set to the current second,
      nothing else on any node changes, and a drain never outlives its timeout. */
  lemma DrainStampAndFrame(nodes: map<nat, Node>, id: nat, timeout: int, now: int, api: Api)
    ensures var (v, nodes', sent) := DrainSpec(nodes, id, timeout, now, api);
      && nodes'.Keys == nodes.Keys
      && (forall j <- nodes :: nodes'[j] == nodes[j].(stamp := nodes'[j].stamp))
      && (forall j <- nodes :: nodes[j].stamp.Started? || j != id ==> nodes'[j] == nodes[j])
      && (v == InProgress ==> id in nodes && nodes'[id].stamp.Started?)
      && (v == InProgress && SECOND <= timeout ==> !nodes'[id].stamp.Expired(now, timeout))
      && (id in nodes && nodes'[id].stamp != nodes[id].stamp ==>
            nodes'[id].stamp == Started(now / SECOND) && api.write.Written?)
      && (v == Drained ==> id in nodes && forall p <- nodes[id].pods :: Exempt(p))
      && (v == Gone ==> id !in nodes)
      && (v == TimedOut ==> id in nodes && nodes[id].stamp.Expired(now, timeout) && sent == [])
  {
    if id in nodes {
      EvictionDiscipline(nodes[id].pods, api);
      assert now - now / SECOND * SECOND < SECOND;
    }
  }
}
