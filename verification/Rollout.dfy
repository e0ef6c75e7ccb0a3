/** Whether some node has to be rolled: the comparison of releases by component (pkg/handler/nodes/upgrade.go, and three
    functions of service/controller/key). */
module Rollout {
  import opened Common

  datatype Component = Component(name: string, version: string)
  datatype Release = Release(name: string, components: seq<Component>)

  /** The answer of a comparison, which fails when a version is not known. */
  datatype Answer = Yes | No | Failed

  const COMPONENTS: seq<string> := ["azure-operator", "calico", "containerlinux", "etcd", "kubernetes"]

  function ReleaseName(version: string): string { if HasPrefix(version, "v") then version else "v" + version }

  /** The first release of that name. */
  function Find(version: string, releases: seq<Release>): Option<Release> {
    if releases == [] then None
    else if releases[0].name == ReleaseName(version) then Some(releases[0])
    else Find(version, releases[1..])
  }

  function ComponentVersion(components: seq<Component>, name: string): Option<string> {
    if components == [] then None
    else if components[0].name == name then Some(components[0].version)
    else ComponentVersion(components[1..], name)
  }

  /** The first component that is unknown or differs decides. */
  function Differ(a: Release, b: Release, names: seq<string>): Answer {
    if names == [] then No
    else
      var x, y := ComponentVersion(a.components, names[0]), ComponentVersion(b.components, names[0]);
      if x.None? || y.None? then Failed else if x != y then Yes else Differ(a, b, names[1..])
  }

  function NeedsToBeRolled(version: string, destination: string, releases: seq<Release>): Answer {
    if version == "" || Find(version, releases).None? then Yes
    else if Find(destination, releases).None? then Failed
    else Differ(Find(version, releases).value, Find(destination, releases).value, COMPONENTS)
  }

  /** The first node that needs to be rolled, or whose comparison fails, decides. */
  function AnyOutOfDate(versions: seq<string>, destination: string, releases: seq<Release>): Answer {
    if versions == [] then No
    else
      var first := NeedsToBeRolled(versions[0], destination, releases);
      if first.No? then AnyOutOfDate(versions[1..], destination, releases) else first
  }

  // ---------------------------------------------------------------- the loops

  method FindRelease(version: string, releases: seq<Release>) returns (r: Option<Release>)
    ensures r == Find(version, releases)
  {
    for i := 0 to |releases|
      invariant Find(version, releases) == Find(version, releases[i..])
    {
      assert releases[i..][1..] == releases[i + 1..];
      if releases[i].name == ReleaseName(version) { return Some(releases[i]); }
    }
    return None;
  }

  method FindComponent(release: Release, name: string) returns (r: Option<string>)
    ensures r == ComponentVersion(release.components, name)
  {
    var cs := release.components;
    for i := 0 to |cs|
      invariant ComponentVersion(cs, name) == ComponentVersion(cs[i..], name)
    {
      assert cs[i..][1..] == cs[i + 1..];
      if cs[i].name == name { return Some(cs[i].version); }
    }
    return None;
  }

  method NodeNeedsToBeRolled(version: string, destination: string, releases: seq<Release>) returns (r: Answer)
    ensures r == NeedsToBeRolled(version, destination, releases)
  {
    if version == "" { return Yes; }
    var nodeRelease := FindRelease(version, releases);
    if nodeRelease.None? { return Yes; }
    var destRelease := FindRelease(destination, releases);
    if destRelease.None? { return Failed; }
    var a, b := nodeRelease.value, destRelease.value;
    hide ComponentVersion;
    for i := 0 to |COMPONENTS|
      invariant Differ(a, b, COMPONENTS) == Differ(a, b, COMPONENTS[i..])
    {
      assert COMPONENTS[i..][1..] == COMPONENTS[i + 1..];
      var x := FindComponent(a, COMPONENTS[i]);
      if x.None? { return Failed; }
      var y := FindComponent(b, COMPONENTS[i]);
      if y.None? { return Failed; }
      if x.value != y.value { return Yes; }
    }
    return No;
  }

  method AnyNodeOutOfDate(versions: seq<string>, destination: string, releases: seq<Release>) returns (r: Answer)
    ensures r == AnyOutOfDate(versions, destination, releases)
  {
    hide NeedsToBeRolled;
    for i := 0 to |versions|
      invariant AnyOutOfDate(versions, destination, releases) == AnyOutOfDate(versions[i..], destination, releases)
    {
      assert versions[i..][1..] == versions[i + 1..];
      r := NodeNeedsToBeRolled(versions[i], destination, releases);
      if !r.No? { return; }
    }
    return No;
  }

  // ---------------------------------------------------------------- what the answers mean

  /** Release i is the first of the name of that version. */
  predicate Names(releases: seq<Release>, version: string, i: nat) {
    && i < |releases| && releases[i].name == (if version != "" && version[0] == 'v' then version else "v" + version)
    && forall j :: 0 <= j < i ==> releases[j].name != releases[i].name
  }

  lemma {:induction false} FindMeans(version: string, releases: seq<Release>)
    ensures forall i: nat :: Names(releases, version, i) ==> Find(version, releases) == Some(releases[i])
    ensures (forall i: nat :: !Names(releases, version, i)) ==> Find(version, releases).None?
  {
    assert ReleaseName(version) == if version != "" && version[0] == 'v' then version else "v" + version;
    hide ReleaseName;
    if releases != [] {
      var rest := releases[1..];
      FindMeans(version, rest);
      assert forall j :: 0 < j < |releases| ==> releases[j] == rest[j - 1];
      if releases[0].name == ReleaseName(version) {
        assert Names(releases, version, 0);
        forall i: nat | Names(releases, version, i) ensures i == 0 {}
      } else {
        forall i: nat ensures Names(releases, version, i) ==> i > 0 && Names(rest, version, i - 1) {}
        forall i: nat ensures Names(rest, version, i) ==> Names(releases, version, i + 1) {}
      }
    }
  }

  /** The version of a component is that of its first entry. */
  lemma {:induction false} ComponentMeans(cs: seq<Component>, name: string, k: nat)
    requires k < |cs| && cs[k].name == name && forall j :: 0 <= j < k ==> cs[j].name != name
    ensures ComponentVersion(cs, name) == Some(cs[k].version)
  {
    if k > 0 { ComponentMeans(cs[1..], name, k - 1); }
  }

  lemma {:induction false} ComponentKnownIff(cs: seq<Component>, name: string)
    ensures ComponentVersion(cs, name).Some? <==> exists k :: 0 <= k < |cs| && cs[k].name == name
  {
    if cs != [] {
      ComponentKnownIff(cs[1..], name);
      assert forall k :: 0 < k < |cs| ==> cs[k] == cs[1..][k - 1];
      assert forall k :: 0 <= k < |cs| - 1 ==> cs[1..][k] == cs[k + 1];
    }
  }

  /** The releases have the same known version of a component. */
  predicate SameComponent(a: Release, b: Release, name: string) {
    var x := ComponentVersion(a.components, name); x.Some? && x == ComponentVersion(b.components, name)
  }

  lemma {:induction false} DifferIff(a: Release, b: Release, names: seq<string>)
    ensures Differ(a, b, names) == No <==> forall name <- names :: SameComponent(a, b, name)
  {
    hide ComponentVersion;
    if names != [] {
      DifferIff(a, b, names[1..]);
      assert forall name :: name in names <==> name == names[0] || name in names[1..];
      assert Differ(a, b, names) == No <==> SameComponent(a, b, names[0]) && Differ(a, b, names[1..]) == No;
    }
  }

  /** The node stays: its release and the destination are known, and have the same known versions of azure-operator,
      Calico, Container Linux, etcd and Kubernetes. */
  predicate Stays(version: string, destination: string, releases: seq<Release>) {
    && version != "" && Find(version, releases).Some? && Find(destination, releases).Some?
    && var a, b := Find(version, releases).value, Find(destination, releases).value;
       && SameComponent(a, b, "azure-operator") && SameComponent(a, b, "calico")
       && SameComponent(a, b, "containerlinux") && SameComponent(a, b, "etcd") && SameComponent(a, b, "kubernetes")
  }

  lemma StaysIff(version: string, destination: string, releases: seq<Release>)
    ensures NeedsToBeRolled(version, destination, releases) == No <==> Stays(version, destination, releases)
  {
    if Find(version, releases).Some? && Find(destination, releases).Some? {
      DifferIff(Find(version, releases).value, Find(destination, releases).value, COMPONENTS);
      assert COMPONENTS[0] in COMPONENTS && COMPONENTS[1] in COMPONENTS && COMPONENTS[2] in COMPONENTS
          && COMPONENTS[3] in COMPONENTS && COMPONENTS[4] in COMPONENTS;
    }
    hide Find, SameComponent, Differ;
  }

  /** Main result on the comparison: nothing is out of date exactly when every node stays; and the answer is yes or a
      failure exactly because of the first node that does not. */
  lemma {:induction false} AllCurrentIff(versions: seq<string>, destination: string, releases: seq<Release>)
    ensures var r := AnyOutOfDate(versions, destination, releases);
      && (r == No <==> forall i :: 0 <= i < |versions| ==> Stays(versions[i], destination, releases))
      && (r != No ==>
            exists i :: 0 <= i < |versions| && r == NeedsToBeRolled(versions[i], destination, releases)
              && forall j :: 0 <= j < i ==> Stays(versions[j], destination, releases))
  {
    if versions != [] {
      var rest := versions[1..];
      StaysIff(versions[0], destination, releases);
      AllCurrentIff(rest, destination, releases);
      hide Stays, NeedsToBeRolled;
      assert forall i :: 0 < i < |versions| ==> versions[i] == rest[i - 1];
      if Stays(versions[0], destination, releases) && AnyOutOfDate(rest, destination, releases) != No {
        var i :| 0 <= i < |rest| && AnyOutOfDate(versions, destination, releases)
                                    == NeedsToBeRolled(rest[i], destination, releases)
                 && forall j :: 0 <= j < i ==> Stays(rest[j], destination, releases);
        assert versions[i + 1] == rest[i];
      }
    }
  }

  /** All five components have a version. */
  predicate Complete(r: Release) { forall name <- COMPONENTS :: ComponentVersion(r.components, name).Some? }

  /** Nodes that all run the destination release, under whichever of its two spellings, are out of date exactly when
      that release is not listed any more, and cannot be compared exactly when it is incomplete. */
  lemma RolledNodes(versions: seq<string>, destination: string, releases: seq<Release>)
    requires versions != []
    requires forall i :: 0 <= i < |versions| ==>
      versions[i] != "" && ReleaseName(versions[i]) == ReleaseName(destination)
    ensures AnyOutOfDate(versions, destination, releases) ==
      if Find(destination, releases).None? then Yes
      else if Complete(Find(destination, releases).value) then No else Failed
  {
    forall i | 0 <= i < |versions| ensures Find(versions[i], releases) == Find(destination, releases) {
      SameName(versions[i], destination, releases);
    }
    hide ReleaseName, Find;
    if Find(destination, releases).Some? {
      var r := Find(destination, releases).value;
      SelfDiffer(r, COMPONENTS);
      forall i | 0 <= i < |versions|
        ensures NeedsToBeRolled(versions[i], destination, releases) == if Complete(r) then No else Failed
      {}
      hide NeedsToBeRolled, Complete;
      AllAlike(versions, destination, releases);
    }
  }

  lemma {:induction false} SameName(a: string, b: string, releases: seq<Release>)
    requires ReleaseName(a) == ReleaseName(b)
    ensures Find(a, releases) == Find(b, releases)
  {
    if releases != [] { SameName(a, b, releases[1..]); }
  }

  lemma {:induction false} SelfDiffer(r: Release, names: seq<string>)
    ensures Differ(r, r, names) ==
      if forall name <- names :: ComponentVersion(r.components, name).Some? then No else Failed
  {
    hide ComponentVersion;
    if names != [] {
      SelfDiffer(r, names[1..]);
      assert forall name :: name in names <==> name == names[0] || name in names[1..];
    }
  }

  lemma {:induction false} AllAlike(versions: seq<string>, destination: string, releases: seq<Release>)
    requires versions != []
    requires forall i :: 0 <= i < |versions| ==>
      NeedsToBeRolled(versions[i], destination, releases) == NeedsToBeRolled(versions[0], destination, releases)
    ensures AnyOutOfDate(versions, destination, releases) == NeedsToBeRolled(versions[0], destination, releases)
  {
    hide NeedsToBeRolled;
    if |versions| > 1 {
      assert forall i :: 0 <= i < |versions| - 1 ==> versions[1..][i] == versions[i + 1];
      AllAlike(versions[1..], destination, releases);
    } else {
      assert versions[1..] == [];
    }
  }
}
