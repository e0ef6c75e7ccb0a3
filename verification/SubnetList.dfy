/** The subnets in the specification of an AzureCluster, and the IPAM operations on that list
    (pkg/handler/ipam, and delete.go of the node pool handler). */
module SubnetList {
  import opened Common
  import opened Cidr

  datatype SubnetSpec = SubnetSpec(name: string, cidrs: seq<string>, id: string)

  /** The first CIDR of a subnet, if there is one and it can be read. */
  function Range(s: SubnetSpec): (r: Option<Net>)
    ensures r.Some? ==> r.value.Valid()
  {
    if s.cidrs == [] then None else Parse(s.cidrs[0])
  }

  // ---------------------------------------------------------------- is a range allocated?

  datatype Allocation = Allocated(range: Net) | NotAllocated | Malformed

  /** The first subnet of that name that has a CIDR decides. */
  function Lookup(s: seq<SubnetSpec>, name: string): Allocation {
    if s == [] then NotAllocated
    else if s[0].name == name && s[0].cidrs != [] then
      if Range(s[0]).Some? then Allocated(Range(s[0]).value) else Malformed
    else Lookup(s[1..], name)
  }

  /** No allocation means that no subnet of that name has a CIDR. */
  lemma {:induction false} NotAllocatedMeans(s: seq<SubnetSpec>, name: string)
    ensures Lookup(s, name) == NotAllocated <==> forall i :: 0 <= i < |s| && s[i].name == name ==> s[i].cidrs == []
  {
    hide Range;
    if s != [] {
      NotAllocatedMeans(s[1..], name);
      assert forall i :: 0 <= i < |s| - 1 ==> s[1..][i] == s[i + 1];
      assert forall i :: 0 < i < |s| ==> s[i] == s[1..][i - 1];
    }
  }

  /** Entry k decides: it is the first of that name with a CIDR. */
  predicate Decides(s: seq<SubnetSpec>, name: string, k: nat) {
    && k < |s| && s[k].name == name && s[k].cidrs != []
    && forall j :: 0 <= j < k && s[j].name == name ==> s[j].cidrs == []
  }

  lemma DecidesNext(s: seq<SubnetSpec>, name: string, k: nat)
    requires s != [] && !(s[0].name == name && s[0].cidrs != [])
    ensures k > 0 ==> (Decides(s, name, k) <==> Decides(s[1..], name, k - 1))
    ensures !Decides(s, name, 0)
  {
    var rest := s[1..];
    assert forall j :: 0 < j < |s| ==> s[j] == rest[j - 1];
    if k > 0 && Decides(s, name, k) {
      assert forall j :: 0 <= j < |rest| ==> rest[j] == s[j + 1];
    }
  }

  /** What is found is what the deciding entry says. */
  lemma {:induction false} LookupMeans(s: seq<SubnetSpec>, name: string, k: nat)
    requires Decides(s, name, k)
    ensures Lookup(s, name) == if Range(s[k]).Some? then Allocated(Range(s[k]).value) else Malformed
  {
    hide Range;
    if k > 0 {
      assert !(s[0].name == name && s[0].cidrs != []);
      DecidesNext(s, name, k);
      LookupMeans(s[1..], name, k - 1);
      assert s[1..][k - 1] == s[k];
    }
  }

  /** The deciding entry of the name can be read. */
  ghost predicate OwnsRange(s: seq<SubnetSpec>, name: string) {
    exists k: nat :: Decides(s, name, k) && Range(s[k]).Some?
  }

  lemma AllocatedIff(s: seq<SubnetSpec>, name: string)
    ensures Lookup(s, name).Allocated? <==> OwnsRange(s, name)
  {
    hide Range, Lookup;
    if k: nat :| Decides(s, name, k) {
      LookupMeans(s, name, k);
      assert forall m: nat :: Decides(s, name, m) ==> m == k;
    } else {
      NoneDecides(s, name);
    }
  }

  lemma {:induction false} NoneDecides(s: seq<SubnetSpec>, name: string)
    requires forall k: nat :: !Decides(s, name, k)
    ensures Lookup(s, name) == NotAllocated
  {
    hide Range;
    if s != [] {
      assert !Decides(s, name, 0);
      forall k: nat ensures !Decides(s[1..], name, k) { DecidesNext(s, name, k + 1); }
      NoneDecides(s[1..], name);
    }
  }

  // ---------------------------------------------------------------- removing

  function First(s: seq<SubnetSpec>, name: string): (i: nat)
    ensures i <= |s| && (i < |s| ==> s[i].name == name) && forall j :: 0 <= j < i ==> s[j].name != name
  {
    if s == [] || s[0].name == name then 0 else 1 + First(s[1..], name)
  }

  function Last(s: seq<SubnetSpec>, name: string): (i: nat)
    ensures i <= |s| && (i < |s| ==> s[i].name == name && forall j :: i < j < |s| ==> s[j].name != name)
    ensures i == |s| ==> forall j :: 0 <= j < |s| ==> s[j].name != name
  {
    if s == [] then 0
    else if s[|s| - 1].name == name then |s| - 1
    else
      var i := Last(s[..|s| - 1], name);
      if i == |s| - 1 then |s| else i
  }

  function RemoveAt(s: seq<SubnetSpec>, i: nat): seq<SubnetSpec> {
    if i < |s| then s[..i] + s[i + 1..] else s
  }

  function RemoveFirst(s: seq<SubnetSpec>, name: string): seq<SubnetSpec> { RemoveAt(s, First(s, name)) }

  function RemoveLast(s: seq<SubnetSpec>, name: string): seq<SubnetSpec> { RemoveAt(s, Last(s, name)) }

  predicate UniqueNames(s: seq<SubnetSpec>) { forall i, j :: 0 <= i < j < |s| ==> s[i].name != s[j].name }

  /** The two ways to remove the subnet of a pool give the same list exactly when all entries from the first one
      of that name to the last one are the same entry; in particular, when names are unique. */
  lemma RemovalsAgreeIff(s: seq<SubnetSpec>, name: string)
    ensures RemoveFirst(s, name) == RemoveLast(s, name) <==>
      forall k :: First(s, name) <= k <= Last(s, name) && k < |s| ==> s[k] == s[First(s, name)]
    ensures UniqueNames(s) ==> RemoveFirst(s, name) == RemoveLast(s, name)
  {
    var i, j := First(s, name), Last(s, name);
    hide First, Last, RemoveAt;
    if i < |s| { RemovalsAgreeBetween(s, i, j); }
  }

  lemma RemovalsAgreeBetween(s: seq<SubnetSpec>, i: nat, j: nat)
    requires i <= j < |s|
    ensures RemoveAt(s, i) == RemoveAt(s, j) <==> forall k :: i <= k <= j ==> s[k] == s[i]
  {
    var a, b := RemoveAt(s, i), RemoveAt(s, j);
    if a == b {
      hide RemoveAt;
      for k := i to j
        invariant forall m :: i <= m <= k ==> s[m] == s[i]
      {
        RemovedAt(s, i, k);
        RemovedAt(s, j, k);
      }
    }
    if forall k :: i <= k <= j ==> s[k] == s[i] {
      forall k | 0 <= k < |s| - 1 ensures a[k] == b[k] {
        RemovedAt(s, i, k);
        RemovedAt(s, j, k);
      }
    }
  }

  lemma RemovedAt(s: seq<SubnetSpec>, i: nat, k: nat)
    requires i < |s| && k < |s| - 1
    ensures |RemoveAt(s, i)| == |s| - 1 && RemoveAt(s, i)[k] == s[if k < i then k else k + 1]
  {}

  // ---------------------------------------------------------------- collecting

  /** The ranges of the list, None when one cannot be read. */
  function Blocks(s: seq<SubnetSpec>): (r: Option<seq<Option<Net>>>)
    ensures r.Some? ==> forall i :: 0 <= i < |r.value| ==> r.value[i].Some? && r.value[i].value.Valid()
  {
    if s == [] then Some([]) else
    var rest, last := Blocks(s[..|s| - 1]), s[|s| - 1];
    if rest.None? || last.cidrs == [] then rest
    else if Range(last).None? then None
    else Some(rest.value + [Range(last)])
  }

  function Unset(n: nat): seq<Option<Net>> { seq(n, _ => None) }

  /** What the collector finds in the list: it begins with as many unset blocks as there are subnets. */
  function FromSpec(s: seq<SubnetSpec>): (r: Option<seq<Option<Net>>>)
    ensures r.Some? ==> forall i :: 0 <= i < |r.value| && r.value[i].Some? ==> r.value[i].value.Valid()
  {
    var blocks := Blocks(s);
    if blocks.None? then None else Some(Unset(|s|) + blocks.value)
  }

  lemma {:induction false} BlocksCover(s: seq<SubnetSpec>, i: nat)
    requires Blocks(s).Some? && i < |s| && Range(s[i]).Some?
    ensures Range(s[i]) in Blocks(s).value
  {
    hide Range;
    var n := |s| - 1;
    if i < n {
      BlocksCover(s[..n], i);
    } else {
      LastBlock(s);
    }
  }

  /** Nothing else is collected, and the list is unreadable exactly when the first CIDR of some entry is. */
  lemma {:induction false} BlocksMean(s: seq<SubnetSpec>)
    ensures Blocks(s).None? <==> exists i :: 0 <= i < |s| && s[i].cidrs != [] && Range(s[i]).None?
    ensures Blocks(s).Some? ==> forall r <- Blocks(s).value :: exists i :: 0 <= i < |s| && Range(s[i]) == r
  {
    hide Range;
    if s != [] {
      var n := |s| - 1;
      var init := s[..n];
      BlocksMean(init);
      assert forall i :: 0 <= i < n ==> init[i] == s[i];
      if i :| 0 <= i < n && init[i].cidrs != [] && Range(init[i]).None? { assert s[i] == init[i]; }
      if Blocks(s).Some? {
        forall r <- Blocks(s).value ensures exists i :: 0 <= i < |s| && Range(s[i]) == r {
          if r in Blocks(init).value {
            var i :| 0 <= i < n && Range(init[i]) == r;
            assert Range(s[i]) == r;
          } else {
            assert Range(s[n]) == r;
          }
        }
      }
    }
  }

  lemma LastBlock(s: seq<SubnetSpec>)
    requires s != [] && Blocks(s).Some? && Range(s[|s| - 1]).Some?
    ensures Range(s[|s| - 1]) in Blocks(s).value
  {
    var r := Range(s[|s| - 1]);
    assert Blocks(s).value == Blocks(s[..|s| - 1]).value + [r];
  }

  /** The prefixes of the subnets in Azure, None when one cannot be read. */
  function FromVNet(prefixes: seq<string>): (r: Option<seq<Option<Net>>>)
    ensures r.Some? ==> |r.value| == |prefixes| && forall i :: 0 <= i < |r.value| ==>
      r.value[i].Some? && r.value[i].value.Valid()
  {
    if prefixes == [] then Some([]) else
    var rest, last := FromVNet(prefixes[..|prefixes| - 1]), Parse(prefixes[|prefixes| - 1]);
    if rest.None? || last.None? then None else Some(rest.value + [last])
  }

  lemma {:induction false} FromVNetReads(prefixes: seq<string>, i: nat)
    requires FromVNet(prefixes).Some? && i < |prefixes|
    ensures FromVNet(prefixes).value[i] == Parse(prefixes[i])
  {
    hide Parse;
    var n := |prefixes| - 1;
    assert FromVNet(prefixes).value == FromVNet(prefixes[..n]).value + [Parse(prefixes[n])];
    if i < n { FromVNetReads(prefixes[..n], i); }
  }

  // ---------------------------------------------------------------- the custom resource

  datatype Save = Saved | Conflict | SaveFailed

  class AzureCluster {
    var vnetCidrs: seq<string>
    var subnets: seq<SubnetSpec>

    method Check(name: string, readable: bool) returns (range: Option<Net>, failed: bool)
      ensures failed <==> !readable || Lookup(subnets, name) == Malformed
      ensures range == if !failed && Lookup(subnets, name).Allocated? then Some(Lookup(subnets, name).range) else None
    {
      hide Range;
      if !readable { return None, true; }
      for i := 0 to |subnets|
        invariant Lookup(subnets, name) == Lookup(subnets[i..], name)
      {
        ghost var rest := subnets[i..];
        assert rest[0] == subnets[i] && rest[1..] == subnets[i + 1..];
        if subnets[i].name == name && |subnets[i].cidrs| > 0 {
          var parsed := Range(subnets[i]);
          if parsed.None? { return None, true; }
          return parsed, false;
        }
      }
      return None, false;
    }

    method CollectFromSpec() returns (r: seq<Option<Net>>, failed: bool)
      ensures failed <==> FromSpec(subnets).None?
      ensures !failed ==> r == FromSpec(subnets).value
    {
      hide Range;
      r := Unset(|subnets|);
      for i := 0 to |subnets|
        invariant Blocks(subnets[..i]).Some? && r == Unset(|subnets|) + Blocks(subnets[..i]).value
      {
        assert subnets[..i + 1][..i] == subnets[..i];
        if |subnets[i].cidrs| == 0 { continue; }
        var parsed := Range(subnets[i]);
        if parsed.None? {
          UnreadableBlock(subnets, i + 1);
          return r, true;
        }
        r := r + [parsed];
      }
      assert subnets[..|subnets|] == subnets;
      return r, false;
    }

    method Persist(range: Net, name: string, readable: bool, writable: bool) returns (failed: bool)
      modifies this`subnets
      ensures failed == !(readable && writable)
      ensures subnets == if failed then old(subnets) else old(subnets) + [SubnetSpec(name, [Format(range)], "")]
    {
      if !readable || !writable { return true; }
      subnets := subnets + [SubnetSpec(name, [Format(range)], "")];
      return false;
    }

    /** Splices out the first subnet of that name; a conflict when saving is no error. */
    method Release(name: string, readable: bool, save: Save) returns (failed: bool)
      modifies this`subnets
      ensures failed <==> !readable || save.SaveFailed?
      ensures subnets == if readable && save.Saved? then RemoveFirst(old(subnets), name) else old(subnets)
    {
      if !readable { return true; }
      var spliced := subnets;
      for i := 0 to |subnets|
        invariant spliced == subnets && forall j :: 0 <= j < i ==> subnets[j].name != name
      {
        if subnets[i].name == name {
          spliced := subnets[..i] + subnets[i + 1..];
          break;
        }
      }
      if save.Saved? { subnets := spliced; }
      return save.SaveFailed?;
    }

    /** The removal when a node pool is deleted: the position of the last subnet of that name is recorded. */
    method RemoveSubnet(name: string, writable: bool) returns (failed: bool)
      modifies this`subnets
      ensures failed <==> !writable && Last(old(subnets), name) < |old(subnets)|
      ensures subnets == if writable then RemoveLast(old(subnets), name) else old(subnets)
    {
      var position := -1;
      for i := 0 to |subnets|
        invariant position == -1 ==> forall j :: 0 <= j < i ==> subnets[j].name != name
        invariant -1 <= position < i
        invariant position >= 0 ==>
            subnets[position].name == name && forall j :: position < j < i ==> subnets[j].name != name
      {
        if subnets[i].name == name { position := i; }
      }
      if position < 0 { return false; }
      if !writable { return true; }
      subnets := subnets[..position] + subnets[position + 1..];
      return false;
    }
  }

  lemma {:induction false} UnreadableBlock(s: seq<SubnetSpec>, n: nat)
    requires 0 < n <= |s| && s[n - 1].cidrs != [] && Range(s[n - 1]).None?
    ensures Blocks(s).None?
  {
    hide Range;
    if n < |s| { UnreadableBlock(s[..|s| - 1], n); }
  }

  method CollectFromVNet(prefixes: seq<string>) returns (r: seq<Option<Net>>, failed: bool)
    ensures failed <==> FromVNet(prefixes).None?
    ensures !failed ==> r == FromVNet(prefixes).value
    ensures !failed ==> |r| == |prefixes| && forall i :: 0 <= i < |r| ==> r[i] == Parse(prefixes[i])
  {
    hide Parse;
    r := [];
    for i := 0 to |prefixes|
      invariant FromVNet(prefixes[..i]).Some? && r == FromVNet(prefixes[..i]).value
    {
      assert prefixes[..i + 1][..i] == prefixes[..i];
      var parsed := Parse(prefixes[i]);
      if parsed.None? {
        UnreadablePrefix(prefixes, i + 1);
        return r, true;
      }
      r := r + [parsed];
    }
    assert prefixes[..|prefixes|] == prefixes;
    forall i | 0 <= i < |r| ensures r[i] == Parse(prefixes[i]) { FromVNetReads(prefixes, i); }
    return r, false;
  }

  lemma {:induction false} UnreadablePrefix(s: seq<string>, n: nat)
    requires 0 < n <= |s| && Parse(s[n - 1]).None?
    ensures FromVNet(s).None?
  {
    hide Parse;
    if n < |s| { UnreadablePrefix(s[..|s| - 1], n); }
  }
}
