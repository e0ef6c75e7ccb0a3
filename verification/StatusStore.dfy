/** The status store of a handler inside the status of its custom resource: a list of resources, each
    with a list of conditions (pkg/handler/nodes/status.go, and once more in
    service/controller/azureconfig/handler/deployment/resource.go). */
module StatusStore {
  import opened Common

  datatype Condition = Condition(typ: string, status: string, time: int)
  datatype Resource = Resource(name: string, conditions: seq<Condition>)

  /** The status of a type in one list of conditions: that of the first one. */
  function Find(cs: seq<Condition>, t: string): Option<string> {
    if cs == [] then None
    else if cs[0].typ == t then Some(cs[0].status)
    else Find(cs[1..], t)
  }

  function Lookup(rs: seq<Resource>, name: string, t: string): Option<string> {
    if rs == [] then None
    else if rs[0].name == name && Find(rs[0].conditions, t).Some? then Find(rs[0].conditions, t)
    else Lookup(rs[1..], name, t)
  }

  function Get(rs: seq<Resource>, name: string, t: string): string {
    var r := Lookup(rs, name, t);
    if r.Some? then r.value else ""
  }

  function Others(cs: seq<Condition>, t: string): seq<Condition> {
    if cs == [] then [] else
    var rest := Others(cs[..|cs| - 1], t);
    if cs[|cs| - 1].typ == t then rest else rest + [cs[|cs| - 1]]
  }

  /** The loop over the resources. Each resource of the handler is replaced by everything gathered so
      far, so a later duplicate also gets the conditions of the earlier ones. */
  function Rewrite(rs: seq<Resource>, name: string, t: string, gathered: seq<Condition>): seq<Resource> {
    if rs == [] then []
    else if rs[0].name != name then [rs[0]] + Rewrite(rs[1..], name, t, gathered)
    else
      var g := gathered + Others(rs[0].conditions, t);
      [Resource(name, g)] + Rewrite(rs[1..], name, t, g)
  }

  predicate Has(rs: seq<Resource>, name: string) { exists i :: 0 <= i < |rs| && rs[i].name == name }

  function Set(rs: seq<Resource>, name: string, t: string, s: string, now: int): seq<Resource> {
    var first := [Condition(t, s, now)];
    if Has(rs, name) then Rewrite(rs, name, t, first) else rs + [Resource(name, first)]
  }

  /** The custom resource that holds the status; reading and writing it may fail. */
  class StatusHolder {
    var resources: seq<Resource>

    constructor (rs: seq<Resource>)
      ensures resources == rs
    {
      resources := rs;
    }

    method GetResourceStatus(name: string, t: string, readable: bool) returns (s: string, failed: bool)
      ensures failed == !readable
      ensures s == if readable then Get(resources, name, t) else ""
    {
      if !readable { return "", true; }
      for i := 0 to |resources|
        invariant Lookup(resources, name, t) == Lookup(resources[i..], name, t)
      {
        var rest := resources[i..];
        assert rest[0] == resources[i] && rest[1..] == resources[i + 1..];
        if resources[i].name != name { continue; }
        var cs := resources[i].conditions;
        for k := 0 to |cs|
          invariant Find(cs, t) == Find(cs[k..], t)
        {
          if cs[k].typ == t { return cs[k].status, false; }
        }
      }
      return "", false;
    }

    method SetResourceStatus(name: string, t: string, s: string, now: int, readable: bool, writable: bool)
      returns (failed: bool)
      modifies this
      ensures failed == !(readable && writable)
      ensures resources == if failed then old(resources) else Set(old(resources), name, t, s, now)
    {
      if !readable { return true; }
      hide Rewrite, Others;
      var rs := resources;
      ghost var first := [Condition(t, s, now)];
      var status := [Condition(t, s, now)];
      var found := false;
      for i := 0 to |resources|
        invariant resources == old(resources) && |rs| == |resources| && rs[i..] == resources[i..]
        invariant found <==> exists j :: 0 <= j < i && resources[j].name == name
        invariant !found ==> rs == resources && status == first
        invariant Rewrite(resources, name, t, first) == rs[..i] + Rewrite(resources[i..], name, t, status)
      {
        assert rs[i] == rs[i..][0] == resources[i..][0] == resources[i];
        RewriteAt(resources, i, name, t, status);
        ghost var before := rs;
        if rs[i].name != name {
          Splice(before, i, rs[i], resources);
          assert before[i := rs[i]] == rs;
          continue;
        }
        status := AppendOthers(status, rs[i].conditions, t);
        rs := rs[i := Resource(name, status)];
        Splice(before, i, Resource(name, status), resources);
        found := true;
      }
      assert rs[|rs|..] == [] && rs[..|rs|] == rs;
      if !found {
        rs := rs + [Resource(name, status)];
      }
      if !writable { return true; }
      resources := rs;
      return false;
    }
  }

  lemma RewriteAt(rs: seq<Resource>, i: nat, name: string, t: string, g: seq<Condition>)
    requires i < |rs|
    ensures Rewrite(rs[i..], name, t, g) ==
      if rs[i].name != name then [rs[i]] + Rewrite(rs[i + 1..], name, t, g)
      else var g' := g + Others(rs[i].conditions, t); [Resource(name, g')] + Rewrite(rs[i + 1..], name, t, g')
  {
    assert rs[i..][1..] == rs[i + 1..];
  }

  lemma Splice(rs: seq<Resource>, i: nat, x: Resource, original: seq<Resource>)
    requires i < |rs| == |original| && rs[i..] == original[i..]
    ensures var r := rs[i := x];
      r[i + 1..] == original[i + 1..] && forall tail :: r[..i + 1] + tail == rs[..i] + ([x] + tail)
  {
    var r := rs[i := x];
    assert rs[i + 1..] == rs[i..][1..] && original[i + 1..] == original[i..][1..] && r[i + 1..] == rs[i + 1..];
    assert r[..i + 1] == rs[..i] + [x];
    forall tail: seq<Resource> ensures r[..i + 1] + tail == rs[..i] + ([x] + tail) {}
  }

  method AppendOthers(status: seq<Condition>, cs: seq<Condition>, t: string) returns (r: seq<Condition>)
    ensures r == status + Others(cs, t)
  {
    r := status;
    for k := 0 to |cs|
      invariant r == status + Others(cs[..k], t)
    {
      assert cs[..k + 1][..k] == cs[..k];
      if cs[k].typ == t { continue; }
      r := r + [cs[k]];
    }
    assert cs[..|cs|] == cs;
  }

  // ---------------------------------------------------------------- what is found

  predicate HasType(cs: seq<Condition>, t: string) { exists k :: 0 <= k < |cs| && cs[k].typ == t }

  lemma {:induction false} FindMeans(cs: seq<Condition>, t: string)
    ensures Find(cs, t).Some? <==> HasType(cs, t)
    ensures Find(cs, t).Some? ==>
      exists k :: 0 <= k < |cs| && cs[k].typ == t && cs[k].status == Find(cs, t).value
        && forall j :: 0 <= j < k ==> cs[j].typ != t
  {
    if cs != [] && cs[0].typ != t {
      var rest := cs[1..];
      FindMeans(rest, t);
      assert forall k :: 0 < k < |cs| ==> cs[k] == rest[k - 1];
      if Find(rest, t).Some? {
        var k :| 0 <= k < |rest| && rest[k].typ == t && rest[k].status == Find(rest, t).value
                 && forall j :: 0 <= j < k ==> rest[j].typ != t;
        assert cs[k + 1].typ == t;
      }
    }
  }

  /** The resource i decides: it is the first of that name with a condition of the type. */
  predicate Decides(rs: seq<Resource>, name: string, t: string, i: nat) {
    && i < |rs| && rs[i].name == name && HasType(rs[i].conditions, t)
    && forall j :: 0 <= j < i && rs[j].name == name ==> !HasType(rs[j].conditions, t)
  }

  /** A status is the one in the first resource of the handler that has a condition of the type, there that of the first
      such condition. */
  lemma {:induction false} LookupMeans(rs: seq<Resource>, name: string, t: string, i: nat)
    requires Decides(rs, name, t, i)
    ensures Lookup(rs, name, t) == Find(rs[i].conditions, t) && Lookup(rs, name, t).Some?
  {
    FindMeans(rs[0].conditions, t);
    FindMeans(rs[i].conditions, t);
    if i > 0 {
      assert forall j :: 0 <= j < |rs| - 1 ==> rs[1..][j] == rs[j + 1];
      hide Find, HasType;
      assert rs[0].name == name ==> !HasType(rs[0].conditions, t);
      LookupMeans(rs[1..], name, t, i - 1);
    }
  }

  // ---------------------------------------------------------------- the store is a map

  lemma {:induction false} FindConcat(a: seq<Condition>, b: seq<Condition>, t: string)
    ensures Find(a + b, t) == if Find(a, t).Some? then Find(a, t) else Find(b, t)
  {
    if a == [] {
      assert a + b == b;
    } else {
      assert (a + b)[1..] == a[1..] + b;
      FindConcat(a[1..], b, t);
    }
  }

  lemma {:induction false} FindOthers(cs: seq<Condition>, t: string, u: string)
    ensures Find(Others(cs, t), u) == if u == t then None else Find(cs, u)
  {
    if cs != [] {
      var init, last := cs[..|cs| - 1], cs[|cs| - 1];
      FindOthers(init, t, u);
      FindConcat(Others(init, t), [last], u);
      FindConcat(init, [last], u);
      assert cs == init + [last];
    }
  }

  lemma {:induction false} LookupRewrite(rs: seq<Resource>, name: string, t: string, g: seq<Condition>, m: string,
      u: string)
    requires Find(g, t).Some?
    ensures Lookup(Rewrite(rs, name, t, g), m, u) ==
            if m != name || !Has(rs, name) then Lookup(rs, m, u)
            else if Find(g, u).Some? then Find(g, u)
            else Lookup(rs, name, u)
  {
    if rs != [] {
      var rest := rs[1..];
      var g' := g + Others(rs[0].conditions, t);
      FindConcat(g, Others(rs[0].conditions, t), u);
      FindConcat(g, Others(rs[0].conditions, t), t);
      FindOthers(rs[0].conditions, t, u);
      LookupRewrite(rest, name, t, if rs[0].name == name then g' else g, m, u);
      assert Has(rs, name) <==> rs[0].name == name || Has(rest, name) by {
        if i :| 0 <= i < |rest| && rest[i].name == name { assert rs[i + 1].name == name; }
      }
      if !Has(rest, name) { NoneThere(rest, name, u); }
    }
  }

  lemma {:induction false} NoneThere(rs: seq<Resource>, name: string, t: string)
    requires !Has(rs, name)
    ensures Lookup(rs, name, t) == None
  {
    if rs != [] {
      assert forall i :: 0 <= i < |rs| - 1 ==> rs[1..][i] == rs[i + 1];
      NoneThere(rs[1..], name, t);
    }
  }

  lemma {:induction false} LookupAppend(rs: seq<Resource>, r: Resource, m: string, u: string)
    ensures Lookup(rs + [r], m, u) == if Lookup(rs, m, u).Some? then Lookup(rs, m, u) else Lookup([r], m, u)
  {
    if rs == [] {
      assert rs + [r] == [r];
    } else {
      assert (rs + [r])[1..] == rs[1..] + [r];
      LookupAppend(rs[1..], r, m, u);
    }
  }

  /** Main result on the store: for any nesting and any duplicates, setting a status updates the map from
      (resource, type) to status at one place and nowhere else. */
  lemma SetIsMapUpdate(rs: seq<Resource>, name: string, t: string, s: string, now: int, m: string, u: string)
    ensures Lookup(Set(rs, name, t, s, now), m, u) == if m == name && u == t then Some(s) else Lookup(rs, m, u)
    ensures Get(Set(rs, name, t, s, now), m, u) == if m == name && u == t then s else Get(rs, m, u)
  {
    var first := [Condition(t, s, now)];
    assert Find(first, u) == if u == t then Some(s) else None by { assert first[1..] == []; }
    assert Find(first, t) == Some(s);
    if Has(rs, name) {
      LookupRewrite(rs, name, t, first, m, u);
    } else {
      LookupAppend(rs, Resource(name, first), m, u);
      NoneThere(rs, name, u);
      assert [Resource(name, first)][1..] == [];
    }
  }

  /** Resources of other handlers keep their place and all their conditions, times included. */
  lemma {:induction false} RewriteFrame(rs: seq<Resource>, name: string, t: string, g: seq<Condition>)
    ensures var r := Rewrite(rs, name, t, g);
      |r| == |rs| && forall i :: 0 <= i < |rs| ==>
        && r[i].name == rs[i].name && (rs[i].name != name ==> r[i] == rs[i])
        && (rs[i].name == name ==> g <= r[i].conditions)
  {
    if rs != [] {
      RewriteFrame(rs[1..], name, t, if rs[0].name == name then g + Others(rs[0].conditions, t) else g);
    }
  }

  /** Besides, every resource of the handler begins with the new condition and its time. */
  lemma SetKeepsOtherResources(rs: seq<Resource>, name: string, t: string, s: string, now: int)
    ensures var r := Set(rs, name, t, s, now);
      && |rs| <= |r| <= |rs| + 1 && (|r| == |rs| <==> Has(rs, name))
      && (forall i :: 0 <= i < |rs| && rs[i].name != name ==> r[i] == rs[i])
      && (forall i :: 0 <= i < |r| && r[i].name == name ==> [Condition(t, s, now)] <= r[i].conditions)
  {
    RewriteFrame(rs, name, t, [Condition(t, s, now)]);
  }
}
