/** Collection of the virtual networks in use, before a new one is allocated
    (pkg/handler/ipam/virtualnetwork_collector.go). */
module VNets {
  import opened Common
  import opened Cidr

  /** A tenant cluster: the CIDR in its AzureConfig, the subscription of its credentials, None when they cannot be
      read, and the networks found with them, None when Azure refuses them. */
  datatype Cluster = Cluster(cidr: string, subscription: Option<string>, networks: Option<seq<Net>>)

  /** State of the loop over the clusters. */
  datatype Walk = Walk(finished: seq<string>, found: seq<Net>)

  function Visit(w: Walk, c: Cluster): Walk
    requires c.subscription.Some?
  {
    if c.subscription.value in w.finished || c.networks.None? then w
    else Walk(w.finished + [c.subscription.value], w.found + c.networks.value)
  }

  predicate Readable(cs: seq<Cluster>) { forall i :: 0 <= i < |cs| ==> cs[i].subscription.Some? }

  function Subscriptions(cs: seq<Cluster>): Walk
    requires Readable(cs)
  {
    if cs == [] then Walk([], []) else Visit(Subscriptions(cs[..|cs| - 1]), cs[|cs| - 1])
  }

  function Configs(cs: seq<Cluster>): Option<seq<Net>> {
    if cs == [] then Some([]) else
    var rest, last := Configs(cs[..|cs| - 1]), cs[|cs| - 1];
    if rest.None? || last.cidr == "" then rest
    else if Parse(last.cidr).None? then None
    else Some(rest.value + [Parse(last.cidr).value])
  }

  method InArray(a: seq<string>, s: string) returns (r: bool)
    ensures r <==> s in a
  {
    for i := 0 to |a|
      invariant s !in a[..i]
    {
      if a[i] == s { return true; }
    }
    assert a[..|a|] == a;
    return false;
  }

  method FromAllSubscriptions(cs: seq<Cluster>) returns (r: seq<Net>, failed: bool)
    ensures failed <==> !Readable(cs)
    ensures !failed ==> r == Subscriptions(cs).found
  {
    var finished: seq<string> := [];
    r := [];
    for i := 0 to |cs|
      invariant Readable(cs[..i]) && Subscriptions(cs[..i]) == Walk(finished, r)
    {
      assert cs[..i + 1][..i] == cs[..i];
      if cs[i].subscription.None? { return r, true; }
      var known := InArray(finished, cs[i].subscription.value);
      if known { continue; }
      if cs[i].networks.None? { continue; }
      finished := finished + [cs[i].subscription.value];
      r := r + cs[i].networks.value;
    }
    assert cs[..|cs|] == cs;
    return r, false;
  }

  method FromAzureConfigs(cs: seq<Cluster>) returns (r: seq<Net>, failed: bool)
    ensures failed <==> Configs(cs).None?
    ensures !failed ==> r == Configs(cs).value
  {
    hide Parse;
    r := [];
    for i := 0 to |cs|
      invariant Configs(cs[..i]) == Some(r)
    {
      assert cs[..i + 1][..i] == cs[..i];
      if cs[i].cidr == "" { continue; }
      var n := Parse(cs[i].cidr);
      if n.None? {
        Unreadable(cs, i + 1);
        return r, true;
      }
      r := r + [n.value];
    }
    assert cs[..|cs|] == cs;
    return r, false;
  }

  lemma {:induction false} Unreadable(cs: seq<Cluster>, n: nat)
    requires 0 < n <= |cs| && cs[n - 1].cidr != "" && Parse(cs[n - 1].cidr).None?
    ensures Configs(cs).None?
  {
    hide Parse;
    if n < |cs| { Unreadable(cs[..|cs| - 1], n); }
  }

  predicate Configured(cs: seq<Cluster>, n: Net) {
    exists i :: 0 <= i < |cs| && cs[i].cidr != "" && Parse(cs[i].cidr) == Some(n)
  }

  lemma {:induction false} FoundIffConfigured(cs: seq<Cluster>, n: Net)
    requires Configs(cs).Some?
    ensures n in Configs(cs).value <==> Configured(cs, n)
  {
    hide Parse;
    if cs != [] {
      var k := |cs| - 1;
      var init := cs[..k];
      FoundIffConfigured(init, n);
      hide Configs;
      assert forall i :: 0 <= i < k ==> init[i] == cs[i];
      if Configured(init, n) {
        var i :| 0 <= i < k && init[i].cidr != "" && Parse(init[i].cidr) == Some(n);
        assert cs[i] == init[i];
      }
    }
  }

  lemma {:induction false} ConfigsFailIff(cs: seq<Cluster>)
    ensures Configs(cs).None? <==> exists i :: 0 <= i < |cs| && cs[i].cidr != "" && Parse(cs[i].cidr).None?
  {
    hide Parse;
    if cs != [] {
      var k := |cs| - 1;
      var init := cs[..k];
      ConfigsFailIff(init);
      assert forall i :: 0 <= i < k ==> init[i] == cs[i];
      if i :| 0 <= i < k && init[i].cidr != "" && Parse(init[i].cidr).None? { assert cs[i] == init[i]; }
    }
  }

  /** Credentials that work see the same networks of a subscription. */
  predicate SameView(cs: seq<Cluster>) {
    forall i, j :: 0 <= i < |cs| && 0 <= j < |cs| && cs[i].networks.Some? && cs[j].networks.Some? ==>
      cs[i].subscription == cs[j].subscription ==> cs[i].networks == cs[j].networks
  }

  predicate Sees(c: Cluster, n: Net) { c.networks.Some? && n in c.networks.value }

  predicate Seen(cs: seq<Cluster>, n: Net) { exists i :: 0 <= i < |cs| && Sees(cs[i], n) }

  predicate Works(c: Cluster, s: string) { c.subscription == Some(s) && c.networks.Some? }

  predicate Working(cs: seq<Cluster>, s: string) { exists i :: 0 <= i < |cs| && Works(cs[i], s) }

  lemma SeenLast(cs: seq<Cluster>, n: Net)
    requires cs != []
    ensures Seen(cs, n) <==> Seen(cs[..|cs| - 1], n) || Sees(cs[|cs| - 1], n)
  {
    hide Sees;
    var init := cs[..|cs| - 1];
    assert forall i :: 0 <= i < |init| ==> init[i] == cs[i];
  }

  lemma WorkingLast(cs: seq<Cluster>, s: string)
    requires cs != []
    ensures Working(cs, s) <==> Working(cs[..|cs| - 1], s) || Works(cs[|cs| - 1], s)
  {
    hide Works;
    var init := cs[..|cs| - 1];
    assert forall i :: 0 <= i < |init| ==> init[i] == cs[i];
  }

  /** Each subscription with working credentials is read once. */
  lemma {:induction false} ReadOnce(cs: seq<Cluster>, s: string)
    requires Readable(cs)
    ensures var w := Subscriptions(cs);
      && (s in w.finished <==> Working(cs, s))
      && (forall i, j :: 0 <= i < j < |w.finished| ==> w.finished[i] != w.finished[j])
  {
    if cs != [] {
      hide Working;
      ReadOnce(cs[..|cs| - 1], s);
      WorkingLast(cs, s);
    }
  }

  /** A network is found exactly when the credentials of some cluster see it: credentials that do not work hide a
      subscription only when no other cluster's do. */
  lemma {:induction false} FoundIffSeen(cs: seq<Cluster>, n: Net)
    requires Readable(cs) && SameView(cs)
    ensures n in Subscriptions(cs).found <==> Seen(cs, n)
  {
    if cs != [] {
      var k := |cs| - 1;
      var init, last := cs[..k], cs[k];
      FoundIffSeen(init, n);
      SeenLast(cs, n);
      ReadOnce(init, last.subscription.value);
      assert Subscriptions(cs) == Visit(Subscriptions(init), last);
      hide Subscriptions, Seen;
      if last.networks.Some? && Sees(last, n) && last.subscription.value in Subscriptions(init).finished {
        var i :| 0 <= i < k && Works(init[i], last.subscription.value);
        assert cs[i] == init[i];
        SeenBy(init, i, n);
      }
    }
  }

  lemma SeenBy(cs: seq<Cluster>, i: nat, n: Net)
    requires i < |cs| && Sees(cs[i], n)
    ensures Seen(cs, n)
  {}

  /** A new virtual network avoids each reserved range, each network of an AzureConfig, and each network that working
      credentials see, exactly unless that one is larger than the range of the installation and begins before it:
      such a network does not start in the range, and so is left out of the collection. */
  lemma NewNetworkAvoidsKnownOnes(range: Net, mask: nat, reserved: seq<Net>, cs: seq<Cluster>, known: Net)
    requires range.Valid() && mask <= 32 && AllValid(reserved) && Readable(cs) && SameView(cs) && Configs(cs).Some?
    requires forall i :: 0 <= i < |cs| && cs[i].networks.Some? ==> AllValid(cs[i].networks.value)
    requires known.Valid() && (known in reserved || Configured(cs, known) || Seen(cs, known))
    ensures var all := reserved + Configs(cs).value + Subscriptions(cs).found;
      var taken := Canonicalize(range, seq(|all|, i requires 0 <= i < |all| => Some(all[i])));
      && AllValid(taken)
      && (Free(range, mask, taken).Ok? ==>
            (Disjoint(Free(range, mask, taken).value, known) <==> !(Inside(range, known) && known.base < range.base)))
  {
    hide Parse, Size, Free, Subscriptions, Configs, Contains, Inside, Disjoint;
    FoundIffConfigured(cs, known);
    FoundIffSeen(cs, known);
    var all := reserved + Configs(cs).value + Subscriptions(cs).found;
    var optional := seq(|all|, i requires 0 <= i < |all| => Some(all[i]));
    var taken := Canonicalize(range, optional);
    forall i | 0 <= i < |taken| ensures taken[i].Valid() {
      assert Some(taken[i]) in optional;
      ValidWhereFrom(reserved, cs, taken[i]);
    }
    FreeIsFirstFit(range, mask, taken);
    var r := Free(range, mask, taken);
    if r.Ok? {
      assert known in all;
      var k :| 0 <= k < |all| && all[k] == known;
      assert optional[k] == Some(known);
      KnownIsAvoidedIff(range, optional, known, r.value, taken);
    }
  }

  /** And it does happen: with such a network as the only known one nothing is collected, the search succeeds, and the
      new network lies in the known one. */
  lemma EnclosingNetworkIsOverlapped(range: Net, mask: nat, known: Net)
    requires range.Valid() && range.bits <= mask <= 32 && known.Valid()
    requires Inside(range, known) && known.base < range.base
    ensures Canonicalize(range, [Some(known)]) == [] && Free(range, mask, []).Ok?
    ensures var r := Free(range, mask, []).value; r.Valid() && Inside(r, known) && !Disjoint(r, known)
  {
    FirstBlockIsFree(range, mask);
    hide Size, Free, Canonicalize;
  }

  lemma ValidWhereFrom(reserved: seq<Net>, cs: seq<Cluster>, n: Net)
    requires AllValid(reserved) && Readable(cs) && SameView(cs) && Configs(cs).Some?
    requires forall i :: 0 <= i < |cs| && cs[i].networks.Some? ==> AllValid(cs[i].networks.value)
    requires n in reserved || n in Configs(cs).value || n in Subscriptions(cs).found
    ensures n.Valid()
  {
    FoundIffSeen(cs, n);
    FoundIffConfigured(cs, n);
    hide Subscriptions, Configs;
    if Seen(cs, n) {
      var i :| 0 <= i < |cs| && Sees(cs[i], n);
      var k :| 0 <= k < |cs[i].networks.value| && cs[i].networks.value[k] == n;
    }
  }

  lemma KnownIsAvoidedIff(range: Net, s: seq<Option<Net>>, known: Net, r: Net, taken: seq<Net>)
    requires range.Valid() && known.Valid() && r.Valid() && AllValid(taken)
    requires taken == Canonicalize(range, s) && Some(known) in s
    requires Inside(r, range) && DisjointFromAll(r, taken)
    ensures Disjoint(r, known) <==> !(Inside(range, known) && known.base < range.base)
  {
    if Contains(range, known.base) {
      assert known in taken;
    } else if known.bits >= range.bits {
      NestedOrDisjoint(known, range);
    } else {
      NestedOrDisjoint(range, known);
    }
    hide Size, Canonicalize;
  }
}
