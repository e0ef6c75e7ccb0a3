/** The split of a cluster's virtual network (service/network), how it is persisted in the AzureConfig
    (pkg/handler/ipam/azure_config_persister.go), and how the VPN subnet is found again from there
    (service/controller/azureconfig/handler/deployment/deployment.go). */
module Network {
  import opened Common
  import opened Cidr

  const SUBNET_MASK: nat := 24

  datatype Subnets = Subnets(parent: Net, calico: Net, master: Net, worker: Net, vpn: Net)

  /** Where the subnets lie: Calico takes the second half, the others are the first three /24 blocks. */
  function Layout(n: Net): Result<Subnets>
    requires n.Valid()
  {
    if n.bits <= 21 then
      Ok(Subnets(n, Net(n.base + Size(n.bits + 1), n.bits + 1), Net(n.base, SUBNET_MASK),
                 Net(n.base + 256, SUBNET_MASK), Net(n.base + 512, SUBNET_MASK)))
    else if n.bits <= 24 then Exhausted
    else MaskTooBig
  }

  lemma SmallSizes()
    ensures Size(25) == 128 && Size(24) == 256 && Size(23) == 512 && Size(22) == 1024
  {
    AddressSpace();
    assert Size(24) == 2 * Size(25) && Size(23) == 2 * Size(24) && Size(22) == 2 * Size(23);
  }

  lemma FourBlocks(n: Net)
    requires n.Valid() && n.bits <= 21
    ensures var s := Layout(n).value;
      && Size(24) == 256 && Size(n.bits + 1) >= 1024 && Size(n.bits) == 2 * Size(n.bits + 1)
      && s.calico.Valid() && s.master.Valid() && s.worker.Valid() && s.vpn.Valid()
      && Half(n) == Ok((Net(n.base, n.bits + 1), s.calico))
  {
    SmallSizes();
    SizeShrinks(n.bits + 1, 22);
    HalvesPartition(n);
    OnFinerGrid(n, 24);
    assert Size(n.bits) == 2 * Size(n.bits + 1);
    hide Size;
    NextCell(n.base, 256);
    NextCell(n.base + 256, 256);
  }

  /** Main result on the split: it exists exactly for prefixes up to 21, and then its four subnets are pairwise
      disjoint blocks of the network. */
  lemma SplitIsDisjoint(n: Net)
    requires n.Valid()
    ensures Layout(n).Ok? <==> n.bits <= 21
    ensures n.bits <= 21 ==>
      var s := Layout(n).value;
      && AllValid([s.calico, s.master, s.worker, s.vpn])
      && Inside(s.calico, n) && Inside(s.master, n) && Inside(s.worker, n) && Inside(s.vpn, n)
      && Disjoint(s.calico, s.master) && Disjoint(s.calico, s.worker) && Disjoint(s.calico, s.vpn)
      && Disjoint(s.master, s.worker) && Disjoint(s.master, s.vpn) && Disjoint(s.worker, s.vpn)
  {
    if n.bits <= 21 {
      FourBlocks(n);
      hide Size;
    }
  }

  lemma FreeIs(parent: Net, bits: nat, taken: seq<Net>, n: Net)
    requires parent.Valid() && parent.bits <= bits <= 32 && AllValid(taken)
    requires forall i :: 0 <= i < |taken| ==> Contains(parent, taken[i].base)
    requires Available(n, parent, bits, taken)
    requires forall m :: Available(m, parent, bits, taken) ==> n.base <= m.base
    ensures Free(parent, bits, taken) == Ok(n)
  {
    hide Free, Size, Available, Contains;
    FreeIsFirstFit(parent, bits, taken);
    assert Available(Free(parent, bits, taken).value, parent, bits, taken);
    AvailableHasPrefix(Free(parent, bits, taken).value, parent, bits, taken);
    AvailableHasPrefix(n, parent, bits, taken);
  }

  lemma AvailableHasPrefix(n: Net, parent: Net, bits: nat, taken: seq<Net>)
    requires parent.Valid() && AllValid(taken) && Available(n, parent, bits, taken)
    ensures n.bits == bits
  {}

  lemma Avoids(parent: Net, bits: nat, taken: seq<Net>, i: nat)
    requires parent.Valid() && bits <= 32 && AllValid(taken) && i < |taken|
    ensures forall m :: Available(m, parent, bits, taken) ==> Disjoint(m, taken[i])
  {
    hide Size, Disjoint;
  }

  /** Which blocks the split takes: Calico the upper half, then the masters, the workers and the VPN each the first free
      /24 block beside the ones before. */
  lemma RoomForThree(n: Net)
    requires n.Valid() && n.bits <= 21
    ensures var s := Layout(n).value;
      && s.calico.Valid() && s.master.Valid() && s.worker.Valid()
      && Half(n) == Ok((Net(n.base, n.bits + 1), s.calico))
      && Free(n, 24, [s.calico]) == Ok(s.master)
      && Free(n, 24, [s.calico, s.master]) == Ok(s.worker)
      && Free(n, 24, [s.calico, s.master, s.worker]) == Ok(s.vpn)
  {
    FourBlocks(n);
    hide Size, Free, Half;
    var s := Layout(n).value;
    FreeIs(n, 24, [s.calico], s.master);
    var two := [s.calico, s.master];
    Avoids(n, 24, two, 1);
    FreeIs(n, 24, two, s.worker);
    var three := [s.calico, s.master, s.worker];
    Avoids(n, 24, three, 1);
    Avoids(n, 24, three, 2);
    FreeIs(n, 24, three, s.vpn);
  }

  /** A /24 has no room for a /24 block beside Calico, a /23 has room for one, and a /22 for two. */
  lemma RoomForNone(n: Net)
    requires n.Valid() && n.bits == 24
    ensures var calico := Net(n.base + 128, 25);
      calico.Valid() && Half(n) == Ok((Net(n.base, 25), calico)) && Free(n, 24, [calico]) == Exhausted
  {
    SmallSizes();
    HalvesPartition(n);
    hide Size, Free;
    var one := [Net(n.base + 128, 25)];
    Avoids(n, 24, one, 0);
    FreeIsFirstFit(n, 24, one);
  }

  lemma RoomForOne(n: Net)
    requires n.Valid() && n.bits == 23
    ensures var (calico, master) := (Net(n.base + 256, 24), Net(n.base, 24));
      && calico.Valid() && master.Valid() && Half(n) == Ok((Net(n.base, 24), calico))
      && Free(n, 24, [calico]) == Ok(master) && Free(n, 24, [calico, master]) == Exhausted
  {
    SmallSizes();
    HalvesPartition(n);
    hide Size, Free;
    var calico, master := Net(n.base + 256, 24), Net(n.base, 24);
    FreeIs(n, 24, [calico], master);
    var two := [calico, master];
    Avoids(n, 24, two, 0);
    Avoids(n, 24, two, 1);
    FreeIsFirstFit(n, 24, two);
  }

  lemma RoomForTwo(n: Net)
    requires n.Valid() && n.bits == 22
    ensures var (calico, master, worker) := (Net(n.base + 512, 23), Net(n.base, 24), Net(n.base + 256, 24));
      && calico.Valid() && master.Valid() && worker.Valid() && Half(n) == Ok((Net(n.base, 23), calico))
      && Free(n, 24, [calico]) == Ok(master) && Free(n, 24, [calico, master]) == Ok(worker)
      && Free(n, 24, [calico, master, worker]) == Exhausted
  {
    SmallSizes();
    HalvesPartition(n);
    OnFinerGrid(n, 24);
    hide Size, Free;
    NextCell(n.base, 256);
    var calico, master, worker := Net(n.base + 512, 23), Net(n.base, 24), Net(n.base + 256, 24);
    FreeIs(n, 24, [calico], master);
    var two := [calico, master];
    Avoids(n, 24, two, 1);
    FreeIs(n, 24, two, worker);
    var three := [calico, master, worker];
    Avoids(n, 24, three, 0);
    Avoids(n, 24, three, 1);
    Avoids(n, 24, three, 2);
    FreeIsFirstFit(n, 24, three);
  }

  /** Fills the subnets one after another, each beside the earlier ones. */
  method Compute(network: Net) returns (r: Result<Subnets>)
    requires network.Valid()
    ensures r == Layout(network)
  {
    if network.bits <= 21 {
      RoomForThree(network);
    } else if network.bits == 22 {
      RoomForTwo(network);
    } else if network.bits == 23 {
      RoomForOne(network);
    } else if network.bits == 24 {
      RoomForNone(network);
    } else if network.bits < 32 {
      HalvesPartition(network);
      FreeIsFirstFit(network, 24, [Half(network).value.1]);
    }
    hide Free, Size;
    var subnets := Subnets(network, Net(0, 0), Net(0, 0), Net(0, 0), Net(0, 0));
    var halves := Half(network);
    if !halves.Ok? { return MaskTooBig; }
    subnets := subnets.(calico := halves.value.1);
    var master := Free(network, SUBNET_MASK, [subnets.calico]);
    if !master.Ok? { return Failure(master); }
    subnets := subnets.(master := master.value);
    var worker := Free(network, SUBNET_MASK, [subnets.calico, subnets.master]);
    if !worker.Ok? { return Failure(worker); }
    subnets := subnets.(worker := worker.value);
    var vpn := Free(network, SUBNET_MASK, [subnets.calico, subnets.master, subnets.worker]);
    if !vpn.Ok? { return Failure(vpn); }
    subnets := subnets.(vpn := vpn.value);
    return Ok(subnets);
  }

  function Failure(r: Result<Net>): Result<Subnets>
    requires !r.Ok?
  {
    match r
    case MaskTooBig => MaskTooBig
    case NotContained => NotContained
    case Exhausted => Exhausted
  }

  // ---------------------------------------------------------------- persisting

  datatype VirtualNetwork = VirtualNetwork(cidr: string, calico: string, master: string, worker: string)

  function Persisted(vnet: Net): VirtualNetwork
    requires vnet.Valid() && vnet.bits <= 21
  {
    var s := Layout(vnet).value;
    VirtualNetwork(Format(vnet), Format(s.calico), Format(s.master), Format(s.worker))
  }

  class AzureConfig {
    var network: VirtualNetwork
    var calicoSubnet: string
    var calicoMask: nat

    /** A network that cannot be split is not persisted. */
    method Persist(vnet: Net, readable: bool, writable: bool) returns (failed: bool)
      requires vnet.Valid()
      modifies this
      ensures failed <==> !readable || !writable || vnet.bits > 21
      ensures failed ==> network == old(network) && calicoSubnet == old(calicoSubnet) && calicoMask == old(calicoMask)
      ensures !failed ==> network == Persisted(vnet)
      ensures !failed ==> calicoSubnet == FormatAddress(Layout(vnet).value.calico.base) && calicoMask == vnet.bits + 1
    {
      hide Format, FormatAddress, Size;
      if !readable { return true; }
      var azureNetwork := Compute(vnet);
      if !azureNetwork.Ok? || !writable { return true; }
      var s := azureNetwork.value;
      network := VirtualNetwork(Format(vnet), Format(s.calico), Format(s.master), Format(s.worker));
      calicoSubnet, calicoMask := FormatAddress(s.calico.base), s.calico.bits;
      return false;
    }
  }

  /** What is persisted reads back as the split, each subnet in its own field. */
  lemma PersistedReadsBack(vnet: Net)
    requires vnet.Valid() && vnet.bits <= 21
    ensures var p := Persisted(vnet); var calico := Half(vnet).value.1;
      && calico.Valid() && Parse(p.cidr) == Some(vnet) && Parse(p.calico) == Some(calico)
      && Free(vnet, 24, [calico]).Ok?
      && var master := Free(vnet, 24, [calico]).value;
         && master.Valid() && Parse(p.master) == Some(master)
         && Free(vnet, 24, [calico, master]).Ok? && Parse(p.worker) == Some(Free(vnet, 24, [calico, master]).value)
  {
    RoomForThree(vnet);
    var s := Layout(vnet).value;
    hide Size, Format, Parse, Layout, Free, Half;
    CidrRoundTrip(vnet);
    CidrRoundTrip(s.calico);
    CidrRoundTrip(s.master);
    CidrRoundTrip(s.worker);
  }

  function VpnSubnet(cidr: string): Option<Net> {
    var n := Parse(cidr);
    if n.None? || !Layout(n.value).Ok? then None else Some(Layout(n.value).value.vpn)
  }

  method GetVpnSubnet(cidr: string) returns (r: Option<Net>)
    ensures r == VpnSubnet(cidr)
  {
    hide Parse, Size;
    var n := Parse(cidr);
    if n.None? { return None; }
    var subnets := Compute(n.value);
    if !subnets.Ok? { return None; }
    return Some(subnets.value.vpn);
  }

  /** The VPN subnet is not persisted; computed again from the persisted range of the network it is always found,
      lies in that network, and avoids the three persisted subnets. */
  lemma VpnAvoidsPersistedSubnets(vnet: Net)
    requires vnet.Valid() && vnet.bits <= 21
    ensures var p := Persisted(vnet); var vpn := VpnSubnet(p.cidr);
      && vpn.Some? && vpn.value.Valid() && Inside(vpn.value, vnet)
      && Parse(p.calico).Some? && Disjoint(vpn.value, Parse(p.calico).value)
      && Parse(p.master).Some? && Disjoint(vpn.value, Parse(p.master).value)
      && Parse(p.worker).Some? && Disjoint(vpn.value, Parse(p.worker).value)
  {
    SplitIsDisjoint(vnet);
    var s := Layout(vnet).value;
    hide Size, Format, Parse, Layout, Disjoint;
    assert s.calico == [s.calico, s.master, s.worker, s.vpn][0] && s.master == [s.calico, s.master, s.worker, s.vpn][1]
        && s.worker == [s.calico, s.master, s.worker, s.vpn][2] && s.vpn == [s.calico, s.master, s.worker, s.vpn][3];
    CidrRoundTrip(vnet);
    CidrRoundTrip(s.calico);
    CidrRoundTrip(s.master);
    CidrRoundTrip(s.worker);
    DisjointIsSymmetric(s.vpn, s.calico);
    DisjointIsSymmetric(s.vpn, s.master);
    DisjointIsSymmetric(s.vpn, s.worker);
  }

  lemma DisjointIsSymmetric(a: Net, b: Net)
    requires a.bits <= 32 && b.bits <= 32
    ensures Disjoint(a, b) <==> Disjoint(b, a)
  {
    hide Size;
  }
}
