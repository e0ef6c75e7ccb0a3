/** Allocation of node pool subnets (pkg/handler/ipam) as a protocol: the steps of one allocation or release
    under the lock, interleaved in any way with what happens without it. */
module Ipam {
  import opened Common
  import opened Cidr
  import opened SubnetList

  const NODE_POOL_MASK: nat := 24

  type Block = n: Net | n.Valid() witness Net(0, 32)

  /** A subnet that exists in Azure. */
  datatype Live = Live(name: string, range: Block)

  /** Where the holder of the lock is; nobody holds it when Idle. */
  datatype Phase = Idle | Locked(pool: string) | Checked(pool: string)
                 | SpecRead(pool: string, blocks: seq<Option<Block>>) | Collected(pool: string, taken: seq<Block>)
                 | Found(pool: string, range: Block) | Releasing(pool: string)

  /** The range of the virtual network, the subnets in the AzureCluster, the list that the subnet handler works on as
      it read it, the subnets in Azure, and the protocol. */
  datatype World = World(vnet: Block, subnets: seq<SubnetSpec>, snapshot: seq<SubnetSpec>, live: seq<Live>,
                         phase: Phase)

  /** The steps of the holder, and the steps of anyone: taking the lock, deleting a node pool (which removes the
      subnet without the lock), and those of the subnet handler: reading the AzureCluster, deploying a subnet of the
      list it read, and deleting a subnet in Azure. */
  datatype Step = Check | ReadSpec | ReadVNet(specFirst: bool) | Find | Persist | Release | Abort
                | Lock(pool: string) | LockToRelease(pool: string) | DeletePool(pool: string)
                | ReadList | Deploy(i: nat) | Delete(k: nat)

  function Ranges(live: seq<Live>): (r: seq<Option<Block>>)
    ensures |r| == |live| && forall k :: 0 <= k < |live| ==> r[k] == Some(live[k].range)
  {
    if live == [] then [] else Ranges(live[..|live| - 1]) + [Some(live[|live| - 1].range)]
  }

  function Without(live: seq<Live>, name: string): seq<Live> {
    if live == [] then []
    else if live[|live| - 1].name == name then Without(live[..|live| - 1], name)
    else Without(live[..|live| - 1], name) + [live[|live| - 1]]
  }

  function SpecBlocks(s: seq<SubnetSpec>): (r: Option<seq<Option<Block>>>) {
    var blocks := FromSpec(s);
    if blocks.None? then None else Some(blocks.value)
  }

  function Taken(vnet: Block, blocks: seq<Option<Block>>): seq<Block> {
    var r := Canonicalize(vnet, blocks);
    assert forall i :: 0 <= i < |r| ==> r[i] in r;
    assert forall n :: n in r ==> Some(n) in blocks;
    r
  }

  /** In Azure a subnet of that name has that range from now on. */
  function DeployTo(w: World, name: string, r: Block): World { w.(live := Without(w.live, name) + [Live(name, r)]) }

  /** One step; a step that is not possible in the current phase changes nothing. */
  function Next(w: World, step: Step): World {
    match (step, w.phase)
    case (Lock(pool), Idle) => w.(phase := Locked(pool))
    case (LockToRelease(pool), Idle) => w.(phase := Releasing(pool))
    case (Abort, _) => w.(phase := Idle)
    case (Check, Locked(pool)) => w.(phase := if Lookup(w.subnets, pool) == NotAllocated then Checked(pool) else Idle)
    case (ReadSpec, Checked(pool)) =>
      var blocks := SpecBlocks(w.subnets);
      w.(phase := if blocks.Some? then SpecRead(pool, blocks.value) else Idle)
    case (ReadVNet(specFirst), SpecRead(pool, blocks)) =>
      var all := if specFirst then blocks + Ranges(w.live) else Ranges(w.live) + blocks;
      w.(phase := Collected(pool, Taken(w.vnet, all)))
    case (Find, Collected(pool, taken)) =>
      var r := Free(w.vnet, NODE_POOL_MASK, taken);
      w.(phase := if r.Ok? then Found(pool, r.value) else Idle)
    case (Persist, Found(pool, range)) =>
      w.(subnets := w.subnets + [SubnetSpec(pool, [Format(range)], "")], phase := Idle)
    case (Release, Releasing(pool)) =>
      var owned := Lookup(w.subnets, pool).Allocated?;
      w.(subnets := if owned then RemoveFirst(w.subnets, pool) else w.subnets, phase := Idle)
    case (DeletePool(pool), _) => w.(subnets := RemoveLast(w.subnets, pool))
    case (ReadList, _) => w.(snapshot := w.subnets)
    case (Deploy(i), _) =>
      if i < |w.snapshot| && Range(w.snapshot[i]).Some?
      then DeployTo(w, w.snapshot[i].name, Range(w.snapshot[i]).value)
      else w
    case (Delete(k), _) => if k < |w.live| then w.(live := w.live[..k] + w.live[k + 1..]) else w
    case _ => w
  }

  /** A run: any steps in any order. */
  predicate Run(ws: seq<World>, steps: seq<Step>) {
    |ws| == |steps| + 1 && forall i :: 0 <= i < |steps| ==> ws[i + 1] == Next(ws[i], steps[i])
  }

  // ---------------------------------------------------------------- address safety

  predicate HeldInSpec(s: seq<SubnetSpec>, name: string, r: Block) {
    exists i :: 0 <= i < |s| && s[i].name == name && Range(s[i]) == Some(r)
  }

  predicate HeldInAzure(live: seq<Live>, name: string, r: Block) { Live(name, r) in live }

  /** The name holds the range, in the AzureCluster or in Azure. */
  predicate Held(w: World, name: string, r: Block) { HeldInSpec(w.subnets, name, r) || HeldInAzure(w.live, name, r) }

  /** Ranges under different names are disjoint, and all of them lie in the virtual network. */
  ghost predicate NoOverlap(w: World) {
    && (forall a, b, r: Block, s: Block :: Held(w, a, r) && Held(w, b, s) && a != b ==> Disjoint(r, s))
    && (forall a, r: Block :: Held(w, a, r) ==> Inside(r, w.vnet))
  }

  /** No overlap means that each address belongs to at most one name, and that it lies in the network. */
  lemma NoOverlapMeans(w: World)
    ensures NoOverlap(w) <==>
      && (forall a, b, r: Block, s: Block, address: nat ::
            Held(w, a, r) && Held(w, b, s) && Contains(r, address) && Contains(s, address) ==> a == b)
      && (forall a, r: Block :: Held(w, a, r) ==> Inside(r, w.vnet))
  {
    hide Held, Disjoint, Contains, Inside;
    forall r: Block, s: Block
      ensures Disjoint(r, s) <==> !exists address: nat :: Contains(r, address) && Contains(s, address)
    {
      DisjointMeans(r, s);
    }
  }

  /** The range that the holder of the lock hands out next: the one it found, or will find in what it collected. */
  function Coming(w: World): Option<Block> {
    match w.phase
    case Found(_, range) => Some(range)
    case Collected(_, taken) =>
      var r := Free(w.vnet, NODE_POOL_MASK, taken);
      if r.Ok? then FreeAvoids(w, taken); Some(r.value) else None
    case _ => None
  }

  /** What the holder of the lock relies on: it read no less of the list than there is, and the range it hands out
      next is disjoint from all that are held. */
  ghost predicate Pending(w: World) {
    && (w.phase.SpecRead? ==> forall a, r: Block :: HeldInSpec(w.subnets, a, r) ==> Some(r) in w.phase.blocks)
    && (Coming(w).Some? ==>
          Inside(Coming(w).value, w.vnet) && forall a, r: Block :: Held(w, a, r) ==> Disjoint(Coming(w).value, r))
  }

  ghost predicate Safe(w: World) { NoOverlap(w) && Pending(w) }

  lemma RemoveHolds(s: seq<SubnetSpec>, i: nat, name: string, r: Block)
    requires HeldInSpec(RemoveAt(s, i), name, r)
    ensures HeldInSpec(s, name, r)
  {
    hide Range;
    var t := RemoveAt(s, i);
    var j :| 0 <= j < |t| && t[j].name == name && Range(t[j]) == Some(r);
    assert t[j] == s[if i < |s| && j >= i then j + 1 else j];
  }

  lemma {:induction false} WithoutHolds(live: seq<Live>, name: string, l: Live)
    ensures l in Without(live, name) <==> l in live && l.name != name
  {
    if live != [] {
      WithoutHolds(live[..|live| - 1], name, l);
      assert live == live[..|live| - 1] + [live[|live| - 1]];
    }
  }

  predicate Deploys(w: World, step: Step) {
    step.Deploy? && step.i < |w.snapshot| && Range(w.snapshot[step.i]).Some?
  }

  /** Only Persist adds a range to the list, and only a deployment one to Azure; every other step holds no more than
      before. */
  lemma OnlyPersistAdds(w: World, step: Step, name: string, r: Block)
    requires Held(Next(w, step), name, r)
    requires !(step.Persist? && w.phase.Found?) && !Deploys(w, step)
    ensures Held(w, name, r)
    ensures HeldInSpec(Next(w, step).subnets, name, r) ==> HeldInSpec(w.subnets, name, r)
  {
    var w' := Next(w, step);
    hide Range, Format, Taken, Free, SpecBlocks, Lookup, First, Last, RemoveAt;
    if HeldInSpec(w'.subnets, name, r) {
      if step.Release? && w'.subnets != w.subnets { RemoveHolds(w.subnets, First(w.subnets, w.phase.pool), name, r); }
      if step.DeletePool? { RemoveHolds(w.subnets, Last(w.subnets, step.pool), name, r); }
    }
  }

  lemma DeployHolds(w: World, a: string, x: Block, name: string, r: Block)
    ensures var w' := DeployTo(w, a, x);
      && (HeldInAzure(w'.live, name, r) <==> (name == a && r == x) || (name != a && HeldInAzure(w.live, name, r)))
      && (Held(w', name, r) ==> (name == a && r == x) || Held(w, name, r))
      && (name != a ==> (Held(w', name, r) <==> Held(w, name, r)))
      && Held(w', a, x)
  {
    WithoutHolds(w.live, a, Live(name, r));
    WithoutHolds(w.live, a, Live(a, x));
    hide HeldInSpec;
  }

  lemma PersistAdds(w: World, name: string, r: Block)
    requires w.phase.Found?
    ensures Held(Next(w, Persist), name, r) <==> Held(w, name, r) || (name == w.phase.pool && r == w.phase.range)
  {
    var added := SubnetSpec(w.phase.pool, [Format(w.phase.range)], "");
    var s := w.subnets + [added];
    assert Next(w, Persist) == w.(subnets := s, phase := Idle);
    CidrRoundTrip(w.phase.range);
    assert Range(added) == Some(w.phase.range);
    hide Range, Format, Next;
    if HeldInSpec(w.subnets, name, r) {
      var i :| 0 <= i < |w.subnets| && w.subnets[i].name == name && Range(w.subnets[i]) == Some(r);
      assert s[i].name == name && Range(s[i]) == Some(r);
    }
    assert s[|w.subnets|] == added;
  }

  lemma BlocksOfSpec(s: seq<SubnetSpec>, name: string, r: Block)
    requires SpecBlocks(s).Some? && HeldInSpec(s, name, r)
    ensures Some(r) in SpecBlocks(s).value
  {
    var i :| 0 <= i < |s| && s[i].name == name && Range(s[i]) == Some(r);
    BlocksCover(s, i);
    hide Range, Blocks;
  }

  /** Everything held in the network is among the collected ranges. */
  lemma TakenCovers(w: World, blocks: seq<Option<Block>>, specFirst: bool, name: string, r: Block)
    requires Held(w, name, r) && Inside(r, w.vnet)
    requires HeldInSpec(w.subnets, name, r) ==> Some(r) in blocks
    ensures r in Taken(w.vnet, if specFirst then blocks + Ranges(w.live) else Ranges(w.live) + blocks)
  {
    hide Range, HeldInSpec, Size;
    if HeldInAzure(w.live, name, r) {
      var k :| 0 <= k < |w.live| && w.live[k] == Live(name, r);
      assert Ranges(w.live)[k] == Some(r);
    }
  }

  lemma FreeAvoids(w: World, taken: seq<Block>)
    requires Free(w.vnet, NODE_POOL_MASK, taken).Ok?
    ensures var range := Free(w.vnet, NODE_POOL_MASK, taken).value;
      range.Valid() && Inside(range, w.vnet) && forall r :: r in taken ==> Disjoint(range, r)
  {
    FreeIsFirstFit(w.vnet, NODE_POOL_MASK, taken);
    hide Free, Size;
  }

  lemma FewerKeepNoOverlap(w: World, w': World)
    requires NoOverlap(w) && w'.vnet == w.vnet && forall name, r: Block :: Held(w', name, r) ==> Held(w, name, r)
    ensures NoOverlap(w')
  {
    hide Held, Disjoint, Inside;
  }

  lemma OneMoreKeepsNoOverlap(w: World, w': World, a: string, x: Block)
    requires NoOverlap(w) && w'.vnet == w.vnet && Inside(x, w.vnet)
    requires forall name, r: Block :: Held(w, name, r) ==> Disjoint(x, r)
    requires forall name, r: Block :: Held(w', name, r) <==> Held(w, name, r) || (name == a && r == x)
    ensures NoOverlap(w')
  {
    hide Held, Size;
  }

  lemma NoOverlapIsKept(w: World, step: Step)
    requires Safe(w) && !Deploys(w, step)
    ensures NoOverlap(Next(w, step))
  {
    var w' := Next(w, step);
    VNetIsFixed(w, step);
    if step.Persist? && w.phase.Found? {
      forall name, r: Block
        ensures Held(w', name, r) <==> Held(w, name, r) || (name == w.phase.pool && r == w.phase.range)
      {
        PersistAdds(w, name, r);
      }
      hide Held, Next, Disjoint, Inside;
      OneMoreKeepsNoOverlap(w, w', w.phase.pool, w.phase.range);
    } else {
      forall name, r: Block | Held(w', name, r) ensures Held(w, name, r) { OnlyPersistAdds(w, step, name, r); }
      hide Held, Next, Disjoint, Inside;
      FewerKeepNoOverlap(w, w');
    }
  }

  /** How the phase moves: the range to come stays the same or is given up, unless it is collected anew. */
  lemma PhaseCases(w: World, step: Step)
    requires !(step.ReadVNet? && w.phase.SpecRead?)
    ensures var w' := Next(w, step);
      && w'.vnet == w.vnet
      && (w'.phase.SpecRead? && w'.phase != w.phase ==>
            step.ReadSpec? && w.phase.Checked? && w'.subnets == w.subnets
                && SpecBlocks(w.subnets) == Some(w'.phase.blocks))
      && (w'.phase.Collected? ==> w'.phase == w.phase)
      && (w'.phase.Found? && w'.phase != w.phase ==>
            w.phase.Collected? && Free(w.vnet, NODE_POOL_MASK, w.phase.taken) == Ok(w'.phase.range))
  {
    hide Range, Format, Taken, Free, SpecBlocks, Lookup, RemoveFirst, RemoveLast, Without;
  }

  lemma ComingStays(w: World, step: Step)
    requires !(step.ReadVNet? && w.phase.SpecRead?) && Coming(Next(w, step)).Some?
    ensures Coming(Next(w, step)) == Coming(w)
  {
    PhaseCases(w, step);
    hide Next, Free;
  }

  lemma PendingIsKept(w: World, step: Step)
    requires Safe(w) && !Deploys(w, step)
    ensures Pending(Next(w, step))
  {
    var w' := Next(w, step);
    if step.Persist? && w.phase.Found? {
    } else {
      forall name, r: Block | Held(w', name, r)
        ensures Held(w, name, r) && (HeldInSpec(w'.subnets, name, r) ==> HeldInSpec(w.subnets, name, r))
      {
        OnlyPersistAdds(w, step, name, r);
      }
      if step.ReadVNet? && w.phase.SpecRead? {
        CollectingIsPending(w, step.specFirst);
      } else {
        PhaseCases(w, step);
        if Coming(w').Some? { ComingStays(w, step); }
        if w'.phase.SpecRead? && w.phase != w'.phase {
          forall name, r: Block | HeldInSpec(w.subnets, name, r) ensures Some(r) in w'.phase.blocks {
            BlocksOfSpec(w.subnets, name, r);
          }
        }
        hide Next, Held, Coming, Disjoint, Inside, SpecBlocks;
        assert forall name, r: Block :: HeldInSpec(w'.subnets, name, r) ==> HeldInSpec(w.subnets, name, r) by {
          forall name, r: Block | HeldInSpec(w'.subnets, name, r) ensures HeldInSpec(w.subnets, name, r) {
            HeldInSpecIsHeld(w', name, r);
          }
        }
      }
    }
  }

  lemma HeldInSpecIsHeld(w: World, name: string, r: Block)
    requires HeldInSpec(w.subnets, name, r)
    ensures Held(w, name, r)
  {
    hide HeldInSpec;
  }

  lemma CollectingIsPending(w: World, specFirst: bool)
    requires Safe(w) && w.phase.SpecRead?
    ensures Pending(Next(w, ReadVNet(specFirst)))
  {
    var w' := Next(w, ReadVNet(specFirst));
    forall name, r: Block | Held(w, name, r) ensures r in w'.phase.taken {
      TakenCovers(w, w.phase.blocks, specFirst, name, r);
    }
    var taken := w'.phase.taken;
    assert w' == w.(phase := Collected(w.phase.pool, taken));
    hide Next, Taken, Ranges, HeldInSpec, HeldInAzure;
    if Coming(w').Some? { FreeAvoids(w', taken); }
    hide Free;
    assert forall name, r: Block :: Held(w', name, r) <==> Held(w, name, r);
    hide Held, Disjoint, Inside;
  }

  // ---------------------------------------------------------------- deployments

  /** What the subnet handler would have to make sure of: the range lies in the network, nobody else holds a part of
      it, and it is not about to be handed out. */
  ghost predicate MayDeploy(w: World, name: string, r: Block) {
    && Inside(r, w.vnet)
    && (forall b, s: Block :: b != name && Held(w, b, s) ==> Disjoint(r, s))
    && (Coming(w).Some? ==> Disjoint(Coming(w).value, r))
  }

  lemma DeployKeepsComing(w: World, name: string, r: Block)
    ensures var w' := DeployTo(w, name, r); Coming(w') == Coming(w) && w'.vnet == w.vnet && w'.subnets == w.subnets
  {
    hide Free, Without;
  }

  /** Deploying a subnet of that name and range keeps a safe world safe exactly when it may be deployed. */
  lemma DeploymentIsSafeIff(w: World, name: string, r: Block)
    requires Safe(w)
    ensures Safe(DeployTo(w, name, r)) <==> MayDeploy(w, name, r)
  {
    var w' := DeployTo(w, name, r);
    DeployKeepsComing(w, name, r);
    assert w'.phase == w.phase;
    forall b, s: Block
      ensures Held(w', b, s) ==> (b == name && s == r) || Held(w, b, s)
      ensures b != name ==> (Held(w', b, s) <==> Held(w, b, s))
    {
      DeployHolds(w, name, r, b, s);
    }
    DeployHolds(w, name, r, name, r);
    hide Held, HeldInSpec, Coming, DeployTo, Size, Inside;
    if MayDeploy(w, name, r) {
      forall a, b, x: Block, y: Block | Held(w', a, x) && Held(w', b, y) && a != b ensures Disjoint(x, y) {}
    }
  }

  /** The holder goes on to hand out its range. */
  function HandOut(w: World): World { Next(if w.phase.Collected? then Next(w, Find) else w, Persist) }

  lemma HandOutAdds(w: World, name: string, r: Block)
    ensures var w' := HandOut(w);
      && w'.vnet == w.vnet
      && (Held(w', name, r) <==> Held(w, name, r) || (Coming(w) == Some(r) && name == w.phase.pool))
  {
    var f := if w.phase.Collected? then Next(w, Find) else w;
    assert f == w.(phase := f.phase) && Coming(f) == Coming(w) by { hide Free, Taken, Range, Format; }
    assert f.phase.Found? <==> Coming(w).Some? by { hide Free, Taken, Range, Format; }
    assert f.phase.Found? ==> f.phase.range == Coming(w).value && f.phase.pool == w.phase.pool by { hide Free, Taken; }
    if f.phase.Found? {
      PersistAdds(f, name, r);
    } else {
      assert Next(f, Persist) == f by { hide Format, Range; }
    }
    assert Held(f, name, r) <==> Held(w, name, r) by { hide HeldInSpec, HeldInAzure; }
    VNetIsFixed(f, Persist);
    hide Held, Next, Coming;
  }

  /** What it comes to: for any pool but the one being served, a subnet may be deployed exactly when afterwards ranges
      do not overlap, and still do not when the holder of the lock has handed out its range. */
  lemma MayDeployMeans(w: World, name: string, r: Block)
    requires Safe(w) && (Coming(w).Some? ==> w.phase.pool != name)
    ensures var w' := DeployTo(w, name, r);
      MayDeploy(w, name, r) <==> NoOverlap(w') && NoOverlap(HandOut(w'))
  {
    var w' := DeployTo(w, name, r);
    DeployKeepsComing(w, name, r);
    DeploymentIsSafeIff(w, name, r);
    hide DeployTo, HandOut, MayDeploy, NoOverlap;
    if MayDeploy(w, name, r) { SafeHandOut(w'); }
    if NoOverlap(w') && NoOverlap(HandOut(w')) { ApartMayDeploy(w, name, r); }
    hide Safe, Pending;
    SafeMeans(w');
  }

  lemma ApartMayDeploy(w: World, name: string, r: Block)
    requires Coming(w).Some? ==> w.phase.pool != name
    requires NoOverlap(DeployTo(w, name, r)) && NoOverlap(HandOut(DeployTo(w, name, r)))
    ensures MayDeploy(w, name, r)
  {
    var w' := DeployTo(w, name, r);
    DeployKeepsComing(w, name, r);
    assert w'.phase == w.phase;
    hide DeployTo, HandOut;
    DeployHolds(w, name, r, name, r);
    forall b, s: Block | b != name && Held(w, b, s) ensures Held(w', b, s) { DeployHolds(w, name, r, b, s); }
    HandOutAdds(w', name, r);
    if Coming(w).Some? { HandOutAdds(w', w.phase.pool, Coming(w).value); }
    hide Held, Coming, Disjoint, Inside;
  }

  lemma SafeHandOut(w: World)
    requires Safe(w)
    ensures NoOverlap(HandOut(w))
  {
    forall b, s: Block
      ensures Held(HandOut(w), b, s) <==> Held(w, b, s) || (Coming(w) == Some(s) && b == w.phase.pool)
      ensures HandOut(w).vnet == w.vnet
    {
      HandOutAdds(w, b, s);
    }
    HandOutAdds(w, "", w.vnet);
    hide Held, Coming, HandOut, Disjoint, Inside;
    if Coming(w).Some? {
      OneMoreKeepsNoOverlap(w, HandOut(w), w.phase.pool, Coming(w).value);
    } else {
      FewerKeepNoOverlap(w, HandOut(w));
    }
  }

  /** A range that its name still holds may always be deployed. */
  lemma HeldMayBeDeployed(w: World, name: string, r: Block)
    requires Safe(w) && Held(w, name, r)
    ensures MayDeploy(w, name, r)
  {
    hide Held, HeldInSpec, Coming, Size, Inside;
  }

  /** A deployment in a run is guarded when it may be done in the world it meets. */
  ghost predicate Guarded(w: World, step: Step) {
    Deploys(w, step) ==> MayDeploy(w, w.snapshot[step.i].name, Range(w.snapshot[step.i]).value)
  }

  lemma StepIsSafeIff(w: World, step: Step)
    requires Safe(w)
    ensures Safe(Next(w, step)) <==> Guarded(w, step)
    ensures Next(w, step).vnet == w.vnet
  {
    VNetIsFixed(w, step);
    if Deploys(w, step) {
      assert Next(w, step) == DeployTo(w, w.snapshot[step.i].name, Range(w.snapshot[step.i]).value) by {
        hide DeployTo;
      }
      hide Next, Safe;
      DeploymentIsSafeIff(w, w.snapshot[step.i].name, Range(w.snapshot[step.i]).value);
    } else {
      NoOverlapIsKept(w, step);
      PendingIsKept(w, step);
      hide Next, NoOverlap, Pending;
    }
  }

  /** Main result on addresses: in every interleaving of allocations and releases under the lock with node pool
      deletions, readings of the list, deployments of what was read, and deletions in Azure, the worlds are safe
      exactly as long as every deployment is guarded. In a safe world two ranges held under different names are
      disjoint and lie in the virtual network, and the range to be handed out next is disjoint from every range
      that is still held or still alive in Azure, whatever its name. */
  lemma {:induction false} AddressSafety(ws: seq<World>, steps: seq<Step>)
    requires Run(ws, steps) && Safe(ws[0])
    ensures (forall i :: 0 <= i < |ws| ==> Safe(ws[i])) <==> forall i :: 0 <= i < |steps| ==> Guarded(ws[i], steps[i])
    ensures forall i :: 0 <= i < |ws| ==> ws[i].vnet == ws[0].vnet
  {
    hide Safe, Next, Guarded;
    for n := 0 to |steps|
      invariant (forall i :: 0 <= i <= n ==> Safe(ws[i])) <==> forall i :: 0 <= i < n ==> Guarded(ws[i], steps[i])
      invariant forall i :: 0 <= i <= n ==> ws[i].vnet == ws[0].vnet
    {
      assert ws[n + 1] == Next(ws[n], steps[n]);
      VNetIsFixed(ws[n], steps[n]);
      if Safe(ws[n]) { StepIsSafeIff(ws[n], steps[n]); }
    }
  }

  /** In particular, a run is safe in which only ranges are deployed that their name still holds. */
  lemma {:induction false} TimelyDeploymentsAreSafe(ws: seq<World>, steps: seq<Step>)
    requires Run(ws, steps) && Safe(ws[0])
    requires forall i :: 0 <= i < |steps| && Deploys(ws[i], steps[i]) ==>
      Held(ws[i], ws[i].snapshot[steps[i].i].name, Range(ws[i].snapshot[steps[i].i]).value)
    ensures forall i :: 0 <= i < |ws| ==> Safe(ws[i])
  {
    hide Safe, Next, Held, Deploys, Range;
    for n := 0 to |steps|
      invariant forall i :: 0 <= i <= n ==> Safe(ws[i])
    {
      assert ws[n + 1] == Next(ws[n], steps[n]);
      StepIsSafeIff(ws[n], steps[n]);
      TimelyIsGuarded(ws[n], steps[n]);
    }
  }

  lemma TimelyIsGuarded(w: World, step: Step)
    requires Safe(w)
    requires Deploys(w, step) ==> Held(w, w.snapshot[step.i].name, Range(w.snapshot[step.i]).value)
    ensures Guarded(w, step)
  {
    hide Safe, Held;
    if Deploys(w, step) { HeldMayBeDeployed(w, w.snapshot[step.i].name, Range(w.snapshot[step.i]).value); }
    hide MayDeploy;
  }

  lemma SafeMeans(w: World)
    ensures Safe(w) <==> NoOverlap(w) && Pending(w)
  {
    hide NoOverlap, Pending;
  }

  lemma VNetIsFixed(w: World, step: Step)
    ensures Next(w, step).vnet == w.vnet
  {
    hide Range, Free, Taken, SpecBlocks, Lookup, RemoveFirst, RemoveLast, Format;
  }

  /** Having collected, the holder finds a range exactly when some /24 block of the network avoids everything it
      collected; so never in a network smaller than that. */
  lemma FindSucceedsIff(w: World, specFirst: bool)
    requires w.phase.SpecRead?
    ensures var c := Next(w, ReadVNet(specFirst));
      Next(c, Find).phase.Found? <==> exists n: Block :: Available(n, w.vnet, 24, c.phase.taken)
  {
    var c := Next(w, ReadVNet(specFirst));
    var taken := c.phase.taken;
    assert forall r :: r in taken ==> Contains(w.vnet, r.base);
    assert c.vnet == w.vnet;
    assert Next(c, Find).phase.Found? <==> Free(w.vnet, NODE_POOL_MASK, taken).Ok?;
    hide Next, Taken;
    FreeIsFirstFit(w.vnet, NODE_POOL_MASK, taken);
    hide Free, Size, Contains;
    if n: Block :| Available(n, w.vnet, NODE_POOL_MASK, taken) { FitsInNetwork(n, w.vnet, NODE_POOL_MASK, taken); }
    if Free(w.vnet, NODE_POOL_MASK, taken).Ok? {
      var r: Block := Free(w.vnet, NODE_POOL_MASK, taken).value;
      assert Available(r, w.vnet, NODE_POOL_MASK, taken);
    }
  }

  lemma FitsInNetwork(n: Net, parent: Net, bits: nat, taken: seq<Net>)
    requires parent.Valid() && AllValid(taken) && bits <= 32 && Available(n, parent, bits, taken)
    ensures parent.bits <= bits
  {
    if bits < parent.bits {
      assert Size(bits) == 2 * Size(bits + 1);
      SizeShrinks(bits + 1, parent.bits);
    }
  }

  // ---------------------------------------------------------------- one entry for each pool

  predicate AllCarryRanges(s: seq<SubnetSpec>) { forall i :: 0 <= i < |s| ==> s[i].cidrs != [] }

  predicate Named(s: seq<SubnetSpec>, name: string) { exists i :: 0 <= i < |s| && s[i].name == name }

  predicate Allocating(p: Phase) { p.Checked? || p.SpecRead? || p.Collected? || p.Found? }

  /** Every entry has a CIDR, no two have the same name, and none has that of the pool being allocated. */
  predicate OneToOne(w: World) {
    && AllCarryRanges(w.subnets) && UniqueNames(w.subnets)
    && (Allocating(w.phase) ==> !Named(w.subnets, w.phase.pool))
  }

  lemma RemoveKeepsOneToOne(w: World, i: nat)
    requires OneToOne(w)
    ensures OneToOne(w.(subnets := RemoveAt(w.subnets, i)))
  {
    var t := RemoveAt(w.subnets, i);
    assert forall j :: 0 <= j < |t| ==> t[j] == w.subnets[if i < |w.subnets| && j >= i then j + 1 else j];
  }

  lemma StepKeepsOneToOne(w: World, step: Step)
    requires OneToOne(w)
    ensures OneToOne(Next(w, step))
  {
    hide Range, Format, Taken, Free, SpecBlocks, Lookup, First, Last, RemoveAt;
    RemoveKeepsOneToOne(w, if step.DeletePool? then Last(w.subnets, step.pool) else 0);
    if step.Check? && w.phase.Locked? { NotAllocatedMeans(w.subnets, w.phase.pool); }
    if step.Release? && w.phase.Releasing? { RemoveKeepsOneToOne(w.(phase := Idle), First(w.subnets, w.phase.pool)); }
  }

  /** Main result on ownership: from a list whose entries all carry CIDRs under different names, each pool owns at
      most one entry in every reachable state, and so the removal on release and the removal on deletion, one
      by first and one by last match, do the same. */
  lemma {:induction false} EachPoolOwnsOneEntry(ws: seq<World>, steps: seq<Step>, name: string)
    requires Run(ws, steps) && OneToOne(ws[0])
    ensures forall i :: 0 <= i < |ws| ==>
        OneToOne(ws[i]) && RemoveFirst(ws[i].subnets, name) == RemoveLast(ws[i].subnets, name)
  {
    hide Next, RemoveFirst, RemoveLast;
    RemovalsAgreeIff(ws[0].subnets, name);
    for n := 0 to |steps|
      invariant forall i :: 0 <= i <= n ==>
          OneToOne(ws[i]) && RemoveFirst(ws[i].subnets, name) == RemoveLast(ws[i].subnets, name)
    {
      assert ws[n + 1] == Next(ws[n], steps[n]);
      StepKeepsOneToOne(ws[n], steps[n]);
      RemovalsAgreeIff(ws[n + 1].subnets, name);
    }
  }

  /** The first five steps of an allocation that nothing interrupts, and all six. */
  function Seek(w: World, pool: string, specFirst: bool): World {
    Next(Next(Next(Next(Next(w, Lock(pool)), Check), ReadSpec), ReadVNet(specFirst)), Find)
  }

  function Attempt(w: World, pool: string, specFirst: bool): World { Next(Seek(w, pool, specFirst), Persist) }

  /** What the uninterrupted allocation would collect. */
  function TakenNow(w: World, specFirst: bool): seq<Block>
    requires SpecBlocks(w.subnets).Some?
  {
    var blocks := SpecBlocks(w.subnets).value;
    Taken(w.vnet, if specFirst then blocks + Ranges(w.live) else Ranges(w.live) + blocks)
  }

  lemma SeekEffect(w: World, pool: string, specFirst: bool)
    requires w.phase.Idle?
    ensures Seek(w, pool, specFirst) ==
      if Lookup(w.subnets, pool) == NotAllocated && SpecBlocks(w.subnets).Some?
         && Free(w.vnet, NODE_POOL_MASK, TakenNow(w, specFirst)).Ok?
      then w.(phase := Found(pool, Free(w.vnet, NODE_POOL_MASK, TakenNow(w, specFirst)).value))
      else w
  {
    hide Range, Format, Taken, Free, SpecBlocks, Lookup, Ranges, Size;
  }

  /** An uninterrupted allocation appends one subnet, with the first free /24 block, or does nothing. */
  lemma AttemptEffect(w: World, pool: string, specFirst: bool)
    requires w.phase.Idle?
    ensures Attempt(w, pool, specFirst) ==
      if Lookup(w.subnets, pool) == NotAllocated && SpecBlocks(w.subnets).Some?
         && Free(w.vnet, NODE_POOL_MASK, TakenNow(w, specFirst)).Ok?
      then
        var r := Free(w.vnet, NODE_POOL_MASK, TakenNow(w, specFirst)).value;
        w.(subnets := w.subnets + [SubnetSpec(pool, [Format(r)], "")])
      else w
  {
    hide Next, Format, Free, SpecBlocks, Lookup, Seek, TakenNow;
    SeekEffect(w, pool, specFirst);
    PersistCases(Seek(w, pool, specFirst));
  }

  lemma PersistCases(w: World)
    ensures w.phase.Found? ==>
      Next(w, Persist) == w.(subnets := w.subnets + [SubnetSpec(w.phase.pool, [Format(w.phase.range)], "")],
          phase := Idle)
    ensures !w.phase.Found? ==> Next(w, Persist) == w
  {
    hide Format;
  }

  // ---------------------------------------------------------------- the other steps

  /** The list without its entry i. */
  predicate WithoutEntry(s: seq<SubnetSpec>, i: nat, t: seq<SubnetSpec>) {
    && i < |s| && |t| == |s| - 1
    && (forall j :: 0 <= j < i ==> t[j] == s[j]) && forall j :: i <= j < |t| ==> t[j] == s[j + 1]
  }

  lemma RemovedEntry(s: seq<SubnetSpec>, i: nat)
    requires i < |s|
    ensures WithoutEntry(s, i, RemoveAt(s, i))
  {}

  /** A release that nothing interrupts. */
  function Released(w: World, pool: string): World { Next(Next(w, LockToRelease(pool)), Release) }

  lemma ReleasedCases(w: World, pool: string)
    requires w.phase.Idle?
    ensures Released(w, pool) ==
      if Lookup(w.subnets, pool).Allocated? then w.(subnets := RemoveFirst(w.subnets, pool)) else w
  {
    hide Lookup, RemoveFirst;
  }

  /** From s to t exactly the first entry of the name goes. */
  predicate FirstGone(s: seq<SubnetSpec>, name: string, t: seq<SubnetSpec>) {
    exists i :: 0 <= i < |s| && s[i].name == name && name !in Names(s[..i]) && WithoutEntry(s, i, t)
  }

  /** From s to t exactly the last entry of the name goes. */
  predicate LastGone(s: seq<SubnetSpec>, name: string, t: seq<SubnetSpec>) {
    exists i :: 0 <= i < |s| && s[i].name == name && name !in Names(s[i + 1..]) && WithoutEntry(s, i, t)
  }

  function Names(s: seq<SubnetSpec>): (r: seq<string>)
    ensures |r| == |s| && forall i :: 0 <= i < |s| ==> r[i] == s[i].name
  {
    seq(|s|, i requires 0 <= i < |s| => s[i].name)
  }

  lemma FirstIsGone(s: seq<SubnetSpec>, name: string)
    requires name in Names(s)
    ensures FirstGone(s, name, RemoveFirst(s, name))
    ensures UniqueNames(s) ==> name !in Names(RemoveFirst(s, name))
  {
    var i := First(s, name);
    RemovedEntry(s, i);
    hide First, RemoveAt;
    assert s[i].name == name && name !in Names(s[..i]) && WithoutEntry(s, i, RemoveFirst(s, name));
  }

  lemma LastIsGone(s: seq<SubnetSpec>, name: string)
    requires name in Names(s)
    ensures LastGone(s, name, RemoveLast(s, name))
  {
    var i := Last(s, name);
    RemovedEntry(s, i);
    hide Last, RemoveAt;
    assert s[i].name == name && name !in Names(s[i + 1..]) && WithoutEntry(s, i, RemoveLast(s, name));
  }

  lemma OwnerIsNamed(s: seq<SubnetSpec>, name: string)
    requires OwnsRange(s, name)
    ensures name in Names(s)
  {
    hide Range;
    var k: nat :| Decides(s, name, k) && Range(s[k]).Some?;
    assert Names(s)[k] == name;
  }

  /** What a release does to any list: when the pool owns a range, exactly its first entry goes and all others stay in
      order, otherwise nothing changes; with unique names no entry of that name is left. The phase is Idle again, and
      the subnets in Azure are as they were. */
  lemma ReleaseEffect(w: World, pool: string)
    requires w.phase.Idle?
    ensures var w' := Released(w, pool);
      && w' == w.(subnets := w'.subnets)
      && (if OwnsRange(w.subnets, pool) then FirstGone(w.subnets, pool, w'.subnets) else w' == w)
      && (OwnsRange(w.subnets, pool) && UniqueNames(w.subnets) ==> pool !in Names(w'.subnets))
  {
    ReleasedCases(w, pool);
    AllocatedIff(w.subnets, pool);
    if OwnsRange(w.subnets, pool) {
      OwnerIsNamed(w.subnets, pool);
      FirstIsGone(w.subnets, pool);
    }
    hide Released, Lookup, OwnsRange, RemoveFirst, FirstGone, UniqueNames;
  }

  /** The handler is this release: with good replies it leaves the same list. */
  lemma DeletionFollowsProtocol(w: World, pool: string)
    requires w.phase.Idle?
    ensures Released(w, pool).subnets == AfterRelease(w.subnets, pool)
  {
    ReleasedCases(w, pool);
    hide Released, Lookup, RemoveFirst;
  }

  /** Deleting a pool removes exactly the last entry of its name, and nothing when there is none; whoever holds the lock
      goes on. */
  lemma DeletePoolEffect(w: World, pool: string)
    ensures var w' := Next(w, DeletePool(pool));
      && w' == w.(subnets := w'.subnets)
      && if pool in Names(w.subnets) then LastGone(w.subnets, pool, w'.subnets) else w' == w
  {
    if pool in Names(w.subnets) {
      LastIsGone(w.subnets, pool);
    } else {
      assert forall i :: 0 <= i < |w.subnets| ==> Names(w.subnets)[i] != pool;
    }
    hide LastGone;
  }

  /** Deleting a subnet in Azure removes exactly that one. */
  lemma DeleteEffect(w: World, k: nat)
    ensures var w' := Next(w, Delete(k));
      && w' == w.(live := w'.live)
      && (if k < |w.live|
          then && |w'.live| == |w.live| - 1 && (forall j :: 0 <= j < k ==> w'.live[j] == w.live[j])
               && forall j :: k <= j < |w'.live| ==> w'.live[j] == w.live[j + 1]
          else w' == w)
  {}

  /** Nobody gets the lock while another one holds it; an abort gives it back and changes nothing else, and readings of
      the list are exact. */
  lemma LockSteps(w: World, pool: string)
    ensures !w.phase.Idle? ==> Next(w, Lock(pool)) == w && Next(w, LockToRelease(pool)) == w
    ensures w.phase.Idle? ==> Next(w, Lock(pool)) != w && Next(w, LockToRelease(pool)) != w
    ensures Next(w, Abort).phase.Idle? && Next(w, Abort).(phase := w.phase) == w
    ensures Next(w, ReadList).snapshot == w.subnets && Next(w, ReadList).(snapshot := w.snapshot) == w
  {}

  // ---------------------------------------------------------------- an unguarded deployment

  /** The steps that lead to an overlap: the subnet handler reads the list, the pool is deleted, another one gets its
      range, and then the handler deploys what it read; or it deploys before the range is persisted. */
  function OutdatedSteps(specFirst: bool, early: bool): seq<Step> {
    [ReadList, DeletePool("old"), Lock("new"), Check, ReadSpec, ReadVNet(specFirst), Find]
    + if early then [Deploy(0), Persist] else [Persist, Deploy(0)]
  }

  /** In any network with room, a deployment from an outdated list ends in an overlap, from a safe world with one
      subnet and by steps that all but one are harmless. */
  lemma OutdatedDeploymentOverlaps(vnet: Block, specFirst: bool, early: bool) returns (ws: seq<World>)
    requires vnet.bits <= NODE_POOL_MASK
    ensures Run(ws, OutdatedSteps(specFirst, early)) && |ws| == 10
    ensures Safe(ws[0]) && OneToOne(ws[0])
    ensures ws[0].vnet == vnet && ws[0].phase.Idle? && ws[0].snapshot == [] && ws[0].live == []
    ensures Safe(ws[7]) && !Guarded(ws[if early then 7 else 8], Deploy(0))
    ensures (early ==> NoOverlap(ws[8])) && !NoOverlap(ws[9])
  {
    hide Size, Inside, Free, Format, Range;
    FirstBlockIsFree(vnet, NODE_POOL_MASK);
    var r: Block := Net(vnet.base, NODE_POOL_MASK);
    var s := SubnetSpec("old", [Format(r)], "");
    AddedCarriesRange(s, r);
    var w0 := World(vnet, [s], [], [], Idle);
    OneHolder(w0, s, r);
    assert OneToOne(w0);
    hide OneToOne, Format, Range, Size, Inside, Safe, Guarded, NoOverlap, OutdatedSteps, Free, Next, Seek;
    ws := RunOf(w0, OutdatedSteps(specFirst, early));
    UpToFound(ws, specFirst, early, s, r);
    SeekIsRun(ws, OutdatedSteps(specFirst, early), specFirst, early);
    NamesDiffer();
    if early { EarlyEnding(ws[7], s, "new", r); } else { LateEnding(ws[7], s, "new", r); }
  }

  lemma UpToFound(ws: seq<World>, specFirst: bool, early: bool, s: SubnetSpec, r: Block)
    requires Run(ws, OutdatedSteps(specFirst, early)) && s.name == "old"
        && Free(ws[0].vnet, NODE_POOL_MASK, []) == Ok(r)
    requires ws[0].subnets == [s] && ws[0].live == [] && ws[0].phase.Idle?
    ensures |ws| == 10 && ws[7] == ws[0].(subnets := [], snapshot := [s], phase := Found("new", r))
  {
    hide Format, Range, Size, Inside, Free, Next;
    SeekIsRun(ws, OutdatedSteps(specFirst, early), specFirst, early);
    ReadAndDelete(ws, OutdatedSteps(specFirst, early), s);
    hide OutdatedSteps, Seek;
    NothingToTake(ws[2], "new", specFirst);
    SeekEffect(ws[2], "new", specFirst);
    hide TakenNow, Lookup, SpecBlocks;
  }

  lemma NamesDiffer()
    ensures "new" != "old"
  {
    assert "new"[0] != "old"[0];
  }

  lemma {:induction false} RunOf(w: World, steps: seq<Step>) returns (ws: seq<World>)
    ensures Run(ws, steps) && ws[0] == w
  {
    hide Next;
    ws := [w];
    for n := 0 to |steps|
      invariant |ws| == n + 1 && ws[0] == w && forall i :: 0 <= i < n ==> ws[i + 1] == Next(ws[i], steps[i])
    {
      ws := ws + [Next(ws[n], steps[n])];
    }
  }

  lemma ReadAndDelete(ws: seq<World>, steps: seq<Step>, s: SubnetSpec)
    requires Run(ws, steps) && |steps| >= 2 && steps[0] == ReadList && steps[1] == DeletePool(s.name)
        && ws[0].subnets == [s]
    ensures ws[2] == ws[0].(subnets := [], snapshot := [s])
  {
    assert ws[0 + 1] == Next(ws[0], steps[0]) && ws[1 + 1] == Next(ws[1], steps[1]);
    assert Last([s], s.name) == 0 && [s][..0] + [s][1..] == [];
  }

  lemma SeekIsRun(ws: seq<World>, steps: seq<Step>, specFirst: bool, early: bool)
    requires Run(ws, steps) && steps == OutdatedSteps(specFirst, early)
    ensures |ws| == 10 && ws[7] == Seek(ws[2], "new", specFirst)
    ensures early ==> ws[8] == Next(ws[7], Deploy(0)) && ws[9] == Next(ws[8], Persist)
    ensures !early ==> ws[8] == Next(ws[7], Persist) && ws[9] == Next(ws[8], Deploy(0))
  {
    hide Next;
    assert ws[2 + 1] == Next(ws[2], steps[2]) && ws[3 + 1] == Next(ws[3], steps[3])
        && ws[4 + 1] == Next(ws[4], steps[4]);
    assert ws[5 + 1] == Next(ws[5], steps[5]) && ws[6 + 1] == Next(ws[6], steps[6]);
    assert ws[7 + 1] == Next(ws[7], steps[7]) && ws[8 + 1] == Next(ws[8], steps[8]);
  }

  lemma NothingToTake(w: World, pool: string, specFirst: bool)
    requires w.subnets == [] && w.live == []
    ensures Lookup(w.subnets, pool) == NotAllocated && SpecBlocks(w.subnets).Some? && TakenNow(w, specFirst) == []
  {
    assert SpecBlocks(w.subnets).value == [];
  }

  lemma OneHolder(w: World, s: SubnetSpec, r: Block)
    requires w.subnets == [s] && w.live == [] && w.phase.Idle? && Range(s) == Some(r) && Inside(r, w.vnet)
    ensures Safe(w)
  {
    hide Range, Size, Inside;
  }

  /** Two names that hold the same range overlap. */
  lemma Clash(w: World, a: string, b: string, r: Block)
    requires Held(w, a, r) && Held(w, b, r) && a != b
    ensures !NoOverlap(w)
  {
    SelfOverlap(r);
    hide Held, Disjoint;
  }

  lemma SelfOverlap(r: Block)
    ensures !Disjoint(r, r)
  {}

  lemma NothingHeld(w: World)
    requires w.subnets == [] && w.live == [] && w.phase.Found? && Inside(w.phase.range, w.vnet)
    ensures Safe(w)
  {
    hide Range, Size, Inside;
  }

  lemma DeployFirst(w: World, s: SubnetSpec, r: Block)
    requires w.snapshot == [s] && Range(s) == Some(r)
    ensures Deploys(w, Deploy(0)) && Next(w, Deploy(0)) == DeployTo(w, s.name, r)
    ensures Guarded(w, Deploy(0)) <==> MayDeploy(w, s.name, r)
  {
    hide Range, DeployTo, MayDeploy;
  }

  lemma LateEnding(w: World, s: SubnetSpec, pool: string, r: Block)
    requires w.subnets == [] && w.snapshot == [s] && w.live == [] && w.phase == Found(pool, r) && Inside(r, w.vnet)
    requires s.name != pool && Range(s) == Some(r)
    ensures var w8 := Next(w, Persist); var w9 := Next(w8, Deploy(0));
      Safe(w) && !Guarded(w8, Deploy(0)) && !NoOverlap(w9)
  {
    NothingHeld(w);
    var w8 := Next(w, Persist);
    hide Next, Range, Format, Held, HeldInSpec, DeployTo, Guarded, Safe, NoOverlap;
    PersistAdds(w, pool, r);
    PersistCases(w);
    DeployFirst(w8, s, r);
    DeployHolds(w8, s.name, r, pool, r);
    DeployHolds(w8, s.name, r, s.name, r);
    hide DeployTo, Held, Guarded, Safe, NoOverlap;
    Clash(Next(w8, Deploy(0)), pool, s.name, r);
    SelfOverlap(r);
    hide Disjoint, Coming;
  }

  lemma EarlyEnding(w: World, s: SubnetSpec, pool: string, r: Block)
    requires w.subnets == [] && w.snapshot == [s] && w.live == [] && w.phase == Found(pool, r) && Inside(r, w.vnet)
    requires s.name != pool && Range(s) == Some(r)
    ensures var w8 := Next(w, Deploy(0)); var w9 := Next(w8, Persist);
      Safe(w) && !Guarded(w, Deploy(0)) && NoOverlap(w8) && !NoOverlap(w9)
  {
    NothingHeld(w);
    DeployFirst(w, s, r);
    var w8 := DeployTo(w, s.name, r);
    DeployHolds(w, s.name, r, s.name, r);
    hide Next, Range;
    PersistAdds(w8, pool, r);
    PersistAdds(w8, s.name, r);
    OnlyInAzure(w8, s.name, r);
    hide Held, Guarded, Safe, NoOverlap;
    Clash(Next(w8, Persist), pool, s.name, r);
    SelfOverlap(r);
    hide Disjoint;
  }

  lemma OnlyInAzure(w: World, name: string, r: Block)
    requires w.subnets == [] && w.live == Without([], name) + [Live(name, r)] && Inside(r, w.vnet)
    ensures NoOverlap(w)
  {
    assert w.live == [Live(name, r)];
    hide Range, Size, Inside;
  }

  /** The pool has an entry without a CIDR. */
  predicate Unsettled(s: seq<SubnetSpec>, pool: string) {
    exists i :: 0 <= i < |s| && s[i].name == pool && s[i].cidrs == []
  }

  lemma AppendDoublesIff(s: seq<SubnetSpec>, x: SubnetSpec)
    requires UniqueNames(s)
    ensures Lookup(s, x.name) == NotAllocated && !UniqueNames(s + [x]) <==> Unsettled(s, x.name)
  {
    NotAllocatedMeans(s, x.name);
    hide Lookup;
    var t := s + [x];
    assert t[|s|] == x;
    if i :| 0 <= i < |s| && s[i].name == x.name { assert t[i].name == t[|s|].name; }
  }

  /** Without CIDRs this fails: an allocation gives its pool a second entry exactly when the list can be read, a block
      is free, and the pool has an entry without a CIDR. */
  lemma EntryIsDoubledIff(w: World, pool: string, specFirst: bool)
    requires w.phase.Idle? && UniqueNames(w.subnets)
    ensures !UniqueNames(Attempt(w, pool, specFirst).subnets) <==>
        && Unsettled(w.subnets, pool) && SpecBlocks(w.subnets).Some?
        && Free(w.vnet, NODE_POOL_MASK, TakenNow(w, specFirst)).Ok?
  {
    hide Attempt, Lookup, SpecBlocks, Free, TakenNow, Format, Unsettled, UniqueNames;
    AttemptEffect(w, pool, specFirst);
    if SpecBlocks(w.subnets).Some? && Free(w.vnet, NODE_POOL_MASK, TakenNow(w, specFirst)).Ok? {
      var r := Free(w.vnet, NODE_POOL_MASK, TakenNow(w, specFirst)).value;
      AppendDoublesIff(w.subnets, SubnetSpec(pool, [Format(r)], ""));
    }
  }

  /** For example, a release then removes the first, empty entry and leaves the range held, where a deletion would
      remove the range. */
  lemma EntryWithoutRangeIsDoubled(vnet: Block, pool: string, specFirst: bool)
    requires vnet.bits <= NODE_POOL_MASK
    ensures var empty := SubnetSpec(pool, [], "");
      var w := Attempt(World(vnet, [empty], [], [], Idle), pool, specFirst);
      && |w.subnets| == 2 && w.subnets[0] == empty && w.subnets[1].name == pool && Range(w.subnets[1]).Some?
      && RemoveFirst(w.subnets, pool) == [w.subnets[1]] && RemoveLast(w.subnets, pool) == [empty]
  {
    var empty := SubnetSpec(pool, [], "");
    var w0 := World(vnet, [empty], [], [], Idle);
    NothingTaken(w0, empty, specFirst);
    var range := Net(vnet.base, NODE_POOL_MASK);
    FirstBlockIsFree(vnet, NODE_POOL_MASK);
    AttemptEffect(w0, pool, specFirst);
    var added := SubnetSpec(pool, [Format(range)], "");
    AddedCarriesRange(added, range);
    hide Free, SpecBlocks, Lookup, Size, Format, Range, Attempt, TakenNow, First, Last, RemoveAt;
    TwoOfOneName(empty, added);
  }

  lemma TwoOfOneName(a: SubnetSpec, b: SubnetSpec)
    requires a.name == b.name
    ensures var s := [a] + [b]; RemoveFirst(s, a.name) == [b] && RemoveLast(s, a.name) == [a]
  {
    var s := [a] + [b];
    assert First(s, a.name) == 0 && Last(s, a.name) == 1;
    assert s[..0] + s[1..] == [b] && s[..1] + s[2..] == [a];
  }

  lemma NothingTaken(w: World, empty: SubnetSpec, specFirst: bool)
    requires w.subnets == [empty] && empty.cidrs == [] && w.live == []
    ensures Lookup(w.subnets, empty.name) == NotAllocated && SpecBlocks(w.subnets).Some? && TakenNow(w, specFirst) == []
  {
    var s := w.subnets;
    assert s[1..] == [] && s[..0] == [];
    assert Blocks(s[..0]) == Some([]) && Blocks(s) == Some([]);
    var blocks := SpecBlocks(w.subnets).value;
    assert blocks == [None];
    var all := if specFirst then blocks + Ranges(w.live) else Ranges(w.live) + blocks;
    assert all == [None];
    var taken := TakenNow(w, specFirst);
    assert taken == Canonicalize(w.vnet, all);
    assert all[..0] == [];
  }

  lemma AddedCarriesRange(s: SubnetSpec, r: Block)
    requires s.cidrs == [Format(r)]
    ensures Range(s) == Some(r)
  {
    CidrRoundTrip(r);
  }

  // ---------------------------------------------------------------- the handler

  /** pkg/locker/mutex_locker.go: whoever calls Lock while somebody holds it waits, and calls again. */
  class MutexLocker {
    var held: bool

    constructor ()
      ensures !held
    {
      held := false;
    }

    method Lock() returns (acquired: bool)
      modifies this
      ensures held && acquired == !old(held)
    {
      acquired := !held;
      held := true;
    }

    method Unlock()
      requires held
      modifies this
      ensures !held
    {
      held := false;
    }
  }

  /** The replies during one allocation: reading the custom resources in its four parts, the prefixes of the subnets
      in Azure, None when they cannot be listed, and saving. */
  datatype Env = Env(checkRead: bool, collectRead: bool, prefixes: Option<seq<string>>, specFirst: bool,
                     parentRead: bool,
                     persistRead: bool, writable: bool)

  /** The range that a reading of the lists gives the pool, None when it gets none. */
  function Chosen(subnets: seq<SubnetSpec>, vnetCidrs: seq<string>, pool: string, env: Env): (r: Option<Net>)
    ensures r.Some? ==> r.value.Valid()
  {
    if !env.checkRead || Lookup(subnets, pool) != NotAllocated || !env.collectRead || vnetCidrs == []
        || !env.parentRead then None
    else if Parse(vnetCidrs[0]).None? || FromSpec(subnets).None? || env.prefixes.None?
        || FromVNet(env.prefixes.value).None? then None
    else
      var (spec, azure) := (FromSpec(subnets).value, FromVNet(env.prefixes.value).value);
      var vnet := Parse(vnetCidrs[0]).value;
      var taken := Canonicalize(vnet, if env.specFirst then spec + azure else azure + spec);
      CanonicalAreValid(vnet, subnets, env.prefixes.value, env.specFirst);
      var r := Free(vnet, NODE_POOL_MASK, taken);
      FreeIsFirstFit(vnet, NODE_POOL_MASK, taken);
      if r.Ok? then Some(r.value) else None
  }

  /** An allocation fails unless the pool has a range, the cluster no network, or a range was chosen and saved. */
  predicate Fails(subnets: seq<SubnetSpec>, vnetCidrs: seq<string>, pool: string, env: Env) {
    && !(env.checkRead && Lookup(subnets, pool).Allocated?)
    && !(env.checkRead && Lookup(subnets, pool) == NotAllocated && env.collectRead && vnetCidrs == [])
    && !(Chosen(subnets, vnetCidrs, pool, env).Some? && env.persistRead && env.writable)
  }

  lemma CanonicalAreValid(vnet: Net, subnets: seq<SubnetSpec>, prefixes: seq<string>, specFirst: bool)
    requires vnet.Valid() && FromSpec(subnets).Some? && FromVNet(prefixes).Some?
    ensures var (spec, azure) := (FromSpec(subnets).value, FromVNet(prefixes).value);
      AllValid(Canonicalize(vnet, if specFirst then spec + azure else azure + spec))
  {
    hide Canonicalize, FromSpec, FromVNet, Parse, Size;
    var spec, azure := FromSpec(subnets).value, FromVNet(prefixes).value;
    var r := Canonicalize(vnet, if specFirst then spec + azure else azure + spec);
    forall i | 0 <= i < |r| ensures r[i].Valid() {
      assert r[i] in r;
      assert Some(r[i]) in spec || Some(r[i]) in azure;
    }
  }

  /** The list after a release. */
  function AfterRelease(s: seq<SubnetSpec>, pool: string): seq<SubnetSpec> {
    if Lookup(s, pool).Allocated? then RemoveFirst(s, pool) else s
  }

  /** What the handler hands out, for all replies: only when everything was read, the pool owns nothing, and then a /24
      block of the network that avoids every readable range in the list and in Azure that starts in the network. */
  lemma ChosenAvoids(subnets: seq<SubnetSpec>, vnetCidrs: seq<string>, pool: string, env: Env)
    requires Chosen(subnets, vnetCidrs, pool, env).Some?
    ensures env.checkRead && env.collectRead && env.parentRead && env.prefixes.Some? && vnetCidrs != []
    ensures forall i :: 0 <= i < |subnets| && subnets[i].name == pool ==> subnets[i].cidrs == []
    ensures Parse(vnetCidrs[0]).Some?
    ensures var r, vnet := Chosen(subnets, vnetCidrs, pool, env).value, Parse(vnetCidrs[0]).value;
      && r.Valid() && r.bits == 24 && Inside(r, vnet)
      && (forall i :: 0 <= i < |subnets| && Range(subnets[i]).Some? && Contains(vnet, Range(subnets[i]).value.base) ==>
          Disjoint(r, Range(subnets[i]).value))
      && forall k :: 0 <= k < |env.prefixes.value| ==>
           var n := Parse(env.prefixes.value[k]);
           n.Some? && (Contains(vnet, n.value.base) ==> Disjoint(r, n.value))
  {
    NotAllocatedMeans(subnets, pool);
    hide Range, Parse, Canonicalize, Free, Size, Contains, Inside, Disjoint;
    var vnet := Parse(vnetCidrs[0]).value;
    var spec, azure := FromSpec(subnets).value, FromVNet(env.prefixes.value).value;
    var all := if env.specFirst then spec + azure else azure + spec;
    CanonicalAreValid(vnet, subnets, env.prefixes.value, env.specFirst);
    var taken := Canonicalize(vnet, all);
    FreeIsFirstFit(vnet, NODE_POOL_MASK, taken);
    var r := Chosen(subnets, vnetCidrs, pool, env).value;
    assert Available(r, vnet, NODE_POOL_MASK, taken);
    forall i | 0 <= i < |subnets| && Range(subnets[i]).Some? && Contains(vnet, Range(subnets[i]).value.base)
      ensures Disjoint(r, Range(subnets[i]).value)
    {
      BlocksCover(subnets, i);
      assert Range(subnets[i]) in all;
      TakenIsAvoided(r, taken, Range(subnets[i]).value);
    }
    forall k | 0 <= k < |azure|
      ensures azure[k] == Parse(env.prefixes.value[k]) && azure[k].Some?
      ensures Contains(vnet, azure[k].value.base) ==> Disjoint(r, azure[k].value)
    {
      FromVNetReads(env.prefixes.value, k);
      assert azure[k] in all;
      if Contains(vnet, azure[k].value.base) { TakenIsAvoided(r, taken, azure[k].value); }
    }
    hide FromSpec, FromVNet, Lookup;
  }

  lemma TakenIsAvoided(r: Net, taken: seq<Net>, n: Net)
    requires r.bits <= 32 && AllValid(taken) && DisjointFromAll(r, taken) && n in taken
    ensures Disjoint(r, n)
  {
    hide Size, Disjoint;
  }

  class Handler {
    const cluster: AzureCluster
    const locker: MutexLocker

    constructor (cluster: AzureCluster, locker: MutexLocker)
      ensures this.cluster == cluster && this.locker == locker
    {
      this.cluster, this.locker := cluster, locker;
    }

    /** Allocates under the lock, and releases the lock whatever happens; waits while another one holds it. */
    method EnsureCreated(pool: string, env: Env) returns (waiting: bool, failed: bool)
      modifies locker, cluster`subnets
      ensures waiting == old(locker.held) && locker.held == old(locker.held)
      ensures var r := Chosen(old(cluster.subnets), cluster.vnetCidrs, pool, env);
        cluster.subnets == if !waiting && r.Some? && env.persistRead && env.writable
                           then old(cluster.subnets) + [SubnetSpec(pool, [Format(r.value)], "")]
                           else old(cluster.subnets)
      ensures failed <==> !waiting && Fails(old(cluster.subnets), cluster.vnetCidrs, pool, env)
    {
      var acquired := locker.Lock();
      if !acquired { return true, false; }
      waiting := false;
      failed := AllocateLocked(pool, env);
      locker.Unlock();
    }

    method AllocateLocked(pool: string, env: Env) returns (failed: bool)
      requires locker.held
      modifies cluster`subnets
      ensures var r := Chosen(old(cluster.subnets), cluster.vnetCidrs, pool, env);
        cluster.subnets == if r.Some? && env.persistRead && env.writable
                           then old(cluster.subnets) + [SubnetSpec(pool, [Format(r.value)], "")]
                           else old(cluster.subnets)
      ensures failed <==> Fails(old(cluster.subnets), cluster.vnetCidrs, pool, env)
    {
      hide Lookup, FromSpec, FromVNet, Parse, Format, Canonicalize, Free, Size;
      var subnet, unread := cluster.Check(pool, env.checkRead);
      if unread { return true; }
      if subnet.Some? { return false; }
      if !env.collectRead { return true; }
      if cluster.vnetCidrs == [] { return false; }
      var vnet := Parse(cluster.vnetCidrs[0]);
      if vnet.None? { return true; }
      var spec, specFailed := cluster.CollectFromSpec();
      if specFailed || env.prefixes.None? { return true; }
      var azure, azureFailed := CollectFromVNet(env.prefixes.value);
      if azureFailed { return true; }
      CanonicalAreValid(vnet.value, cluster.subnets, env.prefixes.value, env.specFirst);
      var taken := Canonicalize(vnet.value, if env.specFirst then spec + azure else azure + spec);
      if !env.parentRead { return true; }
      var free := Free(vnet.value, NODE_POOL_MASK, taken);
      if !free.Ok? { return true; }
      failed := cluster.Persist(free.value, pool, env.persistRead, env.writable);
    }

    /** Releases under the lock what Check finds; waits while another one holds it. */
    method EnsureDeleted(pool: string, checkRead: bool, releaseRead: bool, save: Save)
      returns (waiting: bool, failed: bool)
      modifies locker, cluster`subnets
      ensures waiting == old(locker.held) && locker.held == old(locker.held)
      ensures cluster.subnets ==
        if !waiting && checkRead && releaseRead && save.Saved?
        then AfterRelease(old(cluster.subnets), pool) else old(cluster.subnets)
      ensures failed <==>
        !waiting && (!checkRead || Lookup(old(cluster.subnets), pool) == Malformed
                     || (Lookup(old(cluster.subnets), pool).Allocated? && (!releaseRead || save.SaveFailed?)))
    {
      hide Lookup, First;
      var acquired := locker.Lock();
      if !acquired { return true, false; }
      waiting := false;
      var subnet, unread := cluster.Check(pool, checkRead);
      failed := unread;
      if !unread && subnet.Some? {
        failed := cluster.Release(pool, releaseRead, save);
      }
      locker.Unlock();
    }
  }

  function Prefixes(live: seq<Live>): (r: seq<string>)
    ensures |r| == |live| && forall k :: 0 <= k < |live| ==> r[k] == Format(live[k].range)
  {
    if live == [] then [] else Prefixes(live[..|live| - 1]) + [Format(live[|live| - 1].range)]
  }

  predicate Good(env: Env) { env.checkRead && env.collectRead && env.parentRead && env.persistRead && env.writable }

  /** The handler is the protocol run without interruption: with good replies and the true list of Azure, it chooses
      what the six steps choose. */
  lemma HandlerFollowsProtocol(w: World, pool: string, env: Env)
    requires w.phase.Idle? && Good(env) && env.prefixes == Some(Prefixes(w.live))
    ensures var r := Chosen(w.subnets, [Format(w.vnet)], pool, env);
      Attempt(w, pool, env.specFirst).subnets ==
        if r.Some? then w.subnets + [SubnetSpec(pool, [Format(r.value)], "")] else w.subnets
  {
    AttemptEffect(w, pool, env.specFirst);
    CidrRoundTrip(w.vnet);
    AzureListIsRead(w.live);
    hide Lookup, FromSpec, FromVNet, Parse, Format, Canonicalize, Free, Size, Attempt;
  }

  lemma {:induction false} AzureListIsRead(live: seq<Live>)
    ensures FromVNet(Prefixes(live)) == Some(Ranges(live))
  {
    if live != [] {
      var n := |live| - 1;
      AzureListIsRead(live[..n]);
      CidrRoundTrip(live[n].range);
      hide Parse, Format;
      assert Prefixes(live)[..n] == Prefixes(live[..n]);
    }
  }
}
