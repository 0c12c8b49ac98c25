/**
 Which module serves an ethtool operation. When a net device is created, the driver climbs from its
 PHY to the root of the module tree and notes, for each operation, the first module that implements
 it. The notes outlive the net device.
 */
module EthtoolDispatch {

  datatype Op =
    | GetSettings | SetSettings | GetDrvinfo | GetRegsLen | GetRegs | GetWol | SetWol | GetMsglevel
    | SetMsglevel | NwayReset | GetLink | GetEepromLen | GetEeprom | SetEeprom | GetCoalesce
    | SetCoalesce | GetRingparam | SetRingparam | GetPauseparam | SetPauseparam | SelfTest | Begin
    | Complete | GetPrivFlags | SetPrivFlags | GetRxnfc | SetRxnfc | FlashDevice

  // In the order of the source.
  const OPS: seq<Op> := OPS1 + OPS2 + OPS3 + OPS4
  const OPS1: seq<Op> := [GetSettings, SetSettings, GetDrvinfo, GetRegsLen, GetRegs, GetWol, SetWol]
  const OPS2: seq<Op> := [GetMsglevel, SetMsglevel, NwayReset, GetLink, GetEepromLen, GetEeprom, SetEeprom]
  const OPS3: seq<Op> := [GetCoalesce, SetCoalesce, GetRingparam, SetRingparam, GetPauseparam, SetPauseparam, SelfTest]
  const OPS4: seq<Op> := [Begin, Complete, GetPrivFlags, SetPrivFlags, GetRxnfc, SetRxnfc, FlashDevice]

  datatype Module = Module(name: string, ops: set<Op>, parent: Parent)
  datatype Parent = Root | Under(up: Module)

  datatype Owner = Nobody | By(m: Module)

  /** The modules from here to the root. */
  function Chain(p: Parent): seq<Module> {
    match p
    case Root => []
    case Under(m) => [m] + Chain(m.parent)
  }

  /** The first module of the chain that implements the operation. */
  function Nearest(chain: seq<Module>, op: Op): Owner {
    if chain == [] then Nobody
    else if op in chain[0].ops then By(chain[0])
    else Nearest(chain[1..], op)
  }

  predicate Implements(chain: seq<Module>, op: Op) {
    exists m :: m in chain && op in m.ops
  }

  /** Module i implements the operation and none nearer to the leaf does. */
  predicate FirstAt(chain: seq<Module>, op: Op, i: nat) {
    i < |chain| && op in chain[i].ops && forall j :: 0 <= j < i ==> op !in chain[j].ops
  }

  // How far from the leaf that module is.
  function Distance(chain: seq<Module>, op: Op): nat {
    if chain == [] || op in chain[0].ops then 0 else 1 + Distance(chain[1..], op)
  }

  lemma {:induction false} ImplementsRest(chain: seq<Module>, op: Op)
    requires chain != []
    ensures Implements(chain, op) <==> op in chain[0].ops || Implements(chain[1..], op)
  {
    assert chain == [chain[0]] + chain[1..];
  }

  lemma {:induction false} NearestExists(chain: seq<Module>, op: Op)
    ensures Nearest(chain, op).By? <==> Implements(chain, op)
  {
    if chain == [] {
    } else {
      ImplementsRest(chain, op);
      NearestExists(chain[1..], op);
    }
  }

  lemma {:induction false} NearestIsFirst(chain: seq<Module>, op: Op)
    requires Implements(chain, op)
    ensures FirstAt(chain, op, Distance(chain, op))
    ensures Nearest(chain, op) == By(chain[Distance(chain, op)])
  {
    ImplementsRest(chain, op);
    if op !in chain[0].ops {
      var rest := chain[1..];
      NearestIsFirst(rest, op);
      assert forall j :: 1 <= j < |chain| ==> chain[j] == rest[j - 1];
    }
  }

  lemma {:induction false} ImplementsConcat(a: seq<Module>, b: seq<Module>, op: Op)
    ensures Implements(a + b, op) <==> Implements(a, op) || Implements(b, op)
  {
    assert forall m :: m in a + b <==> m in a || m in b;
  }

  lemma {:induction false} NearestConcat(a: seq<Module>, b: seq<Module>, op: Op)
    ensures Nearest(a + b, op) == if Nearest(a, op).By? then Nearest(a, op) else Nearest(b, op)
  {
    if a == [] {
      assert a + b == b;
    } else {
      assert (a + b)[1..] == a[1..] + b;
      NearestConcat(a[1..], b, op);
    }
  }

  // ---- a device created again and again -----------------------------------------------------

  /** The first of the trees, climbed from these leaves, that implements the operation, or their number. */
  function FirstTree(leaves: seq<Parent>, op: Op): (i: nat)
    ensures i <= |leaves|
    ensures i < |leaves| ==> Implements(Chain(leaves[i]), op)
    ensures forall j :: 0 <= j < i ==> !Implements(Chain(leaves[j]), op)
  {
    if leaves == [] || Implements(Chain(leaves[0]), op) then 0 else 1 + FirstTree(leaves[1..], op)
  }

  /** The module that serves the operation after these creations. */
  function OwnerAfter(leaves: seq<Parent>, op: Op): Owner {
    var i := FirstTree(leaves, op);
    if i < |leaves| then Nearest(Chain(leaves[i]), op) else Nobody
  }

  /** The operations that the last of these creations hands to the kernel. */
  function KernelOps(leaves: seq<Parent>): set<Op>
    requires leaves != []
  {
    set op: Op | FirstTree(leaves, op) == |leaves| - 1
  }

  lemma {:induction false} FirstTreePrefix(leaves: seq<Parent>, n: nat, op: Op)
    requires n <= |leaves|
    ensures FirstTree(leaves[..n], op) == if FirstTree(leaves, op) < n then FirstTree(leaves, op) else n
  {
    var i, k := FirstTree(leaves, op), FirstTree(leaves[..n], op);
    assert forall j :: 0 <= j < n ==> leaves[..n][j] == leaves[j];
    if k < n {
      assert Implements(Chain(leaves[k]), op);
    }
    if i < n {
      assert Implements(Chain(leaves[..n][i]), op);
    }
  }

  /** Over the life of a device an operation is handed to the kernel by one creation only, the first
      whose tree implements it; if none does, by none. */
  lemma {:induction false} HandedOverOnce(leaves: seq<Parent>, n: nat, op: Op)
    requires 1 <= n <= |leaves|
    ensures op in KernelOps(leaves[..n]) <==> FirstTree(leaves, op) == n - 1
    ensures (exists i :: 0 <= i < |leaves| && Implements(Chain(leaves[i]), op)) <==> FirstTree(leaves, op) < |leaves|
  {
    FirstTreePrefix(leaves, n, op);
  }

  /** The n-th creation hands over everything its tree implements. */
  predicate CompleteAt(leaves: seq<Parent>, n: nat)
    requires 1 <= n <= |leaves|
  {
    forall op: Op :: Implements(Chain(leaves[n - 1]), op) ==> op in KernelOps(leaves[..n])
  }

  predicate Share(leaves: seq<Parent>, i: nat, j: nat)
    requires i < |leaves| && j < |leaves|
  {
    exists op: Op :: Implements(Chain(leaves[i]), op) && Implements(Chain(leaves[j]), op)
  }

  lemma {:induction false} SharedEarlier(leaves: seq<Parent>, n: nat, op: Op)
    requires 1 <= n <= |leaves| && Implements(Chain(leaves[n - 1]), op)
    ensures FirstTree(leaves, op) < n - 1 ==> Share(leaves, FirstTree(leaves, op), n - 1)
    ensures FirstTree(leaves, op) <= n - 1
  {
  }

  /** Every creation hands over all its tree implements exactly when no two creations used trees with
      an operation in common. */
  lemma {:induction false} CompleteOverLife(leaves: seq<Parent>)
    ensures (forall n :: 1 <= n <= |leaves| ==> CompleteAt(leaves, n)) <==>
            (forall i, j :: 0 <= i < j < |leaves| ==> !Share(leaves, i, j))
  {
    if forall i, j :: 0 <= i < j < |leaves| ==> !Share(leaves, i, j) {
      forall n | 1 <= n <= |leaves| ensures CompleteAt(leaves, n) {
        forall op: Op | Implements(Chain(leaves[n - 1]), op) ensures op in KernelOps(leaves[..n]) {
          HandedOverOnce(leaves, n, op);
          SharedEarlier(leaves, n, op);
        }
      }
    } else {
      var i, j :| 0 <= i < j < |leaves| && Share(leaves, i, j);
      var op: Op :| Implements(Chain(leaves[i]), op) && Implements(Chain(leaves[j]), op);
      HandedOverOnce(leaves, j + 1, op);
      assert !CompleteAt(leaves, j + 1);
    }
  }

  /** A device created again from a tree it was created from before gets nothing. */
  lemma {:induction false} RecreatedGetsNothing(leaves: seq<Parent>)
    requires leaves != [] && leaves[|leaves| - 1] in leaves[..|leaves| - 1]
    ensures KernelOps(leaves) == {}
  {
    var n := |leaves| - 1;
    var i :| 0 <= i < n && leaves[..n][i] == leaves[n];
    forall op: Op ensures FirstTree(leaves, op) != n {
      assert leaves[i] == leaves[n];
    }
  }

  lemma {:induction false} FirstTreeSnoc(leaves: seq<Parent>, leaf: Parent, op: Op)
    ensures
      var i := FirstTree(leaves, op);
      FirstTree(leaves + [leaf], op)
      == if i < |leaves| then i else if Implements(Chain(leaf), op) then |leaves| else |leaves| + 1
  {
    var all := leaves + [leaf];
    FirstTreePrefix(all, |leaves|, op);
    assert all[..|leaves|] == leaves && all[|leaves|] == leaf;
  }

  lemma {:induction false} AllListed(op: Op)
    ensures op in OPS
  {
    if op !in OPS1 && op !in OPS2 && op !in OPS3 {
      assert op in OPS4;
    }
  }

  // ---- the driver ---------------------------------------------------------------------------

  datatype Outcome = NoDevice | NotRegistered | NotImplemented | Called(m: Module)

  function Slot(table: map<Op, Module>, op: Op): Owner {
    if op in table then By(table[op]) else Nobody
  }

  /** The table after climbing past these modules, starting from another. */
  predicate Filled(was: map<Op, Module>, table: map<Op, Module>, kernelOps: set<Op>, chain: seq<Module>) {
    forall op: Op ::
      && Slot(table, op) == (if op in was then By(was[op]) else Nearest(chain, op))
      && (op in kernelOps <==> op !in was && Implements(chain, op))
  }

  class NetDevice {
    var table: map<Op, Module>     // ethtool_module_table
    var kernelOps: set<Op>         // the operations set in struct ethtool_ops
    var statistics: bool           // get_sset_count, get_strings and get_ethtool_stats are set
    var present: bool              // the net device exists
    ghost var leaves: seq<Parent>  // the PHYs of all creations so far

    ghost predicate Valid()
      reads this
    {
      && (forall op :: Slot(table, op) == OwnerAfter(leaves, op))
      && (present ==> leaves != [] && kernelOps == KernelOps(leaves) && statistics)
    }

    constructor ()
      ensures Valid() && !present && leaves == []
    {
      table, kernelOps, statistics, present := map[], {}, false, false;
      leaves := [];
    }

    /** The part of avmnet_create_netdevice that concerns ethtool: a zeroed struct ethtool_ops, and
        assemble_ethops on the PHY. */
    method Create(phy: Parent)
      requires Valid() && !present
      modifies this
      ensures Valid() && present && leaves == old(leaves) + [phy]
      ensures forall op :: op in old(table) ==> op in table && table[op] == old(table)[op]
    {
      kernelOps, statistics := {}, true;
      ghost var chain: seq<Module> := [];
      var module_ := phy;
      while module_.Under?
        invariant statistics && leaves == old(leaves) && chain + Chain(module_) == Chain(phy)
        invariant Filled(old(table), table, kernelOps, chain)
        decreases module_
      {
        AddModule(module_.up, old(table), chain);
        chain := chain + [module_.up];
        module_ := module_.up.parent;
      }
      assert chain == Chain(phy);
      FilledMeans(old(leaves), phy, old(table), table, kernelOps);
      leaves := leaves + [phy];
      present := true;
    }

    /** One turn of the climb: a module takes the free slots of the operations it implements. */
    method AddModule(m: Module, ghost was: map<Op, Module>, ghost chain: seq<Module>)
      requires Filled(was, table, kernelOps, chain)
      modifies `table, `kernelOps
      ensures Filled(was, table, kernelOps, chain + [m])
    {
      for k := 0 to |OPS|
        invariant forall op :: op in OPS[..k] && op !in old(table) && op in m.ops ==>
                                 op in kernelOps && op in table && table[op] == m
        invariant forall op :: op in old(table) || op !in m.ops || op !in OPS[..k] ==>
                                 Slot(table, op) == Slot(old(table), op) && (op in kernelOps <==> op in old(kernelOps))
      {
        assert OPS[..k + 1] == OPS[..k] + [OPS[k]];
        var op := OPS[k];
        if op !in table && op in m.ops {
          table := table[op := m];
          kernelOps := kernelOps + {op};
        }
      }
      assert OPS[..|OPS|] == OPS;
      OneModule(was, old(table), old(kernelOps), table, kernelOps, chain, m);
    }

    /** avmnet_destroy_netdevice: the table is not cleared. */
    method Destroy()
      requires Valid() && present
      modifies this
      ensures Valid() && !present && table == old(table) && leaves == old(leaves)
    {
      present, kernelOps, statistics := false, {}, false;
    }

    /** What the wrapper of an operation does. It never fails on an operation the kernel was handed,
        and calls the module of the present tree that is nearest to the PHY. An operation it was not
        handed, as an earlier tree had it, would still go to that tree's module. */
    method Dispatch(op: Op) returns (outcome: Outcome)
      requires Valid()
      ensures !present ==> outcome == NoDevice
      ensures present && op in kernelOps ==>
                outcome.Called? && Nearest(Chain(leaves[|leaves| - 1]), op) == By(outcome.m)
      ensures present && FirstTree(leaves, op) < |leaves| ==>
                && outcome.Called? && Nearest(Chain(leaves[FirstTree(leaves, op)]), op) == By(outcome.m)
                && op in outcome.m.ops
      ensures outcome != NotImplemented
      ensures outcome == NotRegistered <==>
              present && forall i :: 0 <= i < |leaves| ==> !Implements(Chain(leaves[i]), op)
    {
      if !present {
        return NoDevice;
      }
      OwnerImplements(leaves, op);
      assert Slot(table, op) == OwnerAfter(leaves, op);
      if op !in table {
        return NotRegistered;
      }
      if op !in table[op].ops {
        return NotImplemented;
      }
      outcome := Called(table[op]);
    }
  }

  lemma {:induction false} OwnerImplements(leaves: seq<Parent>, op: Op)
    ensures OwnerAfter(leaves, op).By? <==> FirstTree(leaves, op) < |leaves|
    ensures OwnerAfter(leaves, op).By? ==> op in OwnerAfter(leaves, op).m.ops
  {
    var i := FirstTree(leaves, op);
    if i < |leaves| {
      NearestExists(Chain(leaves[i]), op);
      NearestIsFirst(Chain(leaves[i]), op);
    }
  }

  // The climb done, in terms of the creations.
  lemma {:induction false} FilledMeans(leaves: seq<Parent>, phy: Parent, was: map<Op, Module>, table: map<Op,
      Module>, kernelOps: set<Op>)
    requires forall op :: Slot(was, op) == OwnerAfter(leaves, op)
    requires Filled(was, table, kernelOps, Chain(phy))
    ensures forall op :: Slot(table, op) == OwnerAfter(leaves + [phy], op)
    ensures kernelOps == KernelOps(leaves + [phy])
    ensures forall op :: op in was ==> op in table && table[op] == was[op]
  {
    forall op: Op
      ensures Slot(table, op) == OwnerAfter(leaves + [phy], op)
      ensures op in kernelOps <==> op in KernelOps(leaves + [phy])
      ensures op in was ==> op in table && table[op] == was[op]
    {
      OneOperation(leaves, phy, op);
      assert Slot(was, op) == OwnerAfter(leaves, op);
      assert Slot(table, op) == (if op in was then By(was[op]) else Nearest(Chain(phy), op));
    }
  }

  lemma {:induction false} OneOperation(leaves: seq<Parent>, phy: Parent, op: Op)
    ensures OwnerAfter(leaves + [phy], op)
         == if OwnerAfter(leaves, op).By? then OwnerAfter(leaves, op) else Nearest(Chain(phy), op)
    ensures op in KernelOps(leaves + [phy]) <==> OwnerAfter(leaves, op) == Nobody && Implements(Chain(phy), op)
  {
    var i, all := FirstTree(leaves, op), leaves + [phy];
    FirstTreeSnoc(leaves, phy, op);
    OwnerImplements(leaves, op);
    NearestExists(Chain(phy), op);
    assert i < |leaves| ==> all[i] == leaves[i];
    assert all[|leaves|] == phy;
  }

  // The chain grows by one module.
  lemma {:induction false} OneModule(was: map<Op, Module>, t: map<Op, Module>, ks: set<Op>, t': map<Op, Module>,
      ks': set<Op>,
                                     chain: seq<Module>, m: Module)
    requires Filled(was, t, ks, chain)
    requires forall op :: op in OPS && op !in t && op in m.ops ==> op in ks' && op in t' && t'[op] == m
    requires forall op :: op in t || op !in m.ops || op !in OPS ==>
               Slot(t', op) == Slot(t, op) && (op in ks' <==> op in ks)
    ensures Filled(was, t', ks', chain + [m])
  {
    forall op: Op
      ensures Slot(t', op) == (if op in was then By(was[op]) else Nearest(chain + [m], op))
      ensures op in ks' <==> op !in was && Implements(chain + [m], op)
    {
      AllListed(op);
      NearestConcat(chain, [m], op);
      NearestOne(m, op);
      ImplementsConcat(chain, [m], op);
      NearestExists(chain, op);
      assert Slot(t, op) == (if op in was then By(was[op]) else Nearest(chain, op));
    }
  }

  lemma {:induction false} NearestOne(m: Module, op: Op)
    ensures Nearest([m], op) == if op in m.ops then By(m) else Nobody
    ensures Implements([m], op) <==> op in m.ops
  {
    assert m in [m] && [m][1..] == [];
    assert Nearest([m], op) == if op in m.ops then By(m) else Nearest([], op);
  }
}
