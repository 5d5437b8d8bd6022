/** The port registry (internal/registry): reconciling, allocating and returning reservations. */
module Registry {
  import opened Model

  /** The allocation ids the mappings name. */
  function Referenced(lbs: seq<LoadBalancer>): set<string> {
    set b, m | b in lbs && m in b.mappings && m.allocationID != "" :: m.allocationID
  }

  predicate Orphan(a: PortAllocation, referenced: set<string>) {
    a.auto && a.id !in referenced
  }

  /** allocs without its orphaned auto allocations, order kept. */
  function KeepReferenced(allocs: seq<PortAllocation>, referenced: set<string>): seq<PortAllocation> {
    if allocs == [] then []
    else
      var n := |allocs| - 1;
      KeepReferenced(allocs[..n], referenced) + if Orphan(allocs[n], referenced) then [] else [allocs[n]]
  }

  function Reconciled(st: State): State {
    st.(allocs := KeepReferenced(st.allocs, Referenced(st.lbs)))
  }

  /** No auto allocation is unreferenced: what Reconcile establishes. */
  ghost predicate NoOrphans(st: State) {
    forall a | a in st.allocs :: !Orphan(a, Referenced(st.lbs))
  }

  method Reconcile(st: State) returns (kept: seq<PortAllocation>, changed: bool)
    ensures kept == KeepReferenced(st.allocs, Referenced(st.lbs))
    ensures changed <==> !NoOrphans(st)
    ensures !changed ==> kept == st.allocs
  {
    var referenced := ReferencedIDs(st.lbs);
    kept, changed := Keep(st.allocs, referenced);
  }

  /** The loop that builds the kept list. */
  method Keep(allocs: seq<PortAllocation>, referenced: set<string>) returns (kept: seq<PortAllocation>, changed: bool)
    ensures kept == KeepReferenced(allocs, referenced)
    ensures changed <==> exists a :: a in allocs && Orphan(a, referenced)
    ensures !changed ==> kept == allocs
  {
    kept, changed := [], false;
    for i := 0 to |allocs|
      invariant kept == KeepReferenced(allocs[..i], referenced)
      invariant changed ==> exists a :: a in allocs && Orphan(a, referenced)
      invariant !changed ==> forall j | 0 <= j < i :: !Orphan(allocs[j], referenced)
    {
      var a := allocs[i];
      assert allocs[..i + 1][..i] == allocs[..i];
      if a.auto && a.id !in referenced {
        assert Orphan(a, referenced) && a in allocs;
        changed := true;
      } else {
        kept := kept + [a];
      }
    }
    assert allocs[..|allocs|] == allocs;
    if !changed {
      KeepAll(allocs, referenced);
    }
  }

  /** The loop that fills the referenced map. */
  method ReferencedIDs(lbs: seq<LoadBalancer>) returns (referenced: set<string>)
    ensures referenced == Referenced(lbs)
  {
    referenced := {};
    for i := 0 to |lbs|
      invariant referenced == Referenced(lbs[..i])
    {
      var lb := lbs[i];
      for k := 0 to |lb.mappings|
        invariant forall id :: id in referenced <==>
          id in Referenced(lbs[..i]) || exists m :: m in lb.mappings[..k] && m.allocationID == id && id != ""
      {
        var m := lb.mappings[k];
        if m.allocationID != "" {
          referenced := referenced + {m.allocationID};
        }
        assert lb.mappings[..k + 1] == lb.mappings[..k] + [m];
      }
      assert lb.mappings[..|lb.mappings|] == lb.mappings;
      assert lbs[..i + 1] == lbs[..i] + [lb];
    }
    assert lbs[..|lbs|] == lbs;
  }

  /** KeepReferenced keeps exactly the allocations that are not orphans ... */
  lemma {:induction false} KeptExactly(allocs: seq<PortAllocation>, referenced: set<string>, a: PortAllocation)
    ensures a in KeepReferenced(allocs, referenced) <==> a in allocs && !Orphan(a, referenced)
  {
    if allocs != [] {
      var n := |allocs| - 1;
      assert allocs == allocs[..n] + [allocs[n]];
      KeptExactly(allocs[..n], referenced, a);
    }
  }

  /** What stands earlier in kept stands earlier in all. */
  ghost predicate InOrder(kept: seq<PortAllocation>, all: seq<PortAllocation>) {
    forall i, j, k, l | 0 <= i < j < |kept| && 0 <= k < |all| && 0 <= l < |all|
      && kept[i] == all[k] && kept[j] == all[l] :: k < l
  }

  /** ... in their order ... */
  lemma {:induction false} KeptInOrder(allocs: seq<PortAllocation>, referenced: set<string>)
    requires AllocsOk(allocs)
    ensures InOrder(KeepReferenced(allocs, referenced), allocs)
  {
    if allocs != [] {
      var n := |allocs| - 1;
      var s := allocs[..n];
      var kept := KeepReferenced(s, referenced);
      KeptInOrder(s, referenced);
      KeptAreThere(s, referenced);
      InOrderLonger(kept, s, allocs[n]);
      assert allocs == s + [allocs[n]];
    }
  }

  lemma KeptAreThere(allocs: seq<PortAllocation>, referenced: set<string>)
    ensures forall a | a in KeepReferenced(allocs, referenced) :: a in allocs
  {
    forall a | a in KeepReferenced(allocs, referenced) ensures a in allocs {
      KeptExactly(allocs, referenced, a);
    }
  }

  lemma InOrderLonger(kept: seq<PortAllocation>, s: seq<PortAllocation>, a: PortAllocation)
    requires InOrder(kept, s) && AllocsOk(s + [a]) && forall e | e in kept :: e in s
    ensures InOrder(kept, s + [a]) && InOrder(kept + [a], s + [a])
  {
    var all, n := s + [a], |s|;
    assert all[n] == a && forall k | 0 <= k < n :: all[k] == s[k] && all[k].id != all[n].id;
    assert a !in kept;
  }

  /** ... over a concatenation, each part on its own ... */
  lemma {:induction false} KeepSplits(s: seq<PortAllocation>, t: seq<PortAllocation>, referenced: set<string>)
    ensures KeepReferenced(s + t, referenced) == KeepReferenced(s, referenced) + KeepReferenced(t, referenced)
    decreases |t|
  {
    if t == [] {
      assert s + t == s;
    } else {
      var n := |t| - 1;
      assert (s + t)[..|s + t| - 1] == s + t[..n];
      KeepSplits(s, t[..n], referenced);
    }
  }

  /** ... and changes nothing exactly when there is no orphan. */
  lemma {:induction false} KeepIsIdentity(allocs: seq<PortAllocation>, referenced: set<string>)
    ensures KeepReferenced(allocs, referenced) == allocs <==> forall a | a in allocs :: !Orphan(a, referenced)
  {
    if forall a | a in allocs :: !Orphan(a, referenced) {
      KeepAll(allocs, referenced);
    } else {
      var a :| a in allocs && Orphan(a, referenced);
      KeptExactly(allocs, referenced, a);
    }
  }

  lemma {:induction false} KeepAll(allocs: seq<PortAllocation>, referenced: set<string>)
    requires forall a | a in allocs :: !Orphan(a, referenced)
    ensures KeepReferenced(allocs, referenced) == allocs
  {
    if allocs != [] {
      var n := |allocs| - 1;
      assert allocs == allocs[..n] + [allocs[n]];
      KeepAll(allocs[..n], referenced);
    }
  }

  /** A well-formed list stays well formed when entries are dropped. */
  lemma {:induction false} KeepAllocsOk(allocs: seq<PortAllocation>, referenced: set<string>)
    requires AllocsOk(allocs)
    ensures AllocsOk(KeepReferenced(allocs, referenced))
  {
    if allocs != [] {
      var n := |allocs| - 1;
      var s := allocs[..n];
      assert AllocsOk(s);
      KeepAllocsOk(s, referenced);
      forall a | a in KeepReferenced(s, referenced) ensures a in s {
        KeptExactly(s, referenced, a);
      }
      assert forall a | a in s :: a.id != allocs[n].id && a.port != allocs[n].port;
    }
  }

  datatype Allocation = Allocated(alloc: PortAllocation) | PoolExhausted

  /** The ports in use. */
  function UsedPorts(allocs: seq<PortAllocation>): set<int> {
    set a | a in allocs :: a.port
  }

  /** p is the least port of [start, end] outside used. */
  ghost predicate LeastFree(used: set<int>, start: int, end: int, p: int) {
    start <= p <= end && p !in used && forall q | start <= q < p :: q in used
  }

  function Grant(used: set<int>, start: int, end: int, id: string): (r: Allocation)
    ensures r.PoolExhausted? <==> forall q | start <= q <= end :: q in used
    ensures r.Allocated? ==> LeastFree(used, start, end, r.alloc.port) && r.alloc.id == id
    decreases end - start
  {
    if start > end then PoolExhausted
    else if start !in used then Allocated(PortAllocation(id, start, "", "", false, 0))
    else
      Grant(used, start + 1, end, id)
  }

  method Allocate(allocs: seq<PortAllocation>, start: int, end: int, id: string) returns (r: Allocation)
    ensures r == Grant(UsedPorts(allocs), start, end, id)
  {
    var used: set<int> := {};
    for i := 0 to |allocs|
      invariant used == UsedPorts(allocs[..i])
    {
      used := used + {allocs[i].port};
      assert allocs[..i + 1] == allocs[..i] + [allocs[i]];
    }
    assert allocs[..|allocs|] == allocs;
    var p := start;
    while p <= end
      invariant Grant(used, start, end, id) == Grant(used, p, end, id)
    {
      if p !in used {
        return Allocated(PortAllocation(id, p, "", "", false, 0));
      }
      p := p + 1;
    }
    r := PoolExhausted;
  }

  /** The allocations of every other port, order kept. */
  function WithoutPort(allocs: seq<PortAllocation>, port: int): seq<PortAllocation> {
    if allocs == [] then []
    else
      var n := |allocs| - 1;
      WithoutPort(allocs[..n], port) + if allocs[n].port == port then [] else [allocs[n]]
  }

  /** An unallocated port is an error, and then there is no list. */
  method Return(allocs: seq<PortAllocation>, port: int) returns (out: seq<PortAllocation>, found: bool)
    ensures found <==> port in UsedPorts(allocs)
    ensures out == if found then WithoutPort(allocs, port) else []
  {
    out, found := [], false;
    for i := 0 to |allocs|
      invariant found <==> exists j :: 0 <= j < i && allocs[j].port == port
      invariant out == WithoutPort(allocs[..i], port)
    {
      var a := allocs[i];
      assert allocs[..i + 1][..i] == allocs[..i];
      if a.port == port {
        found := true;
      } else {
        out := out + [a];
      }
    }
    assert allocs[..|allocs|] == allocs;
    if !found {
      out := [];
    }
  }

  lemma {:induction false} WithoutPortExactly(allocs: seq<PortAllocation>, port: int, a: PortAllocation)
    ensures a in WithoutPort(allocs, port) <==> a in allocs && a.port != port
  {
    if allocs != [] {
      var n := |allocs| - 1;
      assert allocs == allocs[..n] + [allocs[n]];
      WithoutPortExactly(allocs[..n], port, a);
    }
  }

  lemma {:induction false} WithoutPortAllocsOk(allocs: seq<PortAllocation>, port: int)
    requires AllocsOk(allocs)
    ensures AllocsOk(WithoutPort(allocs, port))
  {
    if allocs != [] {
      var n := |allocs| - 1;
      var s := allocs[..n];
      assert AllocsOk(s);
      WithoutPortAllocsOk(s, port);
      forall a | a in WithoutPort(s, port) ensures a in s {
        WithoutPortExactly(s, port, a);
      }
      assert forall a | a in s :: a.id != allocs[n].id && a.port != allocs[n].port;
    }
  }

  lemma {:induction false} WithoutAbsentPort(allocs: seq<PortAllocation>, port: int)
    requires port !in UsedPorts(allocs)
    ensures WithoutPort(allocs, port) == allocs
  {
    if allocs != [] {
      var n := |allocs| - 1;
      assert allocs == allocs[..n] + [allocs[n]];
      assert allocs[n].port in UsedPorts(allocs);
      assert UsedPorts(allocs[..n]) <= UsedPorts(allocs);
      WithoutAbsentPort(allocs[..n], port);
    }
  }

  predicate IsReferenced(lbs: seq<LoadBalancer>, id: string) {
    exists b :: b in lbs && exists m :: m in b.mappings && m.allocationID == id
  }

  method IsAllocationReferenced(st: State, id: string) returns (r: bool)
    ensures r <==> IsReferenced(st.lbs, id)
  {
    for i := 0 to |st.lbs|
      invariant !IsReferenced(st.lbs[..i], id)
    {
      var lb := st.lbs[i];
      for k := 0 to |lb.mappings|
        invariant forall m | m in lb.mappings[..k] :: m.allocationID != id
      {
        if lb.mappings[k].allocationID == id {
          return true;
        }
      }
      assert lb.mappings[..|lb.mappings|] == lb.mappings;
      assert st.lbs[..i + 1] == st.lbs[..i] + [lb];
    }
    assert st.lbs[..|st.lbs|] == st.lbs;
    r := false;
  }

  /** The index of the first allocation of port, -1 if there is none. */
  function AllocIndex(allocs: seq<PortAllocation>, port: int): (i: int)
    ensures -1 <= i < |allocs|
    ensures i >= 0 ==> allocs[i].port == port && forall j | 0 <= j < i :: allocs[j].port != port
    ensures i < 0 ==> forall a | a in allocs :: a.port != port
  {
    if allocs == [] then -1
    else if allocs[0].port == port then 0
    else
      var r := AllocIndex(allocs[1..], port);
      if r < 0 then -1 else r + 1
  }

  method AllocationByPort(allocs: seq<PortAllocation>, port: int) returns (i: int)
    ensures i == AllocIndex(allocs, port)
  {
    i := 0;
    while i < |allocs|
      invariant 0 <= i <= |allocs|
      invariant forall j | 0 <= j < i :: allocs[j].port != port
    {
      if allocs[i].port == port {
        return;
      }
      i := i + 1;
    }
    i := -1;
  }
}
