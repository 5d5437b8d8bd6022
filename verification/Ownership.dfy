/** Who owns a reserved port: over every run, auto allocations and the mappings they were made for stay in
    one-to-one correspondence (internal/txn/txn.go, internal/registry). */
module Ownership {
  import opened Model
  import opened Config
  import opened Rules
  import opened Transactions
  import opened Registry

  /** a was allocated for mapping m of load balancer b, and both still say so. */
  ghost predicate Linked(b: LoadBalancer, m: Mapping, a: PortAllocation) {
    && a.id == m.allocationID && a.auto && a.owner == b.name
    && m.autoAllocated && m.upstream == Upstream("http", "localhost", a.port, UpstreamTLS("verify", ""))
  }

  ghost predicate OwnedMapping(b: LoadBalancer, m: Mapping, allocs: seq<PortAllocation>) {
    if m.allocationID == "" then !m.autoAllocated else exists a :: a in allocs && Linked(b, m, a)
  }

  ghost predicate DistinctIds(ms: seq<Mapping>) {
    forall k, l | 0 <= k < l < |ms| && ms[k].allocationID != "" :: ms[k].allocationID != ms[l].allocationID
  }

  ghost predicate OwnedBalancer(b: LoadBalancer, allocs: seq<PortAllocation>) {
    DistinctIds(b.mappings) && forall m | m in b.mappings :: OwnedMapping(b, m, allocs)
  }

  ghost predicate Owned(st: State) {
    (forall b | b in st.lbs :: OwnedBalancer(b, st.allocs)) && NoOrphans(st)
  }

  /** The correspondence itself: each auto allocation serves exactly one mapping, each mapping with an
      allocation id has exactly one allocation, and the two agree. */
  lemma Bijection(st: State)
    requires WellFormed(st) && Owned(st)
    ensures forall a | a in st.allocs && a.auto :: ServesOne(st, a)
    ensures forall b, m | b in st.lbs && m in b.mappings && m.allocationID != "" :: HasOne(st, b, m)
  {
    forall a | a in st.allocs && a.auto ensures ServesOne(st, a) {
      assert a.id in Referenced(st.lbs);
      var b, m :| b in st.lbs && m in b.mappings && m.allocationID == a.id;
      LinkOf(st, b, m, a);
      forall c, n | c in st.lbs && n in c.mappings && n.allocationID == a.id ensures c == b && n == m {
        OneUser(st, a, b, m, c, n);
      }
    }
    forall b, m | b in st.lbs && m in b.mappings && m.allocationID != "" ensures HasOne(st, b, m) {
      assert OwnedMapping(b, m, st.allocs);
      var a :| a in st.allocs && Linked(b, m, a);
      SameIdSameAlloc(st.allocs, a);
    }
  }

  lemma SameIdSameAlloc(allocs: seq<PortAllocation>, a: PortAllocation)
    requires AllocsOk(allocs) && a in allocs
    ensures forall e | e in allocs && e.id == a.id :: e == a
  {
  }

  /** One mapping refers to a, and it is linked to it. */
  ghost predicate ServesOne(st: State, a: PortAllocation) {
    exists b, m :: b in st.lbs && m in b.mappings && Linked(b, m, a) &&
      forall c, n | c in st.lbs && n in c.mappings && n.allocationID == a.id :: c == b && n == m
  }

  /** One allocation has the mapping's id, and it is linked to it. */
  ghost predicate HasOne(st: State, b: LoadBalancer, m: Mapping) {
    exists a :: a in st.allocs && Linked(b, m, a) && forall e | e in st.allocs && e.id == m.allocationID :: e == a
  }

  lemma OneUser(st: State, a: PortAllocation, b: LoadBalancer, m: Mapping, c: LoadBalancer, n: Mapping)
    requires NamesOk(st.lbs) && AllocsOk(st.allocs) && a in st.allocs
    requires b in st.lbs && OwnedBalancer(b, st.allocs) && m in b.mappings && m.allocationID == a.id
    requires c in st.lbs && OwnedBalancer(c, st.allocs) && n in c.mappings && n.allocationID == a.id
    ensures b == c && m == n
  {
    LinkOf(st, b, m, a);
    LinkOf(st, c, n, a);
  }

  lemma LinkOf(st: State, b: LoadBalancer, m: Mapping, a: PortAllocation)
    requires AllocsOk(st.allocs) && b in st.lbs && OwnedBalancer(b, st.allocs) && m in b.mappings && a in st.allocs
    requires m.allocationID == a.id
    ensures Linked(b, m, a)
  {
    assert OwnedMapping(b, m, st.allocs);
  }

  /** Every load balancer of the new list was one of the old, perhaps with fewer mappings or another label. */
  ghost predicate Shrunk(lbs: seq<LoadBalancer>, from: seq<LoadBalancer>) {
    forall b | b in lbs :: exists c :: c in from && c.name == b.name && SubList(b.mappings, c.mappings)
  }

  /** ms keeps some mappings of ns: none new, none twice. */
  ghost predicate SubList(ms: seq<Mapping>, ns: seq<Mapping>) {
    (forall m | m in ms :: m in ns) && (DistinctIds(ns) ==> DistinctIds(ms))
  }

  lemma ShrunkStaysOwned(lbs: seq<LoadBalancer>, from: seq<LoadBalancer>, allocs: seq<PortAllocation>)
    requires Shrunk(lbs, from) && forall b | b in from :: OwnedBalancer(b, allocs)
    ensures forall b | b in lbs :: OwnedBalancer(b, allocs)
  {
    forall b | b in lbs
      ensures OwnedBalancer(b, allocs)
    {
      var c :| c in from && c.name == b.name && SubList(b.mappings, c.mappings);
      assert OwnedBalancer(c, allocs);
      forall m | m in b.mappings ensures OwnedMapping(b, m, allocs) {
        assert OwnedMapping(c, m, allocs);
      }
    }
  }

  /** Dropping orphans cannot take an allocation away from its mapping. */
  lemma ReconcileKeepsLinks(st: State)
    requires forall b | b in st.lbs :: OwnedBalancer(b, st.allocs)
    ensures Owned(Reconciled(st))
  {
    var refs := Referenced(st.lbs);
    var kept := KeepReferenced(st.allocs, refs);
    forall b | b in st.lbs
      ensures OwnedBalancer(b, kept)
    {
      forall m | m in b.mappings ensures OwnedMapping(b, m, kept) {
        if m.allocationID != "" {
          var a :| a in st.allocs && Linked(b, m, a);
          assert a.id in refs;
          KeptExactly(st.allocs, refs, a);
        }
      }
    }
    forall a | a in kept ensures !Orphan(a, refs) {
      KeptExactly(st.allocs, refs, a);
    }
  }

  lemma SameRefs(lbs: seq<LoadBalancer>, i: nat, b: LoadBalancer)
    requires i < |lbs| && b.mappings == lbs[i].mappings
    ensures Referenced(lbs[i := b]) == Referenced(lbs)
  {
    var ls := lbs[i := b];
    assert ls[i] == b;
    forall id ensures id in Referenced(ls) <==> id in Referenced(lbs) {
      if id in Referenced(ls) {
        var c, m :| c in ls && m in c.mappings && m.allocationID == id;
        if c == b { assert m in lbs[i].mappings; }
      }
      if id in Referenced(lbs) {
        var c, m :| c in lbs && m in c.mappings && m.allocationID == id;
        var j :| 0 <= j < |lbs| && lbs[j] == c;
        assert ls[j] in ls && m in ls[j].mappings;
      }
    }
  }

  lemma ReplaceShrinks(lbs: seq<LoadBalancer>, i: nat, b: LoadBalancer)
    requires i < |lbs| && b.name == lbs[i].name && SubList(b.mappings, lbs[i].mappings)
    ensures Shrunk(lbs[i := b], lbs)
  {
    forall c | c in lbs[i := b]
      ensures exists d :: d in lbs && d.name == c.name && SubList(c.mappings, d.mappings)
    {
      if c == b {
        assert lbs[i] in lbs;
      } else {
        assert c in lbs && SubList(c.mappings, c.mappings);
      }
    }
  }

  lemma RemoveAtSubList(ms: seq<Mapping>, k: nat)
    requires k < |ms|
    ensures SubList(RemoveAt(ms, k), ms)
  {
    var r := RemoveAt(ms, k);
    assert forall j | 0 <= j < |r| :: r[j] == ms[if j < k then j else j + 1];
  }

  /** The placed mapping nm is the only newcomer. */
  lemma PlacedStaysOwned(st: State, allocs: seq<PortAllocation>, i: nat, nm: Mapping)
    requires i < |st.lbs| && (forall b | b in st.lbs :: OwnedBalancer(b, allocs))
    requires OwnedMapping(st.lbs[i], nm, allocs)
    requires nm.allocationID != "" ==> forall m | m in st.lbs[i].mappings :: m.allocationID != nm.allocationID
    ensures forall b | b in PlaceMapping(st.lbs, i, nm) :: OwnedBalancer(b, allocs)
  {
    var lbs := PlaceMapping(st.lbs, i, nm);
    var was := st.lbs[i];
    forall b | b in lbs
      ensures OwnedBalancer(b, allocs)
    {
      if b == lbs[i] {
        assert OwnedBalancer(was, allocs);
        forall m | m in b.mappings ensures OwnedMapping(b, m, allocs) {
          if m == nm {
            assert OwnedMapping(was, nm, allocs);
          } else {
            assert OwnedMapping(was, m, allocs);
          }
        }
      } else {
        assert b in st.lbs;
      }
    }
  }

  /** Every accepted operation keeps the ownership structure. */
  lemma AttemptKeepsOwned(p: Params, st: State, c: Call)
    requires WellFormed(st) && Owned(st) && c.id != "" && Attempt(p, st, c).Candidate?
    ensures Owned(Attempt(p, st, c).st)
  {
    AttemptCommittable(p, st, c);
    EditKeepsOwned(p, st, c, EditOf(p, st, c).st);
  }

  lemma EditKeepsOwned(p: Params, st: State, c: Call, e: State)
    requires WellFormed(st) && Owned(st) && c.id != "" && EditOf(p, st, c) == Candidate(e) && WellFormed(e)
    ensures Owned(e)
  {
    match c.op
    case CreateLB(name, text) => CreateKeepsOwned(st, e.lbs[|st.lbs|]);
    case UpdateLBLabel(name, text) => RelabelKeepsOwned(st, LBIndex(st.lbs, p.o.canon(name).value), text);
    case DeleteLB(name) => CutKeepsOwned(st, LBIndex(st.lbs, p.o.canon(name).value));
    case PutMapping(name, spec, replace) =>
      PutKeepsOwned(p, st, LBIndex(st.lbs, p.o.canon(name).value), spec, c.now, c.id);
    case DeleteMapping(name, listenPort) =>
      var i := LBIndex(st.lbs, p.o.canon(name).value);
      CutMappingKeepsOwned(st, i, MappingIndex(st.lbs[i].mappings, listenPort));
    case AllocatePort(owner, text) => ManualKeepsOwned(st, e.allocs[|st.allocs|]);
    case ReturnPort(port) => ReturnKeepsOwned(st, port);
  }

  lemma CreateKeepsOwned(st: State, b: LoadBalancer)
    requires Owned(st) && b.mappings == []
    ensures Owned(st.(lbs := st.lbs + [b]))
  {
    assert Referenced(st.lbs + [b]) == Referenced(st.lbs);
  }

  lemma ManualKeepsOwned(st: State, a: PortAllocation)
    requires Owned(st) && !a.auto
    ensures Owned(st.(allocs := st.allocs + [a]))
  {
    forall b | b in st.lbs ensures OwnedBalancer(b, st.allocs + [a]) {
      MoreAllocs(b, st.allocs, st.allocs + [a]);
    }
  }

  lemma RelabelKeepsOwned(st: State, i: nat, text: string)
    requires Owned(st) && i < |st.lbs|
    ensures Owned(st.(lbs := st.lbs[i := st.lbs[i].(labelText := text)]))
  {
    var b := st.lbs[i].(labelText := text);
    SameRefs(st.lbs, i, b);
    ReplaceShrinks(st.lbs, i, b);
    ShrunkStaysOwned(st.lbs[i := b], st.lbs, st.allocs);
  }

  lemma CutKeepsOwned(st: State, i: nat)
    requires Owned(st) && i < |st.lbs|
    ensures Owned(Reconciled(st.(lbs := RemoveAt(st.lbs, i))))
  {
    var cut := RemoveAt(st.lbs, i);
    assert forall b | b in cut :: b in st.lbs && SubList(b.mappings, b.mappings);
    ShrunkStaysOwned(cut, st.lbs, st.allocs);
    ReconcileKeepsLinks(st.(lbs := cut));
  }

  lemma CutMappingKeepsOwned(st: State, i: nat, k: nat)
    requires Owned(st) && i < |st.lbs| && k < |st.lbs[i].mappings|
    ensures Owned(Reconciled(st.(lbs := SetMappings(st.lbs, i, RemoveAt(st.lbs[i].mappings, k)))))
  {
    RemoveAtSubList(st.lbs[i].mappings, k);
    var cut := SetMappings(st.lbs, i, RemoveAt(st.lbs[i].mappings, k));
    ReplaceShrinks(st.lbs, i, cut[i]);
    ShrunkStaysOwned(cut, st.lbs, st.allocs);
    ReconcileKeepsLinks(st.(lbs := cut));
  }

  lemma MoreAllocs(b: LoadBalancer, allocs: seq<PortAllocation>, more: seq<PortAllocation>)
    requires OwnedBalancer(b, allocs) && forall a | a in allocs :: a in more
    ensures OwnedBalancer(b, more)
  {
    forall m | m in b.mappings ensures OwnedMapping(b, m, more) {
      assert OwnedMapping(b, m, allocs);
    }
  }

  lemma ReturnKeepsOwned(st: State, port: int)
    requires WellFormed(st) && Owned(st) && EditReturnPort(st, port).Candidate?
    ensures Owned(EditReturnPort(st, port).st)
  {
    var gone := st.allocs[AllocIndex(st.allocs, port)];
    var rest := WithoutPort(st.allocs, port);
    forall b | b in st.lbs ensures OwnedBalancer(b, rest) {
      forall m | m in b.mappings ensures OwnedMapping(b, m, rest) {
        assert OwnedMapping(b, m, st.allocs);
        if m.allocationID != "" {
          var a :| a in st.allocs && Linked(b, m, a);
          assert a.port == port ==> a == gone;
          WithoutPortExactly(st.allocs, port, a);
        }
      }
    }
    forall a | a in rest ensures a in st.allocs {
      WithoutPortExactly(st.allocs, port, a);
    }
  }

  lemma PutKeepsOwned(p: Params, st: State, i: nat, spec: MappingSpec, now: Time, id: string)
    requires WellFormed(st) && Owned(st) && id != "" && i < |st.lbs|
    requires PutAt(p, st, i, spec, now, id).Candidate? && WellFormed(PutAt(p, st, i, spec, now, id).st)
    ensures Owned(PutAt(p, st, i, spec, now, id).st)
  {
    if spec.allocate {
      var a := AutoAlloc(GrantIn(p, st, id).alloc, st.lbs[i].name, spec, now);
      var nm := AutoMapping(spec, a);
      var allocs := st.allocs + [a];
      forall b | b in st.lbs ensures OwnedBalancer(b, allocs) {
        MoreAllocs(b, st.allocs, allocs);
      }
      FreshId(st, i, nm, a);
      assert Linked(st.lbs[i], nm, a) && a in allocs;
      PlacedStaysOwned(st, allocs, i, nm);
      ReconcileKeepsLinks(st.(lbs := PlaceMapping(st.lbs, i, nm), allocs := allocs));
    } else {
      PlacedStaysOwned(st, st.allocs, i, PlainMapping(spec));
      ReconcileKeepsLinks(st.(lbs := PlaceMapping(st.lbs, i, PlainMapping(spec))));
    }
  }

  lemma PlacedIsThere(lbs: seq<LoadBalancer>, i: nat, nm: Mapping)
    requires i < |lbs|
    ensures var ls := PlaceMapping(lbs, i, nm); i < |ls| && ls[i] in ls && nm in ls[i].mappings
  {
    var k, ms := MappingIndex(lbs[i].mappings, nm.listenPort), PlaceMapping(lbs, i, nm)[i].mappings;
    assert ms[if k >= 0 then k else |ms| - 1] == nm;
  }

  /** An accepted id collides with no id in use: a colliding allocation would survive Reconcile twice. */
  lemma FreshId(st: State, i: nat, nm: Mapping, a: PortAllocation)
    requires WellFormed(st) && i < |st.lbs| && nm.allocationID == a.id != "" && a.auto
    requires AllocsOk(Reconciled(st.(lbs := PlaceMapping(st.lbs, i, nm), allocs := st.allocs + [a])).allocs)
    ensures !HasId(st.allocs, a.id)
    ensures forall b, m | b in st.lbs && m in b.mappings :: m.allocationID != a.id
  {
    var lbs := PlaceMapping(st.lbs, i, nm);
    var refs := Referenced(lbs);
    PlacedIsThere(st.lbs, i, nm);
    assert a.id in refs;
    KeepSplits(st.allocs, [a], refs);
    var kept := KeepReferenced(st.allocs, refs);
    assert KeepReferenced([a], refs) == [a];
    var all := kept + [a];
    assert all[|kept|] == a && forall j | 0 <= j < |kept| :: all[j] == kept[j];
    forall e | e in st.allocs ensures e.id != a.id {
      KeptExactly(st.allocs, refs, e);
    }
  }

  /** The allocated ports lie in the pool. */
  ghost predicate PoolOk(c: Config, allocs: seq<PortAllocation>) {
    forall a | a in allocs :: InPool(c, a.port)
  }

  lemma AttemptKeepsPool(p: Params, st: State, c: Call)
    requires PoolOk(p.cfg, st.allocs) && Attempt(p, st, c).Candidate?
    ensures PoolOk(p.cfg, Attempt(p, st, c).st.allocs)
  {
    var e := EditOf(p, st, c).st;
    forall a | a in e.allocs
      ensures InPool(p.cfg, a.port)
    {
      match c.op
      case ReturnPort(port) => WithoutPortExactly(st.allocs, port, a);
      case PutMapping(name, spec, replace) =>
        var i := LBIndex(st.lbs, p.o.canon(name).value);
        if spec.allocate {
          var g := AutoAlloc(GrantIn(p, st, c.id).alloc, st.lbs[i].name, spec, c.now);
          KeptExactly(st.allocs + [g], Referenced(e.lbs), a);
        } else {
          KeptExactly(st.allocs, Referenced(e.lbs), a);
        }
      case DeleteLB(_) => KeptExactly(st.allocs, Referenced(e.lbs), a);
      case DeleteMapping(_, _) => KeptExactly(st.allocs, Referenced(e.lbs), a);
      case _ =>
    }
  }

  /** What every state of a run from the empty state satisfies. */
  ghost predicate Sound(p: Params, st: State) {
    WellFormed(st) && Owned(st) && PoolOk(p.cfg, st.allocs) && Compliant(p, st.lbs)
  }

  /** In every run of operations, with any failures and any non-empty ids, colliding ones included. */
  lemma {:induction false} RunsAreSound(p: Params, steps: seq<Step>)
    requires RealIds(steps)
    ensures Sound(p, Run(p, EMPTY_STATE, steps))
  {
    if steps != [] {
      var n := |steps| - 1;
      assert steps[n] in steps && forall s | s in steps[..n] :: s in steps;
      RunsAreSound(p, steps[..n]);
      var st, s := Run(p, EMPTY_STATE, steps[..n]), steps[n];
      if Attempt(p, st, s.call).Candidate? && s.saved {
        AttemptCommittable(p, st, s.call);
        AttemptKeepsOwned(p, st, s.call);
        AttemptKeepsPool(p, st, s.call);
      }
    }
  }

  /** The ids must be non-empty: an accepted allocating PutMapping keeps ownership if and only if its id is. */
  lemma OwnershipNeedsRealIds(p: Params, st: State, c: Call)
    requires WellFormed(st) && Owned(st) && Attempt(p, st, c).Candidate?
    requires c.op.PutMapping? && c.op.spec.allocate
    ensures Owned(Attempt(p, st, c).st) <==> c.id != ""
  {
    if c.id != "" {
      AttemptKeepsOwned(p, st, c);
    } else {
      AttemptCommittable(p, st, c);
      EmptyIdIsNotOwned(p, st, LBIndex(st.lbs, p.o.canon(c.op.name).value), c.op.spec, c.now);
    }
  }

  lemma EmptyIdIsNotOwned(p: Params, st: State, i: nat, spec: MappingSpec, now: Time)
    requires i < |st.lbs| && spec.allocate && PutAt(p, st, i, spec, now, "").Candidate?
    ensures !Owned(PutAt(p, st, i, spec, now, "").st)
  {
    var nm := AutoMapping(spec, AutoAlloc(GrantIn(p, st, "").alloc, st.lbs[i].name, spec, now));
    var e := PutAt(p, st, i, spec, now, "").st;
    assert e.lbs[i] in e.lbs && nm in e.lbs[i].mappings;
    assert !OwnedMapping(e.lbs[i], nm, e.allocs);
  }

  function PoolSize(c: Config): int {
    c.poolEnd - c.poolStart + 1
  }

  function PoolPorts(start: int, end: int): (s: set<int>)
    ensures forall q :: q in s <==> start <= q <= end
    ensures |s| == if start <= end then end - start + 1 else 0
    decreases end - start
  {
    if start > end then {} else PoolPorts(start + 1, end) + {start}
  }

  lemma {:induction false} UsedCount(allocs: seq<PortAllocation>)
    requires AllocsOk(allocs)
    ensures |UsedPorts(allocs)| == |allocs|
  {
    if allocs != [] {
      var n := |allocs| - 1;
      var s := allocs[..n];
      assert AllocsOk(s);
      UsedCount(s);
      assert allocs == s + [allocs[n]];
      assert UsedPorts(allocs) == UsedPorts(s) + {allocs[n].port};
    }
  }

  /** The reported free count, pool size minus number of allocations, is the number of unallocated pool ports
      if and only if no allocation lies outside the pool (as it may after the pool was reconfigured). */
  lemma FreeCountIff(c: Config, allocs: seq<PortAllocation>)
    requires AllocsOk(allocs) && c.poolStart <= c.poolEnd
    ensures PoolSize(c) - |allocs| == |PoolPorts(c.poolStart, c.poolEnd) - UsedPorts(allocs)| <==> PoolOk(c, allocs)
  {
    var pool, used := PoolPorts(c.poolStart, c.poolEnd), UsedPorts(allocs);
    UsedCount(allocs);
    assert |pool - used| == |pool| - |pool * used|;
    assert |used - pool| == |used| - |used * pool|;
    assert pool * used == used * pool;
    assert |used - pool| == 0 <==> used - pool == {};
    if PoolOk(c, allocs) {
      assert used - pool == {};
    } else {
      var a :| a in allocs && !InPool(c, a.port);
      assert a.port in used - pool;
    }
  }

  /** One reservation left over from another pool makes the count one too small. */
  lemma FreeCountIsWrong(c: Config, a: PortAllocation)
    requires a.id != "" && c.poolStart <= c.poolEnd && !InPool(c, a.port)
    ensures |PoolPorts(c.poolStart, c.poolEnd) - UsedPorts([a])| == PoolSize(c) - |[a]| + 1
  {
    var pool := PoolPorts(c.poolStart, c.poolEnd);
    assert pool - UsedPorts([a]) == pool;
  }

  /** Allocation takes the least free port of the pool, and fails exactly when as many ports are allocated as
      the pool has. */
  lemma ExhaustedIff(p: Params, st: State, id: string)
    requires AllocsOk(st.allocs) && PoolOk(p.cfg, st.allocs) && p.cfg.poolStart <= p.cfg.poolEnd
    ensures GrantIn(p, st, id).PoolExhausted? <==> |st.allocs| == PoolSize(p.cfg)
    ensures |st.allocs| <= PoolSize(p.cfg)
    ensures GrantIn(p, st, id).Allocated? ==>
      LeastFree(UsedPorts(st.allocs), p.cfg.poolStart, p.cfg.poolEnd, GrantIn(p, st, id).alloc.port)
  {
    FreeCountIff(p.cfg, st.allocs);
    var free := PoolPorts(p.cfg.poolStart, p.cfg.poolEnd) - UsedPorts(st.allocs);
    assert |free| == 0 <==> free == {};
    if GrantIn(p, st, id).Allocated? {
      assert GrantIn(p, st, id).alloc.port in free;
    } else {
      assert forall q :: q !in free;
    }
  }
}
