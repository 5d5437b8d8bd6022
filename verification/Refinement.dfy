/** The nested lists as a finite map, and each operation on them as the matching update of that map: order and
    position are representation, only names and ports matter (internal/txn/txn.go). */
module Refinement {
  import opened Model
  import opened Rules
  import opened Transactions
  import opened Registry
  import opened Keyed

  datatype Balancer = Balancer(labelText: string, createdAt: Time, ports: map<int, Mapping>)

  datatype View = View(lbs: map<string, Balancer>, allocs: map<int, PortAllocation>)

  datatype ViewEdit = ViewCandidate(v: View) | ViewRejected(err: Error)

  function PortKey(m: Mapping): int { m.listenPort }

  function NameKey(b: LoadBalancer): string { b.name }

  function AllocKey(a: PortAllocation): int { a.port }

  ghost function PortsOf(ms: seq<Mapping>): map<int, Mapping> {
    ToMap(ms, PortKey)
  }

  ghost function BalancerOf(b: LoadBalancer): Balancer {
    Balancer(b.labelText, b.createdAt, PortsOf(b.mappings))
  }

  ghost function BalancersOf(lbs: seq<LoadBalancer>): map<string, Balancer> {
    map n | n in ToMap(lbs, NameKey) :: BalancerOf(ToMap(lbs, NameKey)[n])
  }

  ghost function AllocsOf(allocs: seq<PortAllocation>): map<int, PortAllocation> {
    ToMap(allocs, AllocKey)
  }

  ghost function ViewOf(st: State): View {
    View(BalancersOf(st.lbs), AllocsOf(st.allocs))
  }

  ghost function ViewOfEdit(e: Edit): ViewEdit {
    if e.Rejected? then ViewRejected(e.err) else ViewCandidate(ViewOf(e.st))
  }

  // The operations on the map.

  ghost predicate ViewReferenced(v: View, id: string) {
    exists n, q :: n in v.lbs && q in v.lbs[n].ports && v.lbs[n].ports[q].allocationID == id
  }

  /** Auto allocations nobody refers to go. */
  ghost function Released(v: View): View {
    v.(allocs := map q | q in v.allocs && !ViewOrphan(v, v.allocs[q]) :: v.allocs[q])
  }

  ghost predicate ViewOrphan(v: View, a: PortAllocation) {
    a.auto && (a.id == "" || !ViewReferenced(v, a.id))
  }

  ghost function WithMapping(v: View, n: string, m: Mapping): View
    requires n in v.lbs
  {
    v.(lbs := v.lbs[n := v.lbs[n].(ports := v.lbs[n].ports[m.listenPort := m])])
  }

  ghost function ViewPut(p: Params, v: View, n: string, spec: MappingSpec, now: Time, id: string): ViewEdit
    requires n in v.lbs
  {
    if spec.allocate then
      var g := Grant(v.allocs.Keys, p.cfg.poolStart, p.cfg.poolEnd, id);
      if g == PoolExhausted then ViewRejected(Error(Conflict, "pool_exhausted"))
      else
        var a := AutoAlloc(g.alloc, n, spec, now);
        ViewCandidate(Released(WithMapping(v, n, AutoMapping(spec, a)).(allocs := v.allocs[a.port := a])))
    else
      ViewCandidate(Released(WithMapping(v, n, PlainMapping(spec))))
  }

  /** The operations that name a load balancer, once the name is known to be n. */
  ghost function ViewNamed(p: Params, v: View, c: Call, n: string): ViewEdit {
    if c.op.CreateLB? then
      if n in v.lbs then ViewRejected(Error(Conflict, "duplicate_lb"))
      else ViewCandidate(v.(lbs := v.lbs[n := Balancer(c.op.text, c.now, map[])]))
    else if n !in v.lbs then ViewRejected(Error(NotFound, "lb_not_found"))
    else
      match c.op
      case UpdateLBLabel(_, text) => ViewCandidate(v.(lbs := v.lbs[n := v.lbs[n].(labelText := text)]))
      case DeleteLB(_) => ViewCandidate(Released(v.(lbs := v.lbs - {n})))
      case PutMapping(_, spec, replace) =>
        if !replace && spec.listenPort in v.lbs[n].ports then ViewRejected(Error(Conflict, "mapping_exists"))
        else ViewPut(p, v, n, spec, c.now, c.id)
      case DeleteMapping(_, port) =>
        if port !in v.lbs[n].ports then ViewRejected(Error(NotFound, "mapping_not_found"))
        else ViewCandidate(Released(v.(lbs := v.lbs[n := v.lbs[n].(ports := v.lbs[n].ports - {port})])))
      case _ => ViewCandidate(v)
  }

  ghost function ViewEditOf(p: Params, v: View, c: Call): ViewEdit {
    match c.op
    case AllocatePort(owner, text) =>
      var g := Grant(v.allocs.Keys, p.cfg.poolStart, p.cfg.poolEnd, c.id);
      if g == PoolExhausted then ViewRejected(Error(Conflict, "pool_exhausted"))
      else
        var a := ManualAlloc(g.alloc, owner, text, c.now);
        ViewCandidate(v.(allocs := v.allocs[a.port := a]))
    case ReturnPort(port) =>
      if port !in v.allocs then ViewRejected(Error(NotFound, "port_not_allocated"))
      else if ViewReferenced(v, v.allocs[port].id) then ViewRejected(Error(Conflict, "port_in_use"))
      else ViewCandidate(v.(allocs := v.allocs - {port}))
    case _ =>
      var n := p.o.canon(c.op.name);
      if n == None then ViewRejected(Error(Validation, "invalid_hostname")) else ViewNamed(p, v, c, n.value)
  }

  /** The lists represent a map: names, ports and allocated ports are unique. */
  ghost predicate Represents(st: State) {
    Unique(st.lbs, NameKey) && (forall b | b in st.lbs :: Unique(b.mappings, PortKey)) && Unique(st.allocs, AllocKey)
  }

  lemma PortsPlaced(ms: seq<Mapping>, nm: Mapping)
    requires Unique(ms, PortKey)
    ensures var k := MappingIndex(ms, nm.listenPort); var ns := if k >= 0 then ms[k := nm] else ms + [nm];
            Unique(ns, PortKey) && PortsOf(ns) == PortsOf(ms)[nm.listenPort := nm]
  {
    ToMapHolds(ms, PortKey);
    var k := MappingIndex(ms, nm.listenPort);
    if k >= 0 {
      Replaced(ms, k, nm, PortKey);
    } else {
      Appended(ms, nm, PortKey);
    }
  }

  lemma BalancerSet(lbs: seq<LoadBalancer>, i: nat, b: LoadBalancer)
    requires Unique(lbs, NameKey) && i < |lbs| && b.name == lbs[i].name
    ensures Unique(lbs[i := b], NameKey) && BalancersOf(lbs[i := b]) == BalancersOf(lbs)[b.name := BalancerOf(b)]
  {
    Replaced(lbs, i, b, NameKey);
  }

  lemma BalancerAdded(lbs: seq<LoadBalancer>, b: LoadBalancer)
    requires Unique(lbs, NameKey) && b.name !in ToMap(lbs, NameKey)
    ensures BalancersOf(lbs + [b]) == BalancersOf(lbs)[b.name := BalancerOf(b)]
  {
    Appended(lbs, b, NameKey);
  }

  lemma ReferencedInView(st: State, id: string)
    requires Represents(st)
    ensures ViewReferenced(ViewOf(st), id) <==> IsReferenced(st.lbs, id)
    ensures id in Referenced(st.lbs) <==> id != "" && IsReferenced(st.lbs, id)
  {
    var v := ViewOf(st);
    ToMapHolds(st.lbs, NameKey);
    if IsReferenced(st.lbs, id) {
      var b :| b in st.lbs && exists m :: m in b.mappings && m.allocationID == id;
      var m :| m in b.mappings && m.allocationID == id;
      ToMapHolds(b.mappings, PortKey);
      assert b.name in v.lbs && m.listenPort in v.lbs[b.name].ports;
    }
    if ViewReferenced(v, id) {
      var n, q :| n in v.lbs && q in v.lbs[n].ports && v.lbs[n].ports[q].allocationID == id;
      ToMapHolds(ToMap(st.lbs, NameKey)[n].mappings, PortKey);
    }
  }

  lemma {:induction false} KeepUniquePorts(allocs: seq<PortAllocation>, referenced: set<string>)
    requires Unique(allocs, AllocKey)
    ensures Unique(KeepReferenced(allocs, referenced), AllocKey)
  {
    if allocs != [] {
      var n := |allocs| - 1;
      KeepUniquePorts(allocs[..n], referenced);
      forall a | a in KeepReferenced(allocs[..n], referenced) ensures a.port != allocs[n].port {
        KeptExactly(allocs[..n], referenced, a);
      }
    }
  }

  /** Reconcile on the lists is Released on the map. */
  lemma ReconciledInView(st: State)
    requires Represents(st)
    ensures Represents(Reconciled(st)) && ViewOf(Reconciled(st)) == Released(ViewOf(st))
  {
    var v, refs := ViewOf(st), Referenced(st.lbs);
    var kept, want := KeepReferenced(st.allocs, refs), Released(v).allocs;
    KeepUniquePorts(st.allocs, refs);
    ToMapHolds(st.allocs, AllocKey);
    ToMapHolds(kept, AllocKey);
    forall a
      ensures a in kept <==> a in st.allocs && !ViewOrphan(v, a)
    {
      KeptExactly(st.allocs, refs, a);
      ReferencedInView(st, a.id);
    }
    assert Holds(want, kept, AllocKey);
    HoldsOnce(AllocsOf(kept), want, kept, AllocKey);
  }

  lemma PlacedInView(st: State, i: nat, nm: Mapping)
    requires Represents(st) && i < |st.lbs|
    ensures var e := st.(lbs := PlaceMapping(st.lbs, i, nm));
            && Represents(e) && st.lbs[i].name in ViewOf(st).lbs
            && ViewOf(e) == WithMapping(ViewOf(st), st.lbs[i].name, nm)
  {
    PortsPlaced(st.lbs[i].mappings, nm);
    ReplaceInView(st, i, PlaceMapping(st.lbs, i, nm)[i]);
  }

  /** Another list of mappings for load balancer i. */
  lemma ReplaceInView(st: State, i: nat, c: LoadBalancer)
    requires Represents(st) && i < |st.lbs| && c == st.lbs[i].(mappings := c.mappings) && Unique(c.mappings, PortKey)
    ensures Represents(st.(lbs := st.lbs[i := c]))
    ensures c.name in ViewOf(st).lbs && ViewOf(st).lbs[c.name] == BalancerOf(st.lbs[i])
    ensures ViewOf(st.(lbs := st.lbs[i := c])).lbs ==
      ViewOf(st).lbs[c.name := BalancerOf(st.lbs[i]).(ports := PortsOf(c.mappings))]
  {
    BalancerSet(st.lbs, i, c);
    ToMapHolds(st.lbs, NameKey);
    assert st.lbs[i] in st.lbs;
    forall d | d in st.lbs[i := c] ensures Unique(d.mappings, PortKey) {
      assert d == c || d in st.lbs;
    }
  }

  lemma AllocAdded(allocs: seq<PortAllocation>, a: PortAllocation)
    requires Unique(allocs, AllocKey) && a.port !in UsedPorts(allocs)
    ensures Unique(allocs + [a], AllocKey) && AllocsOf(allocs + [a]) == AllocsOf(allocs)[a.port := a]
  {
    UsedAreKeys(allocs);
    Appended(allocs, a, AllocKey);
  }

  lemma UsedAreKeys(allocs: seq<PortAllocation>)
    requires Unique(allocs, AllocKey)
    ensures AllocsOf(allocs).Keys == UsedPorts(allocs)
  {
    ToMapHolds(allocs, AllocKey);
  }

  lemma PutRefines(p: Params, st: State, i: nat, spec: MappingSpec, now: Time, id: string)
    requires Represents(st) && i < |st.lbs| && st.lbs[i].name in ViewOf(st).lbs
    ensures ViewOfEdit(PutAt(p, st, i, spec, now, id)) == ViewPut(p, ViewOf(st), st.lbs[i].name, spec, now, id)
  {
    UsedAreKeys(st.allocs);
    if spec.allocate && GrantIn(p, st, id).Allocated? {
      var a := AutoAlloc(GrantIn(p, st, id).alloc, st.lbs[i].name, spec, now);
      AllocAdded(st.allocs, a);
      PlacedInView(st, i, AutoMapping(spec, a));
      ReconciledInView(st.(lbs := PlaceMapping(st.lbs, i, AutoMapping(spec, a)), allocs := st.allocs + [a]));
    } else if !spec.allocate {
      PlacedInView(st, i, PlainMapping(spec));
      ReconciledInView(st.(lbs := PlaceMapping(st.lbs, i, PlainMapping(spec))));
    }
  }

  lemma DeleteLBRefines(st: State, i: nat)
    requires Represents(st) && i < |st.lbs|
    ensures ViewOf(Reconciled(st.(lbs := RemoveAt(st.lbs, i)))) ==
      Released(ViewOf(st).(lbs := ViewOf(st).lbs - {st.lbs[i].name}))
  {
    Removed(st.lbs, i, NameKey);
    assert ToMap(RemoveAt(st.lbs, i), NameKey) == ToMap(st.lbs, NameKey) - {st.lbs[i].name};
    assert BalancersOf(RemoveAt(st.lbs, i)) == BalancersOf(st.lbs) - {st.lbs[i].name};
    assert forall b | b in RemoveAt(st.lbs, i) :: b in st.lbs;
    ReconciledInView(st.(lbs := RemoveAt(st.lbs, i)));
  }

  lemma DeleteMappingRefines(st: State, i: nat, k: nat)
    requires Represents(st) && i < |st.lbs| && k < |st.lbs[i].mappings| && st.lbs[i].name in ViewOf(st).lbs
    ensures var v := ViewOf(st); var b := st.lbs[i]; var ports := v.lbs[b.name].ports - {b.mappings[k].listenPort};
            ViewOf(Reconciled(st.(lbs := SetMappings(st.lbs, i, RemoveAt(b.mappings, k)))))
            == Released(v.(lbs := v.lbs[b.name := v.lbs[b.name].(ports := ports)]))
  {
    var c := st.lbs[i].(mappings := RemoveAt(st.lbs[i].mappings, k));
    Removed(st.lbs[i].mappings, k, PortKey);
    ReplaceInView(st, i, c);
    ReconciledInView(st.(lbs := st.lbs[i := c]));
  }

  lemma {:induction false} WithoutUniquePorts(allocs: seq<PortAllocation>, port: int)
    requires Unique(allocs, AllocKey)
    ensures Unique(WithoutPort(allocs, port), AllocKey)
  {
    if allocs != [] {
      var n := |allocs| - 1;
      WithoutUniquePorts(allocs[..n], port);
      forall a | a in WithoutPort(allocs[..n], port) ensures a.port != allocs[n].port {
        WithoutPortExactly(allocs[..n], port, a);
      }
    }
  }

  lemma ReturnRefines(allocs: seq<PortAllocation>, port: int)
    requires Unique(allocs, AllocKey)
    ensures AllocsOf(WithoutPort(allocs, port)) == AllocsOf(allocs) - {port}
  {
    var rest, want := WithoutPort(allocs, port), AllocsOf(allocs) - {port};
    forall a ensures a in rest <==> a in allocs && a.port != port {
      WithoutPortExactly(allocs, port, a);
    }
    WithoutUniquePorts(allocs, port);
    ToMapHolds(allocs, AllocKey);
    ToMapHolds(rest, AllocKey);
    assert Holds(want, rest, AllocKey);
    HoldsOnce(AllocsOf(rest), want, rest, AllocKey);
  }

  /** Indices and map keys find the same things. */
  lemma FoundInView(st: State, n: string, port: int)
    requires Represents(st)
    ensures LBIndex(st.lbs, n) >= 0 <==> n in ViewOf(st).lbs
    ensures LBIndex(st.lbs, n) >= 0 ==> ViewOf(st).lbs[n] == BalancerOf(st.lbs[LBIndex(st.lbs, n)])
    ensures LBIndex(st.lbs, n) >= 0 ==>
      (MappingIndex(st.lbs[LBIndex(st.lbs, n)].mappings, port) >= 0 <==> port in ViewOf(st).lbs[n].ports)
    ensures AllocIndex(st.allocs, port) >= 0 <==> port in ViewOf(st).allocs
    ensures AllocIndex(st.allocs, port) >= 0 ==> ViewOf(st).allocs[port] == st.allocs[AllocIndex(st.allocs, port)]
  {
    ToMapHolds(st.lbs, NameKey);
    ToMapHolds(st.allocs, AllocKey);
    var i := LBIndex(st.lbs, n);
    if i >= 0 {
      assert st.lbs[i] in st.lbs;
      ToMapHolds(st.lbs[i].mappings, PortKey);
    }
  }

  /** Every operation on the lists, its error results included, is the map operation: nothing but the map
      decides not-found, duplicate, in-use and exhausted. */
  lemma EditRefines(p: Params, st: State, c: Call)
    requires WellFormed(st)
    ensures ViewOfEdit(EditOf(p, st, c)) == ViewEditOf(p, ViewOf(st), c)
  {
    assert Represents(st);
    match c.op
    case AllocatePort(owner, text) =>
      UsedAreKeys(st.allocs);
      var g := GrantIn(p, st, c.id);
      if g.Allocated? {
        AllocAdded(st.allocs, ManualAlloc(g.alloc, owner, text, c.now));
      }
    case ReturnPort(port) =>
      FoundInView(st, "", port);
      if AllocIndex(st.allocs, port) >= 0 {
        ReferencedInView(st, st.allocs[AllocIndex(st.allocs, port)].id);
        ReturnRefines(st.allocs, port);
      }
    case _ =>
      if p.o.canon(c.op.name).Some? {
        NamedRefines(p, st, c, p.o.canon(c.op.name).value);
      }
  }

  lemma NamedRefines(p: Params, st: State, c: Call, n: string)
    requires Represents(st) && !c.op.AllocatePort? && !c.op.ReturnPort? && p.o.canon(c.op.name) == Some(n)
    ensures ViewOfEdit(EditOf(p, st, c)) == ViewNamed(p, ViewOf(st), c, n)
  {
    var i := LBIndex(st.lbs, n);
    FoundInView(st, n, 0);
    if c.op.CreateLB? {
      if i < 0 { BalancerAdded(st.lbs, LoadBalancer(n, c.op.text, c.now, [])); }
    } else if i >= 0 {
      FoundRefines(p, st, c, i);
    }
  }

  lemma FoundRefines(p: Params, st: State, c: Call, i: nat)
    requires Represents(st) && !c.op.CreateLB? && !c.op.AllocatePort? && !c.op.ReturnPort? && p.o.canon(c.op.name).Some?
    requires i == LBIndex(st.lbs, p.o.canon(c.op.name).value)
    ensures ViewOfEdit(EditOf(p, st, c)) == ViewNamed(p, ViewOf(st), c, p.o.canon(c.op.name).value)
  {
    var n := st.lbs[i].name;
    FoundInView(st, n, 0);
    match c.op
    case UpdateLBLabel(_, text) => BalancerSet(st.lbs, i, st.lbs[i].(labelText := text));
    case DeleteLB(_) => DeleteLBRefines(st, i);
    case PutMapping(_, spec, replace) =>
      FoundInView(st, n, spec.listenPort);
      PutRefines(p, st, i, spec, c.now, c.id);
    case DeleteMapping(_, port) =>
      FoundInView(st, n, port);
      if MappingIndex(st.lbs[i].mappings, port) >= 0 {
        DeleteMappingRefines(st, i, MappingIndex(st.lbs[i].mappings, port));
      }
    case _ =>
  }
}
