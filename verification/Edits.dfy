/** The edits of the transaction engine (internal/txn/txn.go), made in place on a clone of the published
    snapshot, each proved against the edit on values. */
module Edits {
  import opened Model
  import opened Heap
  import opened Transactions
  import opened Rules
  import Registry

  /** The edit went through and left st, or it stopped with an error. */
  ghost predicate Made(e: Edit, st: State, err: Option<Error>) {
    match err
    case None => e == Candidate(st)
    case Some(x) => e == Rejected(x)
  }

  /** Clone the snapshot and edit the clone; nothing that existed before is touched. */
  method Make(p: Params, snap: StateObj, call: Call)
    returns (cand: StateObj, err: Option<Error>, got: Option<PortAllocation>)
    requires snap.Valid()
    ensures cand.Valid() && fresh(cand.Repr)
    ensures Made(EditOf(p, snap.View(), call), cand.View(), err)
    ensures got == Granted(p, snap.View(), call)
  {
    cand := snap.Clone();
    err, got := Perform(p, cand, call);
  }

  /** got: the allocation AllocatePort returns. */
  method Perform(p: Params, c: StateObj, call: Call) returns (err: Option<Error>, got: Option<PortAllocation>)
    requires c.Valid()
    modifies c.Repr
    ensures c.Valid() && fresh(c.Repr - old(c.Repr))
    ensures Made(EditOf(p, old(c.View()), call), c.View(), err)
    ensures got == Granted(p, old(c.View()), call)
  {
    got := None;
    match call.op {
      case CreateLB(name, text) => err := CreateLB(p, c, name, text, call.now);
      case UpdateLBLabel(name, text) => err := UpdateLBLabel(p, c, name, text);
      case DeleteLB(name) => err := DeleteLB(p, c, name);
      case PutMapping(name, spec, replace) => err := PutMapping(p, c, name, spec, replace, call.now, call.id);
      case DeleteMapping(name, listenPort) => err := DeleteMapping(p, c, name, listenPort);
      case AllocatePort(owner, text) => err, got := AllocatePort(p, c, owner, text, call.now, call.id);
      case ReturnPort(port) => err := ReturnPort(c, port);
    }
  }

  method CreateLB(p: Params, c: StateObj, name: string, text: string, now: Time) returns (err: Option<Error>)
    requires c.Valid()
    modifies c.Repr
    ensures c.Valid() && fresh(c.Repr - old(c.Repr))
    ensures Made(EditCreateLB(p, old(c.View()), name, text, now), c.View(), err)
  {
    var cn := p.o.canon(name);
    if cn == None {
      return Some(INVALID_HOSTNAME.err);
    }
    var i := c.FindLB(cn.value);
    if i >= 0 {
      return Some(Error(Conflict, "duplicate_lb"));
    }
    c.AppendLB(Cell(cn.value, text, now, Slice(null, 0)));
    err := None;
  }

  method UpdateLBLabel(p: Params, c: StateObj, name: string, text: string) returns (err: Option<Error>)
    requires c.Valid()
    modifies c.Repr
    ensures c.Valid() && fresh(c.Repr - old(c.Repr))
    ensures Made(EditUpdateLBLabel(p, old(c.View()), name, text), c.View(), err)
  {
    var cn := p.o.canon(name);
    if cn == None {
      return Some(INVALID_HOSTNAME.err);
    }
    var i := c.FindLB(cn.value);
    if i < 0 {
      return Some(LB_NOT_FOUND.err);
    }
    c.SetLabel(i, text);
    err := None;
  }

  method DeleteLB(p: Params, c: StateObj, name: string) returns (err: Option<Error>)
    requires c.Valid()
    modifies c.Repr
    ensures c.Valid() && fresh(c.Repr - old(c.Repr))
    ensures Made(EditDeleteLB(p, old(c.View()), name), c.View(), err)
  {
    var cn := p.o.canon(name);
    if cn == None {
      return Some(INVALID_HOSTNAME.err);
    }
    var i := c.FindLB(cn.value);
    if i < 0 {
      return Some(LB_NOT_FOUND.err);
    }
    CutLB(c, i);
    err := None;
  }

  method CutLB(c: StateObj, i: nat)
    requires c.Valid() && i < c.lbs.len
    modifies c.Repr
    ensures c.Valid() && fresh(c.Repr - old(c.Repr))
    ensures c.View() == Registry.Reconciled(old(c.View()).(lbs := RemoveAt(old(c.LBs()), i)))
  {
    c.RemoveLB(i);
    DropOrphans(c);
  }

  /** cand.PortAllocations, _ = registry.Reconcile(cand). */
  method DropOrphans(c: StateObj)
    requires c.Valid()
    modifies c
    ensures c.Valid() && fresh(c.Repr - old(c.Repr)) && c.View() == Registry.Reconciled(old(c.View()))
  {
    var kept, _ := Registry.Reconcile(c.View());
    c.SetAllocs(kept);
  }

  method PutMapping(p: Params, c: StateObj, name: string, spec: MappingSpec, replace: bool, now: Time, id: string)
    returns (err: Option<Error>)
    requires c.Valid()
    modifies c.Repr
    ensures c.Valid() && fresh(c.Repr - old(c.Repr))
    ensures Made(EditPutMapping(p, old(c.View()), name, spec, replace, now, id), c.View(), err)
  {
    var cn := p.o.canon(name);
    if cn == None {
      return Some(INVALID_HOSTNAME.err);
    }
    var i := c.FindLB(cn.value);
    if i < 0 {
      return Some(LB_NOT_FOUND.err);
    }
    err := PutInto(p, c, i, spec, replace, now, id);
  }

  method PutInto(p: Params, c: StateObj, i: nat, spec: MappingSpec, replace: bool, now: Time, id: string)
    returns (err: Option<Error>)
    requires c.Valid() && i < c.lbs.len
    modifies c.Repr
    ensures c.Valid() && fresh(c.Repr - old(c.Repr))
    ensures Made(PutFound(p, old(c.View()), i, spec, replace, now, id), c.View(), err)
  {
    var k := c.FindMapping(i, spec.listenPort);
    if !replace && k >= 0 {
      return Some(Error(Conflict, "mapping_exists"));
    }
    err := Put(p, c, i, k, spec, now, id);
  }

  method Put(p: Params, c: StateObj, i: nat, k: int, spec: MappingSpec, now: Time, id: string)
    returns (err: Option<Error>)
    requires c.Valid() && i < c.lbs.len && k == MappingIndex(c.LBAt(i).mappings, spec.listenPort)
    modifies c.Repr
    ensures c.Valid() && fresh(c.Repr - old(c.Repr))
    ensures Made(PutAt(p, old(c.View()), i, spec, now, id), c.View(), err)
  {
    if spec.allocate {
      var g := Registry.Allocate(c.View().allocs, p.cfg.poolStart, p.cfg.poolEnd, id);
      if g == Registry.PoolExhausted {
        return Some(POOL_EXHAUSTED.err);
      }
      Reserve(c, i, k, AutoAlloc(g.alloc, c.LBAt(i).name, spec, now), spec);
    } else {
      Place(c, i, k, PlainMapping(spec));
      DropOrphans(c);
    }
    err := None;
  }

  /** Append the allocation and wire the mapping to it. */
  method Reserve(c: StateObj, i: nat, k: int, a: PortAllocation, spec: MappingSpec)
    requires c.Valid() && i < c.lbs.len && k == MappingIndex(c.LBAt(i).mappings, spec.listenPort)
    modifies c.Repr
    ensures c.Valid() && fresh(c.Repr - old(c.Repr))
    ensures c.View() == Registry.Reconciled(old(c.View()).(
      lbs := PlaceMapping(old(c.LBs()), i, AutoMapping(spec, a)), allocs := old(c.View()).allocs + [a]))
  {
    ghost var lbs := c.LBs();
    c.AppendAlloc(a);
    assert c.LBs() == lbs && c.LBAt(i) == lbs[i];
    Place(c, i, k, AutoMapping(spec, a));
    DropOrphans(c);
  }

  /** lb.Mappings[k] = nm, or append where there is no k. */
  method Place(c: StateObj, i: nat, k: int, nm: Mapping)
    requires c.Valid() && i < c.lbs.len && k == MappingIndex(c.LBAt(i).mappings, nm.listenPort)
    modifies c.Repr
    ensures c.Valid() && fresh(c.Repr - old(c.Repr))
    ensures c.View() == old(c.View()).(lbs := PlaceMapping(old(c.LBs()), i, nm))
  {
    if k >= 0 {
      c.SetMapping(i, k, nm);
    } else {
      c.AppendMapping(i, nm);
    }
  }

  method DeleteMapping(p: Params, c: StateObj, name: string, listenPort: int) returns (err: Option<Error>)
    requires c.Valid()
    modifies c.Repr
    ensures c.Valid() && fresh(c.Repr - old(c.Repr))
    ensures Made(EditDeleteMapping(p, old(c.View()), name, listenPort), c.View(), err)
  {
    var cn := p.o.canon(name);
    if cn == None {
      return Some(INVALID_HOSTNAME.err);
    }
    var i := c.FindLB(cn.value);
    if i < 0 {
      return Some(LB_NOT_FOUND.err);
    }
    var k := c.FindMapping(i, listenPort);
    if k < 0 {
      return Some(Error(NotFound, "mapping_not_found"));
    }
    CutMapping(c, i, k);
    err := None;
  }

  method CutMapping(c: StateObj, i: nat, k: nat)
    requires c.Valid() && i < c.lbs.len && k < |c.LBAt(i).mappings|
    modifies c.Repr
    ensures c.Valid() && fresh(c.Repr - old(c.Repr))
    ensures c.View() == Registry.Reconciled(old(c.View()).(
      lbs := SetMappings(old(c.LBs()), i, RemoveAt(old(c.LBAt(i)).mappings, k))))
  {
    c.RemoveMapping(i, k);
    DropOrphans(c);
  }

  method AllocatePort(p: Params, c: StateObj, owner: string, text: string, now: Time, id: string)
    returns (err: Option<Error>, got: Option<PortAllocation>)
    requires c.Valid()
    modifies c.Repr
    ensures c.Valid() && fresh(c.Repr - old(c.Repr))
    ensures Made(EditAllocatePort(p, old(c.View()), owner, text, now, id), c.View(), err)
    ensures got == Granted(p, old(c.View()), Call(Op.AllocatePort(owner, text), now, id))
  {
    var g := Registry.Allocate(c.View().allocs, p.cfg.poolStart, p.cfg.poolEnd, id);
    if g == Registry.PoolExhausted {
      return Some(POOL_EXHAUSTED.err), None;
    }
    var a := ManualAlloc(g.alloc, owner, text, now);
    c.AppendAlloc(a);
    err, got := None, Some(a);
  }

  method ReturnPort(c: StateObj, port: int) returns (err: Option<Error>)
    requires c.Valid()
    modifies c.Repr
    ensures c.Valid() && fresh(c.Repr - old(c.Repr))
    ensures Made(EditReturnPort(old(c.View()), port), c.View(), err)
  {
    var st := c.View();
    var i := Registry.AllocationByPort(st.allocs, port);
    if i < 0 {
      return Some(Error(NotFound, "port_not_allocated"));
    }
    assert st.allocs[i] in st.allocs && port in Registry.UsedPorts(st.allocs);
    var used := Registry.IsAllocationReferenced(st, st.allocs[i].id);
    if used {
      return Some(Error(Conflict, "port_in_use"));
    }
    var out, found := Registry.Return(st.allocs, port);
    c.SetAllocs(out);
    err := None;
  }
}
