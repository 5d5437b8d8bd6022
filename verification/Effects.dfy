/** What an accepted operation means for traffic and for reservations: exactly the named host and port are
    rerouted, and exactly the reservations of removed mappings are freed (internal/txn/txn.go). */
module Effects {
  import opened Model
  import opened Config
  import opened Rules
  import opened Transactions
  import opened Registry
  import opened Routing
  import Keyed
  import Ownership
  import Refinement
  import Router
  import Server

  /** The load balancer an operation is about. */
  function Named(p: Params, op: Op): Option<string> {
    if op.AllocatePort? || op.ReturnPort? then None else p.o.canon(op.name)
  }

  /** The mapping a put leaves behind: the spec's own upstream, or localhost on the least free port of the pool. */
  ghost predicate AsAsked(p: Params, st: State, spec: MappingSpec, id: string, m: Mapping) {
    && m.listenPort == spec.listenPort && m.listenTLS == spec.listenTLS && m.autoAllocated == spec.allocate
    && if spec.allocate then
         && m.allocationID == id
         && m.upstream == Upstream("http", "localhost", m.upstream.port, UpstreamTLS("verify", ""))
         && LeastFree(UsedPorts(st.allocs), p.cfg.poolStart, p.cfg.poolEnd, m.upstream.port)
       else
         m.allocationID == "" && m.upstream == spec.upstream
  }

  /** How an operation may change what is found for (port, host). */
  ghost predicate Rerouted(p: Params, st: State, c: Call, port: int, host: string,
                           before: Option<Mapping>, after: Option<Mapping>) {
    match c.op
    case PutMapping(_, spec, _) =>
      if Named(p, c.op) == Some(host) && port == spec.listenPort then
        after.Some? && AsAsked(p, st, spec, c.id, after.value)
      else
        after == before
    case DeleteMapping(_, gone) =>
      after == if Named(p, c.op) == Some(host) && port == gone then None else before
    case DeleteLB(_) => after == if Named(p, c.op) == Some(host) then None else before
    case _ => after == before
  }

  /** The same lookup in the map view. */
  ghost function At(v: Refinement.View, port: int, host: string): Option<Mapping> {
    if host in v.lbs && port in v.lbs[host].ports then Some(v.lbs[host].ports[port]) else None
  }

  lemma ScanIsView(st: State, port: int, host: string)
    requires Refinement.Represents(st)
    ensures Scan(st, port, host) == At(Refinement.ViewOf(st), port, host)
  {
    Refinement.FoundInView(st, host, port);
    var i := LBIndex(st.lbs, host);
    if i >= 0 {
      assert st.lbs[i] in st.lbs;
      Keyed.ToMapHolds(st.lbs[i].mappings, Refinement.PortKey);
    }
  }

  /** Nothing but what the operation names is rerouted. */
  lemma OperationReroutes(p: Params, st: State, c: Call, port: int, host: string)
    requires WellFormed(st) && Attempt(p, st, c).Candidate?
    ensures Rerouted(p, st, c, port, host, Scan(st, port, host), Scan(Attempt(p, st, c).st, port, host))
  {
    var e := Attempt(p, st, c).st;
    AttemptCommittable(p, st, c);
    Refinement.EditRefines(p, st, c);
    Refinement.UsedAreKeys(st.allocs);
    ScanIsView(st, port, host);
    ScanIsView(e, port, host);
    ViewReroutes(p, st, c, Refinement.ViewOf(st), Refinement.ViewOf(e), port, host);
  }

  lemma ViewReroutes(p: Params, st: State, c: Call, v: Refinement.View, w: Refinement.View, port: int, host: string)
    requires Refinement.ViewEditOf(p, v, c) == Refinement.ViewCandidate(w) && v.allocs.Keys == UsedPorts(st.allocs)
    ensures Rerouted(p, st, c, port, host, At(v, port, host), At(w, port, host))
  {
    match c.op
    case PutMapping(_, spec, _) => PutReroutes(p, st, c, v, w, port, host);
    case DeleteLB(_) =>
    case _ =>
  }

  lemma PutReroutes(p: Params, st: State, c: Call, v: Refinement.View, w: Refinement.View, port: int, host: string)
    requires Named(p, c.op).Some? && Named(p, c.op).value in v.lbs && v.allocs.Keys == UsedPorts(st.allocs)
    requires c.op.PutMapping?
    requires Refinement.ViewPut(p, v, Named(p, c.op).value, c.op.spec, c.now, c.id) == Refinement.ViewCandidate(w)
    ensures Rerouted(p, st, c, port, host, At(v, port, host), At(w, port, host))
  {
    var n, spec := Named(p, c.op).value, c.op.spec;
    if spec.allocate {
      var g := Grant(v.allocs.Keys, p.cfg.poolStart, p.cfg.poolEnd, c.id);
      var m := AutoMapping(spec, AutoAlloc(g.alloc, n, spec, c.now));
      assert w.lbs == Refinement.WithMapping(v, n, m).lbs;
    } else {
      assert w.lbs == Refinement.WithMapping(v, n, PlainMapping(spec)).lbs;
    }
  }

  /** From the operation to the wire: once the accepted state is applied, requests on an open port change in just
      this way, whatever was open before and whatever fails to bind. */
  lemma OperationIsServed(p: Params, st: State, c: Call, before: map<int, bool>, failing: set<int>,
                          active: map<int, bool>, routes: Router.RoutingTable, mgmt: bool, port: int, rawHost: string)
    requires p.coversSet && Normalized(p.cfg) && WellFormed(st) && Attempt(p, st, c).Candidate?
    requires Server.AppliedTo(p.o, p.cfg, Attempt(p, st, c).st, before, failing, active, routes)
    requires port in active && p.o.canon(rawHost).Some?
    ensures var host, r := p.o.canon(rawHost).value, Server.Respond(p.o, p.cfg, mgmt, routes, port, rawHost);
            Rerouted(p, st, c, port, host, Scan(st, port, host), if r.Proxied? then Some(r.route.mapping) else None)
  {
    var e := Attempt(p, st, c).st;
    AttemptCommittable(p, st, c);
    AppliedServesState(p, e, before, failing, active, routes);
    OperationReroutes(p, st, c, port, p.o.canon(rawHost).value);
    assert ProxiedTo(Server.Respond(p.o, p.cfg, mgmt, routes, port, rawHost)) == Scanned(p, e, port, rawHost);
  }

  /** The reservations an operation frees: those of the mapping or load balancer it removes, or the port it returns. */
  ghost predicate Freed(p: Params, st: State, op: Op, a: PortAllocation) {
    match op
    case DeleteLB(_) => a.auto && Named(p, op) == Some(a.owner)
    case DeleteMapping(_, port) => a.auto && Named(p, op) == Some(a.owner) && Uses(st, port, a.owner, a.id)
    case PutMapping(_, spec, _) => a.auto && Named(p, op) == Some(a.owner) && Uses(st, spec.listenPort, a.owner, a.id)
    case ReturnPort(port) => a.port == port
    case _ => false
  }

  /** The mapping of host on port has allocation id. */
  ghost predicate Uses(st: State, port: int, host: string, id: string) {
    Scan(st, port, host).Some? && Scan(st, port, host).value.allocationID == id
  }

  lemma ReferencedIsUsed(st: State, id: string)
    requires WellFormed(st) && id != ""
    ensures id in Referenced(st.lbs) <==> exists port, host :: Uses(st, port, host, id)
  {
    if id in Referenced(st.lbs) {
      var b, m :| b in st.lbs && m in b.mappings && m.allocationID == id;
      ScanFinds(st, b, m);
      assert Uses(st, m.listenPort, b.name, id);
    }
    if port, host :| Uses(st, port, host, id) {
      assert st.lbs[LBIndex(st.lbs, host)] in st.lbs;
    }
  }

  /** In an owned state an automatic reservation is used on one port of its owner, and nowhere else. */
  lemma OnePlace(st: State, a: PortAllocation) returns (at: int)
    requires WellFormed(st) && Ownership.Owned(st) && a in st.allocs && a.auto
    ensures forall port, host :: Uses(st, port, host, a.id) <==> port == at && host == a.owner
  {
    Ownership.Bijection(st);
    assert Ownership.ServesOne(st, a);
    var b, m :| b in st.lbs && m in b.mappings && Ownership.Linked(b, m, a) &&
      forall c, n | c in st.lbs && n in c.mappings && n.allocationID == a.id :: c == b && n == m;
    at := m.listenPort;
    ScanFinds(st, b, m);
    forall port, host
      ensures Uses(st, port, host, a.id) <==> port == at && host == a.owner
    {
      if Uses(st, port, host, a.id) {
        ScannedIsThere(st, port, host);
      }
    }
  }

  lemma ScannedIsThere(st: State, port: int, host: string)
    requires Scan(st, port, host).Some?
    ensures exists b :: b in st.lbs && b.name == host && Scan(st, port, host).value in b.mappings
    ensures Scan(st, port, host).value.listenPort == port
  {
    assert st.lbs[LBIndex(st.lbs, host)] in st.lbs;
  }

  /** The new reservation's id is no old one's. */
  lemma PutIdIsNew(p: Params, st: State, c: Call)
    requires WellFormed(st) && c.id != "" && Attempt(p, st, c).Candidate? && c.op.PutMapping? && c.op.spec.allocate
    ensures !HasId(st.allocs, c.id)
  {
    AttemptCommittable(p, st, c);
    var i := LBIndex(st.lbs, p.o.canon(c.op.name).value);
    var a := AutoAlloc(GrantIn(p, st, c.id).alloc, st.lbs[i].name, c.op.spec, c.now);
    Ownership.FreshId(st, i, AutoMapping(c.op.spec, a), a);
  }

  /** Removals cascade exactly: an old reservation survives an accepted operation unless it is freed by it. */
  lemma OperationFrees(p: Params, st: State, c: Call, a: PortAllocation)
    requires WellFormed(st) && Ownership.Owned(st) && c.id != "" && Attempt(p, st, c).Candidate? && a in st.allocs
    ensures a in Attempt(p, st, c).st.allocs <==> !Freed(p, st, c.op, a)
  {
    AttemptCommittable(p, st, c);
    match c.op
    case ReturnPort(port) => WithoutPortExactly(st.allocs, port, a);
    case CreateLB(_, _) =>
    case UpdateLBLabel(_, _) =>
    case AllocatePort(_, _) =>
    case _ =>
      SurvivesIfReferenced(p, st, c, a);
      if a.auto {
        ReferencedAfter(p, st, c, a);
      }
  }

  lemma SurvivesIfReferenced(p: Params, st: State, c: Call, a: PortAllocation)
    requires WellFormed(st) && Attempt(p, st, c).Candidate? && a in st.allocs
    requires c.op.DeleteLB? || c.op.DeleteMapping? || c.op.PutMapping?
    ensures var e := Attempt(p, st, c).st; a in e.allocs <==> !Orphan(a, Referenced(e.lbs))
  {
    var e := Attempt(p, st, c).st;
    if c.op.PutMapping? && c.op.spec.allocate {
      var i := LBIndex(st.lbs, p.o.canon(c.op.name).value);
      var g := AutoAlloc(GrantIn(p, st, c.id).alloc, st.lbs[i].name, c.op.spec, c.now);
      KeptExactly(st.allocs + [g], Referenced(e.lbs), a);
    } else {
      KeptExactly(st.allocs, Referenced(e.lbs), a);
    }
  }

  lemma ReferencedAfter(p: Params, st: State, c: Call, a: PortAllocation)
    requires WellFormed(st) && Ownership.Owned(st) && c.id != "" && Attempt(p, st, c).Candidate?
    requires a in st.allocs && a.auto && (c.op.DeleteLB? || c.op.DeleteMapping? || c.op.PutMapping?)
    ensures a.id in Referenced(Attempt(p, st, c).st.lbs) <==> !Freed(p, st, c.op, a)
  {
    var e := Attempt(p, st, c).st;
    AttemptCommittable(p, st, c);
    var at := OnePlace(st, a);
    forall port, host
      ensures Uses(e, port, host, a.id) <==> port == at && host == a.owner && !Freed(p, st, c.op, a)
    {
      UsedAfter(p, st, c, a, at, port, host);
    }
    UsedOnlyAt(e, a.id, at, a.owner, Freed(p, st, c.op, a));
  }

  lemma UsedOnlyAt(e: State, id: string, at: int, owner: string, freed: bool)
    requires WellFormed(e) && id != ""
    requires forall port, host :: Uses(e, port, host, id) <==> port == at && host == owner && !freed
    ensures id in Referenced(e.lbs) <==> !freed
  {
    ReferencedIsUsed(e, id);
    assert Uses(e, at, owner, id) <==> !freed;
  }

  lemma UsedAfter(p: Params, st: State, c: Call, a: PortAllocation, at: int, port: int, host: string)
    requires WellFormed(st) && c.id != "" && Attempt(p, st, c).Candidate?
    requires a in st.allocs && a.auto && a.id != "" && (c.op.DeleteLB? || c.op.DeleteMapping? || c.op.PutMapping?)
    requires forall q, h :: Uses(st, q, h, a.id) <==> q == at && h == a.owner
    ensures Uses(Attempt(p, st, c).st, port, host, a.id) <==> port == at && host == a.owner && !Freed(p, st, c.op, a)
  {
    if c.op.PutMapping? && c.op.spec.allocate {
      PutIdIsNew(p, st, c);
      assert a.id != c.id;
    }
    OperationReroutes(p, st, c, port, host);
    assert Uses(st, port, host, a.id) <==> port == at && host == a.owner;
    match c.op
    case DeleteMapping(_, gone) => assert Uses(st, gone, a.owner, a.id) <==> gone == at;
    case PutMapping(_, spec, _) => assert Uses(st, spec.listenPort, a.owner, a.id) <==> spec.listenPort == at;
    case _ =>
  }

  /** The reservation an operation makes, in every field. */
  ghost predicate AddedBy(p: Params, st: State, c: Call, b: PortAllocation) {
    && b.id == c.id && b.allocatedAt == c.now
    && LeastFree(UsedPorts(st.allocs), p.cfg.poolStart, p.cfg.poolEnd, b.port)
    && match c.op
       case AllocatePort(owner, text) => b.owner == owner && b.labelText == text && !b.auto
       case PutMapping(_, spec, _) =>
         spec.allocate && Named(p, c.op) == Some(b.owner) && b.labelText == spec.allocLabel && b.auto
       case _ => false
  }

  lemma LeastFreeOnce(used: set<int>, start: int, end: int, p: int, q: int)
    requires LeastFree(used, start, end, p) && LeastFree(used, start, end, q)
    ensures p == q
  {
  }

  /** Conversely, what an accepted operation adds is exactly the one reservation it asked for. */
  lemma OperationAdds(p: Params, st: State, c: Call, b: PortAllocation)
    requires WellFormed(st) && c.id != "" && Attempt(p, st, c).Candidate?
    ensures b in Attempt(p, st, c).st.allocs && b !in st.allocs <==> AddedBy(p, st, c, b)
  {
    var e := Attempt(p, st, c).st;
    AttemptCommittable(p, st, c);
    match c.op
    case ReturnPort(port) => WithoutPortExactly(st.allocs, port, b);
    case AllocatePort(owner, text) => OnlyNew(p, st, c, ManualAlloc(GrantIn(p, st, c.id).alloc, owner, text, c.now), b);
    case CreateLB(_, _) =>
    case UpdateLBLabel(_, _) =>
    case PutMapping(_, spec, _) =>
      if spec.allocate { PutAdds(p, st, c, b); } else { KeptExactly(st.allocs, Referenced(e.lbs), b); }
    case _ => KeptExactly(st.allocs, Referenced(e.lbs), b);
  }

  lemma PutAdds(p: Params, st: State, c: Call, b: PortAllocation)
    requires WellFormed(st) && c.id != "" && Attempt(p, st, c).Candidate? && c.op.PutMapping? && c.op.spec.allocate
    ensures b in Attempt(p, st, c).st.allocs && b !in st.allocs <==> AddedBy(p, st, c, b)
  {
    var e, n := Attempt(p, st, c).st, p.o.canon(c.op.name).value;
    AttemptCommittable(p, st, c);
    var g := AutoAlloc(GrantIn(p, st, c.id).alloc, n, c.op.spec, c.now);
    KeptExactly(st.allocs + [g], Referenced(e.lbs), b);
    OnlyNew(p, st, c, g, b);
    OperationReroutes(p, st, c, c.op.spec.listenPort, n);
    assert Uses(e, c.op.spec.listenPort, n, c.id);
    ReferencedIsUsed(e, c.id);
  }

  /** The allocation AllocatePort returns is that one. */
  lemma GrantedIsAdded(p: Params, st: State, c: Call)
    requires c.op.AllocatePort? && Attempt(p, st, c).Candidate?
    ensures Granted(p, st, c).Some? && AddedBy(p, st, c, Granted(p, st, c).value)
  {
    AttemptCommittable(p, st, c);
  }

  lemma OnlyNew(p: Params, st: State, c: Call, g: PortAllocation, b: PortAllocation)
    requires AddedBy(p, st, c, g)
    ensures b in st.allocs + [g] && b !in st.allocs <==> AddedBy(p, st, c, b)
  {
    if AddedBy(p, st, c, b) {
      LeastFreeOnce(UsedPorts(st.allocs), p.cfg.poolStart, p.cfg.poolEnd, g.port, b.port);
      assert b == g;
    }
  }
}
