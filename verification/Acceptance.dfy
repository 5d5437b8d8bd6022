/** When an operation on a committed state is accepted, for every operation, said of the request, the state and the
    oracles only (internal/txn/txn.go, internal/txn/validate.go). */
module Acceptance {
  import opened Model
  import opened Config
  import opened Rules
  import opened Transactions
  import opened Registry
  import Ownership
  import Removal

  /** Some port of the pool is not allocated. */
  ghost predicate PoolHasRoom(c: Config, allocs: seq<PortAllocation>) {
    exists q :: InPool(c, q) && q !in UsedPorts(allocs)
  }

  /** The name is new, canonical and not the management host's. */
  ghost predicate CreateOk(p: Params, st: State, name: string) {
    exists n :: p.o.canon(name) == Some(n) && NewName(p, st, n)
  }

  ghost predicate NewName(p: Params, st: State, n: string) {
    && n != "" && p.o.canon(n) == Some(n) && !(p.cfg.mgmtHost != "" && n == p.cfg.mgmtHost)
    && forall b | b in st.lbs :: b.name != n
  }

  ghost predicate IsNamed(p: Params, st: State, name: string) {
    exists b :: b in st.lbs && p.o.canon(name) == Some(b.name)
  }

  /** The load balancer exists and has no mapping on the port, or is asked to replace it; the port may be listened
      on in that mode, by nobody else in the other; the certificate covers the name; and the upstream is allowed, or
      localhost is and a port can be reserved under a fresh id. An empty id would reserve nothing. */
  ghost predicate PutOk(p: Params, st: State, name: string, spec: MappingSpec, replace: bool, id: string) {
    exists b :: b in st.lbs && p.o.canon(name) == Some(b.name) && PutOn(p, st, b, spec, replace, id)
  }

  ghost predicate PutOn(p: Params, st: State, b: LoadBalancer, spec: MappingSpec, replace: bool, id: string) {
    && (replace || forall m | m in b.mappings :: m.listenPort != spec.listenPort)
    && PortAllowed(p.cfg, spec.listenPort, spec.listenTLS)
    && OthersAgree(st, b.name, spec.listenPort, spec.listenTLS)
    && (spec.listenTLS && p.coversSet ==> p.o.covers(b.name))
    && if spec.allocate then
         p.o.hostAllowed("localhost") && PoolHasRoom(p.cfg, st.allocs) && (id == "" || !HasId(st.allocs, id))
       else
         UpstreamAllowed(p.o, spec.upstream)
  }

  /** Every other load balancer that maps the port does so in this mode. */
  ghost predicate OthersAgree(st: State, name: string, port: int, tls: bool) {
    forall b, m | b in st.lbs && b.name != name && m in b.mappings && m.listenPort == port :: m.listenTLS == tls
  }

  ghost predicate DeleteMappingOk(p: Params, st: State, name: string, port: int) {
    exists b, m :: b in st.lbs && p.o.canon(name) == Some(b.name) && m in b.mappings && m.listenPort == port
  }

  ghost predicate ReturnOk(st: State, port: int) {
    exists a :: a in st.allocs && a.port == port &&
      forall b, m | b in st.lbs && m in b.mappings :: m.allocationID != a.id
  }

  /** What each operation asks for. */
  ghost predicate RequestOk(p: Params, st: State, c: Call) {
    match c.op
    case CreateLB(name, _) => CreateOk(p, st, name)
    case UpdateLBLabel(name, _) => IsNamed(p, st, name)
    case DeleteLB(name) => IsNamed(p, st, name)
    case PutMapping(name, spec, replace) => PutOk(p, st, name, spec, replace, c.id)
    case DeleteMapping(name, port) => DeleteMappingOk(p, st, name, port)
    case AllocatePort(_, _) => PoolHasRoom(p.cfg, st.allocs) && c.id != "" && !HasId(st.allocs, c.id)
    case ReturnPort(port) => ReturnOk(st, port)
  }

  /** On a committed state an operation is accepted if and only if its request is in order. */
  lemma AcceptedIff(p: Params, st: State, c: Call)
    requires Committable(p, st) && Normalized(p.cfg)
    ensures Attempt(p, st, c).Candidate? <==> RequestOk(p, st, c)
  {
    match c.op
    case CreateLB(name, text) => CreateIff(p, st, c, name, text);
    case UpdateLBLabel(name, text) => LabelIff(p, st, c, name, text);
    case DeleteLB(name) => Removal.RemovalIsTotal(p, st, c);
    case PutMapping(name, spec, replace) => PutIff(p, st, c, name, spec, replace);
    case DeleteMapping(name, port) => DeleteMappingIff(p, st, c, name, port);
    case AllocatePort(owner, text) => AllocateIff(p, st, c, owner, text);
    case ReturnPort(port) => ReturnIff(p, st, c, port);
  }

  /** An edit that went through is accepted if and only if what it leaves is committable. */
  lemma AcceptedIsCommittable(p: Params, st: State, c: Call, e: State)
    requires EditOf(p, st, c) == Candidate(e)
    ensures Attempt(p, st, c).Candidate? <==> Committable(p, e)
  {
    AcceptsIff(p, e);
  }

  lemma CreateIff(p: Params, st: State, c: Call, name: string, text: string)
    requires Committable(p, st) && c.op == Op.CreateLB(name, text)
    ensures Attempt(p, st, c).Candidate? <==> CreateOk(p, st, name)
  {
    if EditCreateLB(p, st, name, text, c.now).Candidate? {
      var b := LoadBalancer(p.o.canon(name).value, text, c.now, []);
      AcceptedIsCommittable(p, st, c, st.(lbs := st.lbs + [b]));
      AppendedCommittable(p, st, b);
    }
  }

  lemma AppendedCommittable(p: Params, st: State, b: LoadBalancer)
    requires Committable(p, st) && b.mappings == [] && forall d | d in st.lbs :: d.name != b.name
    ensures Committable(p, st.(lbs := st.lbs + [b])) <==> b.name != "" && NameError(p, b.name) == None
  {
    var lbs := st.lbs + [b];
    assert forall d :: d in lbs <==> d in st.lbs || d == b;
    assert b in lbs && CompliantBalancer(p, b) == (NameError(p, b.name) == None);
    forall i, j | 0 <= i < j < |lbs| ensures lbs[i].name != lbs[j].name {
      assert lbs[i] in st.lbs;
    }
    assert forall d, e | d in lbs && e in lbs :: SameModes(d.mappings, e.mappings) by {
      assert forall d, e | d in st.lbs && e in st.lbs :: SameModes(d.mappings, e.mappings);
    }
    if b.name != "" && NameError(p, b.name) == None {
      assert WellFormed(st.(lbs := lbs));
    }
  }

  lemma LabelIff(p: Params, st: State, c: Call, name: string, text: string)
    requires Committable(p, st) && c.op == Op.UpdateLBLabel(name, text)
    ensures Attempt(p, st, c).Candidate? <==> IsNamed(p, st, name)
  {
    if EditUpdateLBLabel(p, st, name, text).Candidate? {
      var i := LBIndex(st.lbs, p.o.canon(name).value);
      var b := st.lbs[i].(labelText := text);
      AcceptedIsCommittable(p, st, c, st.(lbs := st.lbs[i := b]));
      RelabelledCommittable(p, st, i, b);
    }
  }

  lemma RelabelledCommittable(p: Params, st: State, i: nat, b: LoadBalancer)
    requires Committable(p, st) && i < |st.lbs| && b.name == st.lbs[i].name && b.mappings == st.lbs[i].mappings
    ensures Committable(p, st.(lbs := st.lbs[i := b]))
  {
    var lbs := st.lbs[i := b];
    RelabelledShape(st.lbs, i, b);
    Ownership.ReplaceShrinks(st.lbs, i, b);
    Removal.ShrunkFacts(p, lbs, st.lbs, st.allocs);
  }

  lemma RelabelledShape(lbs: seq<LoadBalancer>, i: nat, b: LoadBalancer)
    requires NamesOk(lbs) && (forall d | d in lbs :: PortsOk(d.mappings))
    requires i < |lbs| && b.name == lbs[i].name && b.mappings == lbs[i].mappings
    ensures NamesOk(lbs[i := b]) && forall d | d in lbs[i := b] :: PortsOk(d.mappings)
  {
    var ls := lbs[i := b];
    assert lbs[i] in lbs;
    forall d | d in ls ensures d.name != "" && PortsOk(d.mappings) {
      assert d == b || d in lbs;
    }
    forall j, k | 0 <= j < k < |ls| ensures ls[j].name != ls[k].name {
      assert lbs[j].name != lbs[k].name;
    }
  }

  lemma DeleteMappingIff(p: Params, st: State, c: Call, name: string, port: int)
    requires Committable(p, st) && c.op == Op.DeleteMapping(name, port)
    ensures Attempt(p, st, c).Candidate? <==> DeleteMappingOk(p, st, name, port)
  {
    Removal.RemovalIsTotal(p, st, c);
    if DeleteMappingOk(p, st, name, port) {
      var b, m :| b in st.lbs && p.o.canon(name) == Some(b.name) && m in b.mappings && m.listenPort == port;
      NamedOnce(st.lbs, b);
    }
    if EditDeleteMapping(p, st, name, port).Candidate? {
      var b := st.lbs[LBIndex(st.lbs, p.o.canon(name).value)];
      assert b in st.lbs && b.mappings[MappingIndex(b.mappings, port)] in b.mappings;
    }
  }

  lemma NamedOnce(lbs: seq<LoadBalancer>, b: LoadBalancer)
    requires NamesOk(lbs) && b in lbs
    ensures LBIndex(lbs, b.name) >= 0 && lbs[LBIndex(lbs, b.name)] == b
  {
    var i :| 0 <= i < |lbs| && lbs[i] == b;
  }

  lemma ReturnIff(p: Params, st: State, c: Call, port: int)
    requires Committable(p, st) && c.op == Op.ReturnPort(port)
    ensures Attempt(p, st, c).Candidate? <==> ReturnOk(st, port)
  {
    Removal.RemovalIsTotal(p, st, c);
    var i := AllocIndex(st.allocs, port);
    if i >= 0 {
      assert st.allocs[i] in st.allocs;
      assert forall a | a in st.allocs && a.port == port :: a == st.allocs[i];
    }
  }

  lemma GrantedIff(p: Params, st: State, id: string)
    ensures GrantIn(p, st, id).Allocated? <==> PoolHasRoom(p.cfg, st.allocs)
  {
    if GrantIn(p, st, id).Allocated? {
      assert InPool(p.cfg, GrantIn(p, st, id).alloc.port);
    }
  }

  lemma AllocateIff(p: Params, st: State, c: Call, owner: string, text: string)
    requires Committable(p, st) && c.op == Op.AllocatePort(owner, text)
    ensures Attempt(p, st, c).Candidate? <==> PoolHasRoom(p.cfg, st.allocs) && c.id != "" && !HasId(st.allocs, c.id)
  {
    GrantedIff(p, st, c.id);
    if GrantIn(p, st, c.id).Allocated? {
      var a := ManualAlloc(GrantIn(p, st, c.id).alloc, owner, text, c.now);
      AcceptedIsCommittable(p, st, c, st.(allocs := st.allocs + [a]));
      ReservedWellFormed(st, a);
    }
  }

  lemma ReservedWellFormed(st: State, a: PortAllocation)
    requires WellFormed(st) && a.port !in UsedPorts(st.allocs)
    ensures AllocsOk(st.allocs + [a]) <==> a.id != "" && !HasId(st.allocs, a.id)
    ensures WellFormed(st.(allocs := st.allocs + [a])) <==> a.id != "" && !HasId(st.allocs, a.id)
  {
    var all, n := st.allocs + [a], |st.allocs|;
    assert all[n] == a && forall j | 0 <= j < n :: all[j] == st.allocs[j] && all[j] in st.allocs;
    assert forall e :: e in all <==> e in st.allocs || e == a;
    if HasId(st.allocs, a.id) {
      var j :| 0 <= j < n && st.allocs[j].id == a.id;
      assert all[j].id == all[n].id;
    }
    forall id | HasId(st.allocs, id) ensures HasId(all, id) {
      var e :| e in st.allocs && e.id == id;
      assert e in all;
    }
  }

  lemma PutIff(p: Params, st: State, c: Call, name: string, spec: MappingSpec, replace: bool)
    requires Committable(p, st) && Normalized(p.cfg) && c.op == Op.PutMapping(name, spec, replace)
    ensures Attempt(p, st, c).Candidate? <==> PutOk(p, st, name, spec, replace, c.id)
  {
    if PutOk(p, st, name, spec, replace, c.id) {
      var b :| b in st.lbs && p.o.canon(name) == Some(b.name) && PutOn(p, st, b, spec, replace, c.id);
      NamedOnce(st.lbs, b);
    }
    if p.o.canon(name).Some? && LBIndex(st.lbs, p.o.canon(name).value) >= 0 {
      var i := LBIndex(st.lbs, p.o.canon(name).value);
      PutAtIff(p, st, c, i, spec, replace);
      forall b | b in st.lbs && b.name == st.lbs[i].name ensures b == st.lbs[i] {
        NamedOnce(st.lbs, b);
      }
      assert st.lbs[i] in st.lbs;
    }
  }

  lemma PutAtIff(p: Params, st: State, c: Call, i: nat, spec: MappingSpec, replace: bool)
    requires Committable(p, st) && Normalized(p.cfg) && i < |st.lbs| && c.op.PutMapping?
    requires EditOf(p, st, c) == PutFound(p, st, i, spec, replace, c.now, c.id)
    ensures Attempt(p, st, c).Candidate? <==> PutOn(p, st, st.lbs[i], spec, replace, c.id)
  {
    GrantedIff(p, st, c.id);
    if PutFound(p, st, i, spec, replace, c.now, c.id).Candidate? {
      var e := PutFound(p, st, i, spec, replace, c.now, c.id).st;
      AcceptedIsCommittable(p, st, c, e);
      if spec.allocate {
        PutReservedIff(p, st, i, spec, AutoAlloc(GrantIn(p, st, c.id).alloc, st.lbs[i].name, spec, c.now));
      } else {
        var nm := PlainMapping(spec);
        PlacedIff(p, st, i, nm);
        Placed(p, st, i, nm, st.allocs);
        RulesOfMappings(p, st.lbs[i].name, nm);
      }
    }
  }

  /** The put of nm on load balancer i keeps names and ports unique, one mode per port if the others agree, and every
      rule if nm obeys them. */
  lemma PlacedIff(p: Params, st: State, i: nat, nm: Mapping)
    requires Committable(p, st) && i < |st.lbs|
    ensures var lbs := PlaceMapping(st.lbs, i, nm);
            && NamesOk(lbs) && (forall b | b in lbs :: PortsOk(b.mappings))
            && (OneModePerPort(lbs) <==> OthersAgree(st, st.lbs[i].name, nm.listenPort, nm.listenTLS))
            && (Compliant(p, lbs) <==> MappingError(p, st.lbs[i].name, nm) == None)
  {
    PlacedShape(st, i, nm);
    PlacedModes(st, i, nm);
    PlacedRules(p, st, i, nm);
  }

  /** The mappings of i afterwards: nm and those on other ports. */
  lemma PlacedMembers(lbs: seq<LoadBalancer>, i: nat, nm: Mapping)
    requires i < |lbs| && PortsOk(lbs[i].mappings)
    ensures var ls := PlaceMapping(lbs, i, nm);
            && |ls| == |lbs| && ls[i].name == lbs[i].name && (forall j | 0 <= j < |lbs| && j != i :: ls[j] == lbs[j])
            && PortsOk(ls[i].mappings)
            && forall m :: m in ls[i].mappings <==> m == nm || (m in lbs[i].mappings && m.listenPort != nm.listenPort)
  {
    var ms := lbs[i].mappings;
    var ns, k := PlaceMapping(lbs, i, nm)[i].mappings, MappingIndex(ms, nm.listenPort);
    assert ns == if k >= 0 then ms[k := nm] else ms + [nm];
    assert ns[if k >= 0 then k else |ms|] == nm;
    forall m | m in ms && m.listenPort != nm.listenPort ensures m in ns {
      var j :| 0 <= j < |ms| && ms[j] == m;
      assert ns[j] == m;
    }
  }

  lemma PlacedShape(st: State, i: nat, nm: Mapping)
    requires WellFormed(st) && i < |st.lbs|
    ensures var lbs := PlaceMapping(st.lbs, i, nm); NamesOk(lbs) && forall b | b in lbs :: PortsOk(b.mappings)
  {
    var lbs := PlaceMapping(st.lbs, i, nm);
    PlacedMembers(st.lbs, i, nm);
    assert forall j | 0 <= j < |lbs| :: lbs[j].name == st.lbs[j].name;
    forall b | b in lbs ensures b.name != "" && PortsOk(b.mappings) {
      var j :| 0 <= j < |lbs| && lbs[j] == b;
      assert st.lbs[j] in st.lbs;
    }
  }

  lemma PlacedModes(st: State, i: nat, nm: Mapping)
    requires WellFormed(st) && i < |st.lbs|
    ensures OneModePerPort(PlaceMapping(st.lbs, i, nm)) <==>
            OthersAgree(st, st.lbs[i].name, nm.listenPort, nm.listenTLS)
  {
    var lbs := PlaceMapping(st.lbs, i, nm);
    PlacedMembers(st.lbs, i, nm);
    if OneModePerPort(lbs) {
      forall b, m | b in st.lbs && b.name != st.lbs[i].name && m in b.mappings && m.listenPort == nm.listenPort
        ensures m.listenTLS == nm.listenTLS
      {
        var j :| 0 <= j < |st.lbs| && st.lbs[j] == b;
        assert lbs[j] in lbs && lbs[i] in lbs && SameModes(lbs[j].mappings, lbs[i].mappings);
      }
    }
    if OthersAgree(st, st.lbs[i].name, nm.listenPort, nm.listenTLS) {
      forall b, c | b in lbs && c in lbs ensures SameModes(b.mappings, c.mappings) {
        var j :| 0 <= j < |lbs| && lbs[j] == b;
        var k :| 0 <= k < |lbs| && lbs[k] == c;
        PlacedPair(st, i, nm, j, k);
      }
    }
  }

  lemma PlacedPair(st: State, i: nat, nm: Mapping, j: nat, k: nat)
    requires WellFormed(st) && i < |st.lbs| && j < |st.lbs| && k < |st.lbs|
    requires OthersAgree(st, st.lbs[i].name, nm.listenPort, nm.listenTLS)
    ensures SameModes(PlaceMapping(st.lbs, i, nm)[j].mappings, PlaceMapping(st.lbs, i, nm)[k].mappings)
  {
    PlacedMembers(st.lbs, i, nm);
    assert st.lbs[j] in st.lbs && st.lbs[k] in st.lbs && SameModes(st.lbs[j].mappings, st.lbs[k].mappings);
    assert j != i ==> st.lbs[j].name != st.lbs[i].name;
    assert k != i ==> st.lbs[k].name != st.lbs[i].name;
  }

  lemma PlacedRules(p: Params, st: State, i: nat, nm: Mapping)
    requires Committable(p, st) && i < |st.lbs|
    ensures Compliant(p, PlaceMapping(st.lbs, i, nm)) <==> MappingError(p, st.lbs[i].name, nm) == None
  {
    var lbs := PlaceMapping(st.lbs, i, nm);
    PlacedMembers(st.lbs, i, nm);
    assert st.lbs[i] in st.lbs && CompliantBalancer(p, st.lbs[i]) && lbs[i] in lbs;
    if MappingError(p, st.lbs[i].name, nm) == None {
      forall b | b in lbs ensures CompliantBalancer(p, b) {
        var j :| 0 <= j < |lbs| && lbs[j] == b;
        assert st.lbs[j] in st.lbs;
      }
    }
    if Compliant(p, lbs) {
      assert CompliantBalancer(p, lbs[i]);
    }
  }

  /** With its reference resolved the put state is committable before and after orphans go, or not at all. */
  lemma Placed(p: Params, st: State, i: nat, nm: Mapping, allocs: seq<PortAllocation>)
    requires Committable(p, st) && i < |st.lbs| && AllocsOk(allocs) && (forall a | a in st.allocs :: a in allocs)
    requires nm.allocationID != "" ==> HasId(allocs, nm.allocationID)
    ensures Committable(p, Reconciled(st.(lbs := PlaceMapping(st.lbs, i, nm), allocs := allocs))) <==>
            && OthersAgree(st, st.lbs[i].name, nm.listenPort, nm.listenTLS)
            && MappingError(p, st.lbs[i].name, nm) == None
  {
    var e := st.(lbs := PlaceMapping(st.lbs, i, nm), allocs := allocs);
    PlacedIff(p, st, i, nm);
    PlacedRefs(st, i, nm, allocs);
    if OneModePerPort(e.lbs) {
      Removal.ReconciledWellFormed(e);
    }
  }

  lemma PlacedRefs(st: State, i: nat, nm: Mapping, allocs: seq<PortAllocation>)
    requires WellFormed(st) && i < |st.lbs| && (forall a | a in st.allocs :: a in allocs)
    requires nm.allocationID != "" ==> HasId(allocs, nm.allocationID)
    ensures RefsOk(PlaceMapping(st.lbs, i, nm), allocs)
  {
    var lbs := PlaceMapping(st.lbs, i, nm);
    PlacedMembers(st.lbs, i, nm);
    forall b, m | b in lbs && m in b.mappings && m.allocationID != "" ensures HasId(allocs, m.allocationID) {
      if m != nm {
        var j :| 0 <= j < |lbs| && lbs[j] == b;
        assert st.lbs[j] in st.lbs && m in st.lbs[j].mappings && HasId(st.allocs, m.allocationID);
        var a :| a in st.allocs && a.id == m.allocationID;
        assert a in allocs;
      }
    }
  }

  /** A put that reserves: a is the reservation it makes. */
  lemma PutReservedIff(p: Params, st: State, i: nat, spec: MappingSpec, a: PortAllocation)
    requires Committable(p, st) && Normalized(p.cfg) && i < |st.lbs| && a.auto
    requires InPool(p.cfg, a.port) && a.port !in UsedPorts(st.allocs)
    ensures var e := Reconciled(st.(lbs := PlaceMapping(st.lbs, i, AutoMapping(spec, a)), allocs := st.allocs + [a]));
            Committable(p, e) <==>
              && PortAllowed(p.cfg, spec.listenPort, spec.listenTLS)
              && OthersAgree(st, st.lbs[i].name, spec.listenPort, spec.listenTLS)
              && (spec.listenTLS && p.coversSet ==> p.o.covers(st.lbs[i].name))
              && p.o.hostAllowed("localhost") && (a.id == "" || !HasId(st.allocs, a.id))
  {
    var nm := AutoMapping(spec, a);
    RulesOfMappings(p, st.lbs[i].name, nm);
    assert UpstreamAllowed(p.o, nm.upstream) <==> p.o.hostAllowed("localhost");
    if a.id == "" {
      EmptyIdIsDropped(st, i, nm, a);
      Placed(p, st, i, nm, st.allocs);
    } else if !HasId(st.allocs, a.id) {
      ReservedWellFormed(st, a);
      assert a in st.allocs + [a];
      Placed(p, st, i, nm, st.allocs + [a]);
    } else {
      TakenIdIsRefused(p, st, i, nm, a);
    }
  }

  lemma EmptyIdIsDropped(st: State, i: nat, nm: Mapping, a: PortAllocation)
    requires i < |st.lbs| && a.auto && a.id == ""
    ensures Reconciled(st.(lbs := PlaceMapping(st.lbs, i, nm), allocs := st.allocs + [a]))
            == Reconciled(st.(lbs := PlaceMapping(st.lbs, i, nm)))
  {
    var refs := Referenced(PlaceMapping(st.lbs, i, nm));
    KeepSplits(st.allocs, [a], refs);
    assert KeepReferenced([a], refs) == [];
  }

  lemma TakenIdIsRefused(p: Params, st: State, i: nat, nm: Mapping, a: PortAllocation)
    requires WellFormed(st) && i < |st.lbs| && a.auto && nm.allocationID == a.id != "" && HasId(st.allocs, a.id)
    ensures !Committable(p, Reconciled(st.(lbs := PlaceMapping(st.lbs, i, nm), allocs := st.allocs + [a])))
  {
    if AllocsOk(Reconciled(st.(lbs := PlaceMapping(st.lbs, i, nm), allocs := st.allocs + [a])).allocs) {
      Ownership.FreshId(st, i, nm, a);
    }
  }
}
