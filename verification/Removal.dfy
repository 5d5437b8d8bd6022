/** Removing things: it never fails validation by itself, and it undoes what was added
    (internal/txn/txn.go, internal/txn/validate.go). */
module Removal {
  import opened Model
  import opened Rules
  import opened Transactions
  import opened Registry
  import Ownership
  import Witness

  predicate IsRemoval(op: Op) {
    op.DeleteLB? || op.DeleteMapping? || op.ReturnPort?
  }

  /** Fewer mappings break no rule. */
  lemma ShrunkFacts(p: Params, lbs: seq<LoadBalancer>, from: seq<LoadBalancer>, allocs: seq<PortAllocation>)
    requires Ownership.Shrunk(lbs, from)
    ensures OneModePerPort(from) ==> OneModePerPort(lbs)
    ensures RefsOk(from, allocs) ==> RefsOk(lbs, allocs)
    ensures Compliant(p, from) ==> Compliant(p, lbs)
  {
    if OneModePerPort(from) {
      forall b, c | b in lbs && c in lbs ensures SameModes(b.mappings, c.mappings) {
        var d :| d in from && d.name == b.name && Ownership.SubList(b.mappings, d.mappings);
        var e :| e in from && e.name == c.name && Ownership.SubList(c.mappings, e.mappings);
        assert SameModes(d.mappings, e.mappings);
      }
    }
    if Compliant(p, from) {
      forall b | b in lbs ensures CompliantBalancer(p, b) {
        var c :| c in from && c.name == b.name && Ownership.SubList(b.mappings, c.mappings);
        assert CompliantBalancer(p, c);
      }
    }
  }

  /** Reconciling leaves a well-formed state well formed: what is referenced stays. */
  lemma ReconciledWellFormed(st: State)
    requires WellFormed(st)
    ensures WellFormed(Reconciled(st))
  {
    var refs := Referenced(st.lbs);
    KeepAllocsOk(st.allocs, refs);
    forall b, m | b in st.lbs && m in b.mappings && m.allocationID != ""
      ensures HasId(KeepReferenced(st.allocs, refs), m.allocationID)
    {
      var a :| a in st.allocs && a.id == m.allocationID;
      assert a.id in refs;
      KeptExactly(st.allocs, refs, a);
    }
  }

  lemma CutWellFormed(p: Params, st: State, i: nat)
    requires WellFormed(st) && i < |st.lbs|
    ensures var cut := st.(lbs := RemoveAt(st.lbs, i)); WellFormed(cut) && Ownership.Shrunk(cut.lbs, st.lbs)
  {
    var cut := RemoveAt(st.lbs, i);
    assert forall j | 0 <= j < |cut| :: cut[j] == st.lbs[if j < i then j else j + 1];
    assert forall b | b in cut :: b in st.lbs && Ownership.SubList(b.mappings, b.mappings);
    ShrunkFacts(p, cut, st.lbs, st.allocs);
  }

  lemma SetMappingsShape(lbs: seq<LoadBalancer>, i: nat, ms: seq<Mapping>)
    requires i < |lbs| && NamesOk(lbs) && PortsOk(ms) && (forall b | b in lbs :: PortsOk(b.mappings))
    ensures NamesOk(SetMappings(lbs, i, ms)) && forall b | b in SetMappings(lbs, i, ms) :: PortsOk(b.mappings)
  {
    var ls := SetMappings(lbs, i, ms);
    assert forall j | 0 <= j < |lbs| :: ls[j].name == lbs[j].name && (j != i ==> ls[j] == lbs[j]);
  }

  lemma RemoveAtPortsOk(ms: seq<Mapping>, k: nat)
    requires PortsOk(ms) && k < |ms|
    ensures PortsOk(RemoveAt(ms, k)) && forall m | m in RemoveAt(ms, k) :: m in ms
  {
    assert forall j | 0 <= j < |ms| - 1 :: RemoveAt(ms, k)[j] == ms[if j < k then j else j + 1];
  }

  lemma CutMappingWellFormed(p: Params, st: State, i: nat, k: nat)
    requires WellFormed(st) && i < |st.lbs| && k < |st.lbs[i].mappings|
    ensures var cut := st.(lbs := SetMappings(st.lbs, i, RemoveAt(st.lbs[i].mappings, k)));
            WellFormed(cut) && Ownership.Shrunk(cut.lbs, st.lbs)
  {
    var rest := RemoveAt(st.lbs[i].mappings, k);
    RemoveAtPortsOk(st.lbs[i].mappings, k);
    SetMappingsShape(st.lbs, i, rest);
    Ownership.RemoveAtSubList(st.lbs[i].mappings, k);
    Ownership.ReplaceShrinks(st.lbs, i, st.lbs[i].(mappings := rest));
    ShrunkFacts(p, SetMappings(st.lbs, i, rest), st.lbs, st.allocs);
  }

  lemma ReturnWellFormed(st: State, port: int)
    requires WellFormed(st) && EditReturnPort(st, port).Candidate?
    ensures WellFormed(EditReturnPort(st, port).st)
  {
    var gone := st.allocs[AllocIndex(st.allocs, port)];
    var rest := WithoutPort(st.allocs, port);
    WithoutPortAllocsOk(st.allocs, port);
    forall b, m | b in st.lbs && m in b.mappings && m.allocationID != ""
      ensures HasId(rest, m.allocationID)
    {
      var a :| a in st.allocs && a.id == m.allocationID;
      assert a.port == port ==> a == gone;
      WithoutPortExactly(st.allocs, port, a);
    }
  }

  /** Everything but what op removes obeys the rules. */
  ghost predicate RestComplies(p: Params, st: State, op: Op) {
    match op
    case DeleteLB(name) => forall b | b in st.lbs && Some(b.name) != p.o.canon(name) :: CompliantBalancer(p, b)
    case DeleteMapping(name, port) => forall b | b in st.lbs :: CompliantBut(p, b, p.o.canon(name), port)
    case _ => Compliant(p, st.lbs)
  }

  /** The rules hold of b, its mapping on port not considered if b is the one called name. */
  ghost predicate CompliantBut(p: Params, b: LoadBalancer, name: Option<string>, port: int) {
    && NameError(p, b.name) == None
    && forall m | m in b.mappings && !(Some(b.name) == name && m.listenPort == port) ::
         MappingError(p, b.name, m) == None
  }

  lemma CutComplies(p: Params, lbs: seq<LoadBalancer>, i: nat)
    requires NamesOk(lbs) && i < |lbs|
    ensures Compliant(p, RemoveAt(lbs, i)) <==> forall b | b in lbs && b.name != lbs[i].name :: CompliantBalancer(p, b)
  {
    var cut := RemoveAt(lbs, i);
    assert forall j | 0 <= j < |cut| :: cut[j] == lbs[if j < i then j else j + 1];
    forall b ensures b in cut <==> b in lbs && b.name != lbs[i].name {
      if b in lbs && b.name != lbs[i].name {
        var j :| 0 <= j < |lbs| && lbs[j] == b;
        assert cut[if j < i then j else j - 1] == b;
      }
    }
  }

  lemma CutMappingComplies(p: Params, lbs: seq<LoadBalancer>, i: nat, k: nat)
    requires NamesOk(lbs) && i < |lbs| && PortsOk(lbs[i].mappings) && k < |lbs[i].mappings|
    ensures var b := lbs[i];
            Compliant(p, SetMappings(lbs, i, RemoveAt(b.mappings, k)))
            <==> forall c | c in lbs :: CompliantBut(p, c, Some(b.name), b.mappings[k].listenPort)
  {
    var b := lbs[i];
    var port, ls := b.mappings[k].listenPort, SetMappings(lbs, i, RemoveAt(b.mappings, k));
    RestOfMappings(b.mappings, k);
    assert CompliantBalancer(p, ls[i]) <==> CompliantBut(p, b, Some(b.name), port);
    forall j | 0 <= j < |lbs| && j != i
      ensures CompliantBalancer(p, ls[j]) <==> CompliantBut(p, lbs[j], Some(b.name), port)
    {
      assert ls[j] == lbs[j] && lbs[j].name != b.name;
    }
  }

  lemma RestOfMappings(ms: seq<Mapping>, k: nat)
    requires PortsOk(ms) && k < |ms|
    ensures forall m :: m in RemoveAt(ms, k) <==> m in ms && m.listenPort != ms[k].listenPort
  {
    var rest := RemoveAt(ms, k);
    assert forall j | 0 <= j < |rest| :: rest[j] == ms[if j < k then j else j + 1];
    forall m | m in ms && m.listenPort != ms[k].listenPort ensures m in rest {
      var j :| 0 <= j < |ms| && ms[j] == m;
      assert rest[if j < k then j else j - 1] == m;
    }
  }

  /** A removal that finds its target is accepted exactly when everything it does not remove obeys the rules. On a
      state that was never validated (a file loaded under a changed configuration) other load balancers may not,
      and then they block it. */
  lemma RemovalAcceptedIff(p: Params, st: State, c: Call)
    requires WellFormed(st) && IsRemoval(c.op) && EditOf(p, st, c).Candidate?
    ensures Attempt(p, st, c).Candidate? <==> RestComplies(p, st, c.op)
  {
    var e := EditOf(p, st, c).st;
    RemovalKeepsWellFormed(p, st, c, e);
    AcceptsIff(p, e);
    RestIs(p, st, c, e);
  }

  lemma RestIs(p: Params, st: State, c: Call, e: State)
    requires WellFormed(st) && IsRemoval(c.op) && EditOf(p, st, c) == Candidate(e)
    ensures Compliant(p, e.lbs) <==> RestComplies(p, st, c.op)
  {
    match c.op
    case DeleteLB(name) => CutComplies(p, st.lbs, LBIndex(st.lbs, p.o.canon(name).value));
    case DeleteMapping(name, port) =>
      var i := LBIndex(st.lbs, p.o.canon(name).value);
      CutMappingComplies(p, st.lbs, i, MappingIndex(st.lbs[i].mappings, port));
    case _ =>
  }

  /** a maps a port that the pool, perhaps reconfigured, contains; b is in order, and cannot be deleted. */
  function Outdated(a: string, b: string): State {
    State(1, [Witness.OneMapping(a, 9500, false), Witness.OneMapping(b, 8443, true)], [])
  }

  lemma RemovalBlocked(a: string, b: string, now: Time, id: string)
    requires a != "" && b != "" && a != b
    ensures var p, st, c := Witness.Permissive(), Outdated(a, b), Call(Op.DeleteLB(b), now, id);
            && WellFormed(st) && EditOf(p, st, c).Candidate? && CompliantBalancer(p, st.lbs[1])
            && Attempt(p, st, c).Rejected?
  {
    var p, st, c := Witness.Permissive(), Outdated(a, b), Call(Op.DeleteLB(b), now, id);
    assert st.lbs[0].mappings[0] in st.lbs[0].mappings && st.lbs[0] in st.lbs && st.lbs[1] in st.lbs;
    assert MappingError(p, a, st.lbs[0].mappings[0]).Some?;
    assert MappingError(p, b, st.lbs[1].mappings[0]) == None;
    assert !CompliantBalancer(p, st.lbs[0]);
    assert LBIndex(st.lbs, b) == 1;
    RemovalAcceptedIff(p, st, c);
  }

  lemma RemovalKeepsWellFormed(p: Params, st: State, c: Call, e: State)
    requires WellFormed(st) && IsRemoval(c.op) && EditOf(p, st, c) == Candidate(e)
    ensures WellFormed(e) && Ownership.Shrunk(e.lbs, st.lbs)
  {
    match c.op
    case DeleteLB(name) =>
      var i := LBIndex(st.lbs, p.o.canon(name).value);
      CutWellFormed(p, st, i);
      ReconciledWellFormed(st.(lbs := RemoveAt(st.lbs, i)));
    case DeleteMapping(name, listenPort) =>
      var i := LBIndex(st.lbs, p.o.canon(name).value);
      var k := MappingIndex(st.lbs[i].mappings, listenPort);
      CutMappingWellFormed(p, st, i, k);
      ReconciledWellFormed(st.(lbs := SetMappings(st.lbs, i, RemoveAt(st.lbs[i].mappings, k))));
    case ReturnPort(port) =>
      ReturnWellFormed(st, port);
      assert forall b | b in st.lbs :: Ownership.SubList(b.mappings, b.mappings);
    case _ =>
  }

  /** Removal is total: on a committed state a removal fails only because its target is not there or in use. */
  lemma RemovalIsTotal(p: Params, st: State, c: Call)
    requires Committable(p, st) && IsRemoval(c.op)
    ensures Attempt(p, st, c) == EditOf(p, st, c)
  {
    if EditOf(p, st, c).Candidate? {
      RemovalAcceptedIff(p, st, c);
      forall b | b in st.lbs ensures CompliantBalancer(p, b) {
      }
    }
  }

  /** Deleting a load balancer just created gives back the lists, minus any orphaned reservation: exactly the
      same lists if and only if there was no orphan. */
  lemma CreateThenDeleteLB(p: Params, st: State, name: string, text: string, first: Call, s: State, c: Call)
    requires WellFormed(st) && first.op == Op.CreateLB(name, text) && Attempt(p, st, first) == Candidate(s)
    requires c.op == Op.DeleteLB(name)
    ensures Attempt(p, s, c).Candidate? && (Attempt(p, s, c).st == st <==> NoOrphans(st))
  {
    AttemptCommittable(p, st, first);
    DeleteCreated(p, st, name, text, first.now, s);
    Undone(p, st, s, c);
  }

  lemma DeleteCreated(p: Params, st: State, name: string, text: string, now: Time, s: State)
    requires EditCreateLB(p, st, name, text, now) == Candidate(s)
    ensures EditDeleteLB(p, s, name) == Candidate(Reconciled(st))
  {
    CutLast(st.lbs, LoadBalancer(p.o.canon(name).value, text, now, []));
  }

  /** A removal that takes out all that was added leaves nothing different but orphans. */
  lemma Undone(p: Params, st: State, s: State, c: Call)
    requires Committable(p, s) && IsRemoval(c.op) && EditOf(p, s, c) == Candidate(Reconciled(st))
    ensures Attempt(p, s, c).Candidate? && (Attempt(p, s, c).st == st <==> NoOrphans(st))
  {
    RemovalIsTotal(p, s, c);
    KeepIsIdentity(st.allocs, Referenced(st.lbs));
  }

  lemma CutLast(lbs: seq<LoadBalancer>, b: LoadBalancer)
    requires forall c | c in lbs :: c.name != b.name
    ensures LBIndex(lbs + [b], b.name) == |lbs| && RemoveAt(lbs + [b], |lbs|) == lbs
  {
    assert forall j | 0 <= j < |lbs| :: (lbs + [b])[j] in lbs;
    assert (lbs + [b])[|lbs|] == b;
  }

  lemma {:induction false} KeepTwice(allocs: seq<PortAllocation>, more: set<string>, fewer: set<string>)
    requires fewer <= more
    ensures KeepReferenced(KeepReferenced(allocs, more), fewer) == KeepReferenced(allocs, fewer)
  {
    if allocs != [] {
      var n := |allocs| - 1;
      KeepTwice(allocs[..n], more, fewer);
      KeepSplits(KeepReferenced(allocs[..n], more), if Orphan(allocs[n], more) then [] else [allocs[n]], fewer);
      assert KeepReferenced([allocs[n]], fewer) == if Orphan(allocs[n], fewer) then [] else [allocs[n]];
    }
  }

  /** Placing a new mapping and cutting it out again. */
  lemma PlaceThenCut(st: State, i: nat, nm: Mapping)
    requires i < |st.lbs| && MappingIndex(st.lbs[i].mappings, nm.listenPort) < 0
    ensures var ls := PlaceMapping(st.lbs, i, nm); var k := |st.lbs[i].mappings|;
            && |ls| == |st.lbs| && |ls[i].mappings| == k + 1
            && (forall j | 0 <= j < |ls| :: ls[j].name == st.lbs[j].name)
            && MappingIndex(ls[i].mappings, nm.listenPort) == k
            && SetMappings(ls, i, RemoveAt(ls[i].mappings, k)) == st.lbs
            && Referenced(st.lbs) <= Referenced(ls)
  {
    var ls, ms := PlaceMapping(st.lbs, i, nm), st.lbs[i].mappings;
    CutLastMapping(ms, nm);
    assert ls[i].mappings == ms + [nm];
    forall id | id in Referenced(st.lbs) ensures id in Referenced(ls) {
      var b, m :| b in st.lbs && m in b.mappings && m.allocationID == id && id != "";
      var j :| 0 <= j < |st.lbs| && st.lbs[j] == b;
      assert ls[j] in ls && m in ls[j].mappings;
    }
  }

  lemma CutLastMapping(ms: seq<Mapping>, nm: Mapping)
    requires forall m | m in ms :: m.listenPort != nm.listenPort
    ensures MappingIndex(ms + [nm], nm.listenPort) == |ms| && RemoveAt(ms + [nm], |ms|) == ms
  {
    assert forall j | 0 <= j < |ms| :: (ms + [nm])[j] in ms;
    assert (ms + [nm])[|ms|] == nm;
  }

  /** The same for a mapping, allocated or not. */
  lemma PutThenDeleteMapping(p: Params, st: State, name: string, spec: MappingSpec, first: Call, s: State, c: Call)
    requires WellFormed(st) && first.id != "" && first.op == Op.PutMapping(name, spec, false)
    requires Attempt(p, st, first) == Candidate(s) && c.op == Op.DeleteMapping(name, spec.listenPort)
    ensures Attempt(p, s, c).Candidate? && (Attempt(p, s, c).st == st <==> NoOrphans(st))
  {
    AttemptCommittable(p, st, first);
    PutUndone(p, st, name, spec, first.now, first.id, s, c);
  }

  lemma PutUndone(p: Params, st: State, name: string, spec: MappingSpec, now: Time, id: string, s: State, c: Call)
    requires WellFormed(st) && id != "" && EditPutMapping(p, st, name, spec, false, now, id) == Candidate(s)
    requires Committable(p, s) && c.op == Op.DeleteMapping(name, spec.listenPort)
    ensures Attempt(p, s, c).Candidate? && (Attempt(p, s, c).st == st <==> NoOrphans(st))
  {
    DeletePut(p, st, name, spec, now, id, s);
    Undone(p, st, s, c);
  }

  lemma DeletePut(p: Params, st: State, name: string, spec: MappingSpec, now: Time, id: string, s: State)
    requires WellFormed(st) && id != "" && AllocsOk(s.allocs)
    requires EditPutMapping(p, st, name, spec, false, now, id) == Candidate(s)
    ensures EditDeleteMapping(p, s, name, spec.listenPort) == Candidate(Reconciled(st))
  {
    var i := LBIndex(st.lbs, p.o.canon(name).value);
    var nm := PutPlaces(p, st, i, spec, now, id, s);
    DeletePlaced(p, st, name, i, nm, s);
  }

  lemma DeletePlaced(p: Params, st: State, name: string, i: nat, nm: Mapping, s: State)
    requires p.o.canon(name).Some? && i == LBIndex(st.lbs, p.o.canon(name).value)
    requires MappingIndex(st.lbs[i].mappings, nm.listenPort) < 0
      && s == State(st.version, PlaceMapping(st.lbs, i, nm), s.allocs)
    ensures EditDeleteMapping(p, s, name, nm.listenPort) == Candidate(Reconciled(s.(lbs := st.lbs)))
  {
    PlaceThenCut(st, i, nm);
    SameNames(st.lbs, s.lbs, p.o.canon(name).value);
  }

  lemma SameNames(lbs: seq<LoadBalancer>, ls: seq<LoadBalancer>, name: string)
    requires |lbs| == |ls| && forall j | 0 <= j < |lbs| :: lbs[j].name == ls[j].name
    ensures LBIndex(lbs, name) == LBIndex(ls, name)
  {
  }

  /** A put places some nm, and what it reserved is orphaned once nm is gone. */
  lemma PutPlaces(p: Params, st: State, i: nat, spec: MappingSpec, now: Time, id: string, s: State)
    returns (nm: Mapping)
    requires WellFormed(st) && id != "" && i < |st.lbs| && MappingIndex(st.lbs[i].mappings, spec.listenPort) < 0
    requires PutAt(p, st, i, spec, now, id) == Candidate(s) && AllocsOk(s.allocs)
    ensures nm.listenPort == spec.listenPort && s == State(st.version, PlaceMapping(st.lbs, i, nm), s.allocs)
    ensures KeepReferenced(s.allocs, Referenced(st.lbs)) == KeepReferenced(st.allocs, Referenced(st.lbs))
  {
    if spec.allocate {
      var a := AutoAlloc(GrantIn(p, st, id).alloc, st.lbs[i].name, spec, now);
      nm := AutoMapping(spec, a);
      ReserveThenFree(st, i, nm, a);
    } else {
      nm := PlainMapping(spec);
      PlaceThenCut(st, i, nm);
      KeepTwice(st.allocs, Referenced(PlaceMapping(st.lbs, i, nm)), Referenced(st.lbs));
    }
  }

  lemma ReserveThenFree(st: State, i: nat, nm: Mapping, a: PortAllocation)
    requires WellFormed(st) && i < |st.lbs| && MappingIndex(st.lbs[i].mappings, nm.listenPort) < 0
    requires nm.allocationID == a.id != "" && a.auto
    requires AllocsOk(Reconciled(st.(lbs := PlaceMapping(st.lbs, i, nm), allocs := st.allocs + [a])).allocs)
    ensures var refs := Referenced(st.lbs);
            KeepReferenced(KeepReferenced(st.allocs + [a], Referenced(PlaceMapping(st.lbs, i, nm))), refs)
            == KeepReferenced(st.allocs, refs)
  {
    var refs := Referenced(st.lbs);
    PlaceThenCut(st, i, nm);
    Ownership.FreshId(st, i, nm, a);
    assert Orphan(a, refs);
    KeepTwice(st.allocs + [a], Referenced(PlaceMapping(st.lbs, i, nm)), refs);
    KeepSplits(st.allocs, [a], refs);
    assert KeepReferenced([a], refs) == [];
  }

  /** Returning a port just reserved by hand gives back exactly the same state. */
  lemma AllocateThenReturn(p: Params, st: State, owner: string, text: string, first: Call, s: State, c: Call)
    requires WellFormed(st) && first.op == Op.AllocatePort(owner, text) && Attempt(p, st, first) == Candidate(s)
    requires |s.allocs| > 0 && c.op == Op.ReturnPort(s.allocs[|s.allocs| - 1].port)
    ensures s.allocs[..|s.allocs| - 1] == st.allocs && Attempt(p, s, c) == Candidate(st)
  {
    AttemptCommittable(p, st, first);
    var a := s.allocs[|st.allocs|];
    assert s.allocs == st.allocs + [a];
    ReturnReserved(st, a);
    RemovalIsTotal(p, s, c);
  }

  lemma ReturnReserved(st: State, a: PortAllocation)
    requires RefsOk(st.lbs, st.allocs) && AllocsOk(st.allocs + [a])
    ensures EditReturnPort(st.(allocs := st.allocs + [a]), a.port) == Candidate(st)
  {
    var all, n := st.allocs + [a], |st.allocs|;
    LastIsNew(st.allocs, a);
    assert AllocIndex(all, a.port) == n;
    UnknownIsUnreferenced(st, a.id);
    assert all[..n] == st.allocs;
    WithoutAbsentPort(st.allocs, a.port);
  }

  lemma LastIsNew(allocs: seq<PortAllocation>, a: PortAllocation)
    requires AllocsOk(allocs + [a])
    ensures a.id != "" && !HasId(allocs, a.id) && a.port !in UsedPorts(allocs)
    ensures forall j | 0 <= j < |allocs| :: (allocs + [a])[j].port != a.port
  {
    var all := allocs + [a];
    assert all[|allocs|] == a && a in all;
    assert forall j | 0 <= j < |allocs| :: all[j] == allocs[j];
  }

  lemma UnknownIsUnreferenced(st: State, id: string)
    requires RefsOk(st.lbs, st.allocs) && id != "" && !HasId(st.allocs, id)
    ensures !IsReferenced(st.lbs, id)
  {
  }

  /** Without orphans, only ports reserved by hand can be returned: an automatic one is in use until its
      mapping goes. */
  lemma ReturnedPortsAreManual(st: State, port: int)
    requires NoOrphans(st) && WellFormed(st) && EditReturnPort(st, port).Candidate?
    ensures !st.allocs[AllocIndex(st.allocs, port)].auto
  {
    var a := st.allocs[AllocIndex(st.allocs, port)];
    assert a in st.allocs;
    ReferencedMeans(st.lbs, a.id);
  }

  lemma ReferencedMeans(lbs: seq<LoadBalancer>, id: string)
    ensures id in Referenced(lbs) ==> IsReferenced(lbs, id)
  {
    if id in Referenced(lbs) {
      var b, m :| b in lbs && m in b.mappings && m.allocationID == id;
    }
  }
}
