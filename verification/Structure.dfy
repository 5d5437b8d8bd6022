/** Structural validation (store.Validate in internal/store/model.go): one pass over the state, filling maps. */
module Structure {
  import opened Model

  datatype Fault =
    | EmptyName
    | DuplicateName(name: string)
    | DuplicatePort(lb: string, port: int)
    | ConflictingTLS(port: int)
    | EmptyID
    | DuplicateID(id: string)
    | DuplicateAllocPort(port: int)
    | MissingAllocation(lb: string, port: int, id: string)

  ghost predicate Maps(lbs: seq<LoadBalancer>, port: int, tls: bool) {
    exists b, m :: b in lbs && m in b.mappings && m.listenPort == port && m.listenTLS == tls
  }

  /** The reported fault is really in the state. */
  ghost predicate Exhibits(st: State, f: Fault) {
    || (f.EmptyName? && exists b :: b in st.lbs && b.name == "")
    || (f.DuplicateName? && exists i, j :: 0 <= i < j < |st.lbs| && st.lbs[i].name == f.name == st.lbs[j].name)
    || (f.DuplicatePort? && exists b, k, l ::
          && b in st.lbs && b.name == f.lb && 0 <= k < l < |b.mappings|
          && b.mappings[k].listenPort == f.port == b.mappings[l].listenPort)
    || (f.ConflictingTLS? && Maps(st.lbs, f.port, true) && Maps(st.lbs, f.port, false))
    || (f.EmptyID? && exists a :: a in st.allocs && a.id == "")
    || (f.DuplicateID? && exists i, j :: 0 <= i < j < |st.allocs| && st.allocs[i].id == f.id == st.allocs[j].id)
    || (f.DuplicateAllocPort? && exists i, j ::
          0 <= i < j < |st.allocs| && st.allocs[i].port == f.port == st.allocs[j].port)
    || (f.MissingAllocation? && f.id != "" && !HasId(st.allocs, f.id) && exists b, m ::
          b in st.lbs && b.name == f.lb && m in b.mappings && m.listenPort == f.port && m.allocationID == f.id)
  }

  lemma FaultMeansIllFormed(st: State, f: Fault)
    requires Exhibits(st, f)
    ensures !WellFormed(st)
  {
    match f
    case ConflictingTLS(p) =>
      var b, m :| b in st.lbs && m in b.mappings && m.listenPort == p && m.listenTLS;
      var c, n :| c in st.lbs && n in c.mappings && n.listenPort == p && !n.listenTLS;
    case _ =>
  }

  /** Accepts exactly the well-formed states; a refusal names a fault the state has. */
  method Validate(st: State) returns (r: Option<Fault>)
    ensures r.None? <==> WellFormed(st)
    ensures r.Some? ==> Exhibits(st, r.value)
  {
    r := ValidateBalancers(st);
    if r.Some? {
      FaultMeansIllFormed(st, r.value);
      return;
    }
    var ids;
    r, ids := ValidateAllocations(st);
    if r.Some? {
      FaultMeansIllFormed(st, r.value);
      return;
    }
    r := ValidateReferences(st, ids);
    if r.Some? {
      FaultMeansIllFormed(st, r.value);
    }
  }

  /** Every mapping's mode is the one recorded for its port. */
  ghost predicate Agrees(ms: seq<Mapping>, portTLS: map<int, bool>) {
    forall m | m in ms :: Recorded(m, portTLS)
  }

  ghost predicate Recorded(m: Mapping, portTLS: map<int, bool>) {
    m.listenPort in portTLS && portTLS[m.listenPort] == m.listenTLS
  }

  ghost predicate RecordedUpTo(ms: seq<Mapping>, k: nat, portTLS: map<int, bool>)
    requires k <= |ms|
  {
    forall l | 0 <= l < k :: Recorded(ms[l], portTLS)
  }

  /** Every recorded mode is some mapping's. */
  ghost predicate Grounded(lbs: seq<LoadBalancer>, portTLS: map<int, bool>) {
    forall p | p in portTLS :: Maps(lbs, p, portTLS[p])
  }

  /** Nothing recorded is lost or changed. */
  ghost predicate Extends(portTLS: map<int, bool>, earlier: map<int, bool>) {
    forall p | p in earlier :: p in portTLS && portTLS[p] == earlier[p]
  }

  lemma RecordOneMore(ms: seq<Mapping>, k: nat, earlier: map<int, bool>, portTLS: map<int, bool>)
    requires k < |ms| && RecordedUpTo(ms, k, earlier) && Extends(portTLS, earlier) && Recorded(ms[k], portTLS)
    ensures RecordedUpTo(ms, k + 1, portTLS)
  {
  }

  lemma OneRecordPerPort(lbs: seq<LoadBalancer>, portTLS: map<int, bool>)
    requires forall i | 0 <= i < |lbs| :: PortsOk(lbs[i].mappings) && Agrees(lbs[i].mappings, portTLS)
    ensures OneModePerPort(lbs) && forall b | b in lbs :: PortsOk(b.mappings)
  {
    forall b, m | b in lbs && m in b.mappings ensures Recorded(m, portTLS) {
      assert Agrees(b.mappings, portTLS);
    }
  }

  lemma NameTwice(st: State, i: nat, j: nat)
    requires i < j < |st.lbs| && st.lbs[i].name == st.lbs[j].name
    ensures Exhibits(st, DuplicateName(st.lbs[j].name))
  {
  }

  /** The first k mappings have distinct ports, and seen are these ports. */
  ghost predicate AllSeen(ms: seq<Mapping>, k: nat, seen: set<int>)
    requires k <= |ms|
  {
    && (forall p | p in seen :: exists l :: 0 <= l < k && ms[l].listenPort == p)
    && (forall l | 0 <= l < k :: ms[l].listenPort in seen)
    && (forall l, o | 0 <= l < o < k :: ms[l].listenPort != ms[o].listenPort)
  }

  lemma SeeOne(ms: seq<Mapping>, k: nat, seen: set<int>)
    requires k < |ms| && AllSeen(ms, k, seen) && ms[k].listenPort !in seen
    ensures AllSeen(ms, k + 1, seen + {ms[k].listenPort})
  {
  }

  lemma PortTwice(st: State, lb: LoadBalancer, k: nat, seen: set<int>)
    requires lb in st.lbs && k < |lb.mappings| && AllSeen(lb.mappings, k, seen) && lb.mappings[k].listenPort in seen
    ensures Exhibits(st, DuplicatePort(lb.name, lb.mappings[k].listenPort))
  {
  }

  lemma BothModes(st: State, m: Mapping, portTLS: map<int, bool>)
    requires Grounded(st.lbs, portTLS) && Maps(st.lbs, m.listenPort, m.listenTLS)
    requires m.listenPort in portTLS && portTLS[m.listenPort] != m.listenTLS
    ensures Exhibits(st, ConflictingTLS(m.listenPort))
  {
  }

  /** portTLS[m.ListenPort] = m.ListenTLS. */
  lemma Record(lbs: seq<LoadBalancer>, m: Mapping, portTLS: map<int, bool>)
    requires Grounded(lbs, portTLS) && Maps(lbs, m.listenPort, m.listenTLS)
    requires m.listenPort in portTLS ==> portTLS[m.listenPort] == m.listenTLS
    ensures var more := portTLS[m.listenPort := m.listenTLS];
            Grounded(lbs, more) && Extends(more, portTLS) && Recorded(m, more)
  {
  }

  /** The loop over the load balancers; the inner loop is ValidatePorts. */
  method ValidateBalancers(st: State) returns (r: Option<Fault>)
    ensures r.None? ==> NamesOk(st.lbs) && (forall b | b in st.lbs :: PortsOk(b.mappings)) && OneModePerPort(st.lbs)
    ensures r.Some? ==> Exhibits(st, r.value)
  {
    var seenLB: set<string> := {};
    var portTLS: map<int, bool> := map[];
    for i := 0 to |st.lbs|
      invariant forall n | n in seenLB :: exists j :: 0 <= j < i && st.lbs[j].name == n
      invariant forall j | 0 <= j < i :: st.lbs[j].name != "" && st.lbs[j].name in seenLB
      invariant forall j, k | 0 <= j < k < i :: st.lbs[j].name != st.lbs[k].name
      invariant forall j | 0 <= j < i :: PortsOk(st.lbs[j].mappings) && Agrees(st.lbs[j].mappings, portTLS)
      invariant Grounded(st.lbs, portTLS)
    {
      var lb := st.lbs[i];
      if lb.name == "" {
        return Some(EmptyName);
      }
      if lb.name in seenLB {
        ghost var j :| 0 <= j < i && st.lbs[j].name == lb.name;
        NameTwice(st, j, i);
        return Some(DuplicateName(lb.name));
      }
      seenLB := seenLB + {lb.name};
      r, portTLS := ValidatePorts(st, lb, portTLS);
      if r.Some? {
        return;
      }
    }
    OneRecordPerPort(st.lbs, portTLS);
    r := None;
  }

  /** The inner loop: seenPort is per load balancer, portTLS is carried over all of them. */
  method ValidatePorts(st: State, lb: LoadBalancer, portTLS0: map<int, bool>)
    returns (r: Option<Fault>, portTLS: map<int, bool>)
    requires lb in st.lbs && Grounded(st.lbs, portTLS0)
    ensures r.None? ==> PortsOk(lb.mappings) && Agrees(lb.mappings, portTLS)
    ensures r.None? ==> Grounded(st.lbs, portTLS) && Extends(portTLS, portTLS0)
    ensures r.Some? ==> Exhibits(st, r.value)
  {
    portTLS := portTLS0;
    var seenPort: set<int> := {};
    for k := 0 to |lb.mappings|
      invariant AllSeen(lb.mappings, k, seenPort)
      invariant RecordedUpTo(lb.mappings, k, portTLS)
      invariant Grounded(st.lbs, portTLS) && Extends(portTLS, portTLS0)
    {
      var m := lb.mappings[k];
      if m.listenPort in seenPort {
        PortTwice(st, lb, k, seenPort);
        return Some(DuplicatePort(lb.name, m.listenPort)), portTLS;
      }
      SeeOne(lb.mappings, k, seenPort);
      seenPort := seenPort + {m.listenPort};
      assert Maps(st.lbs, m.listenPort, m.listenTLS);
      ghost var earlier := portTLS;
      r, portTLS := NoteMode(st, m, portTLS);
      if r.Some? {
        return;
      }
      RecordOneMore(lb.mappings, k, earlier, portTLS);
    }
    r := None;
  }

  /** The mode of a port already seen must be the same; else it is recorded. */
  method NoteMode(st: State, m: Mapping, portTLS0: map<int, bool>) returns (r: Option<Fault>, portTLS: map<int, bool>)
    requires Grounded(st.lbs, portTLS0) && Maps(st.lbs, m.listenPort, m.listenTLS)
    ensures r.None? ==> Grounded(st.lbs, portTLS) && Extends(portTLS, portTLS0) && Recorded(m, portTLS)
    ensures r.Some? ==> Exhibits(st, r.value)
  {
    if m.listenPort in portTLS0 && portTLS0[m.listenPort] != m.listenTLS {
      BothModes(st, m, portTLS0);
      return Some(ConflictingTLS(m.listenPort)), portTLS0;
    }
    Record(st.lbs, m, portTLS0);
    r, portTLS := None, portTLS0[m.listenPort := m.listenTLS];
  }

  method ValidateAllocations(st: State) returns (r: Option<Fault>, allocByID: set<string>)
    ensures r.None? ==> AllocsOk(st.allocs) && forall id :: id in allocByID <==> HasId(st.allocs, id)
    ensures r.Some? ==> Exhibits(st, r.value)
  {
    allocByID := {};
    var allocByPort: set<int> := {};
    for i := 0 to |st.allocs|
      invariant forall id :: id in allocByID <==> exists j :: 0 <= j < i && st.allocs[j].id == id
      invariant forall p :: p in allocByPort <==> exists j :: 0 <= j < i && st.allocs[j].port == p
      invariant AllocsOk(st.allocs[..i])
    {
      var a := st.allocs[i];
      if a.id == "" {
        return Some(EmptyID), allocByID;
      }
      if a.id in allocByID {
        return Some(DuplicateID(a.id)), allocByID;
      }
      allocByID := allocByID + {a.id};
      if a.port in allocByPort {
        return Some(DuplicateAllocPort(a.port)), allocByID;
      }
      allocByPort := allocByPort + {a.port};
      assert st.allocs[..i + 1] == st.allocs[..i] + [a];
    }
    assert st.allocs[..|st.allocs|] == st.allocs;
    r := None;
  }

  method ValidateReferences(st: State, allocByID: set<string>) returns (r: Option<Fault>)
    requires forall id :: id in allocByID <==> HasId(st.allocs, id)
    ensures r.None? ==> RefsOk(st.lbs, st.allocs)
    ensures r.Some? ==> Exhibits(st, r.value)
  {
    for i := 0 to |st.lbs|
      invariant RefsOk(st.lbs[..i], st.allocs)
    {
      var lb := st.lbs[i];
      for k := 0 to |lb.mappings|
        invariant forall m | m in lb.mappings[..k] && m.allocationID != "" :: HasId(st.allocs, m.allocationID)
      {
        var m := lb.mappings[k];
        if m.allocationID != "" && m.allocationID !in allocByID {
          return Some(MissingAllocation(lb.name, m.listenPort, m.allocationID));
        }
        assert lb.mappings[..k + 1] == lb.mappings[..k] + [m];
      }
      assert lb.mappings[..|lb.mappings|] == lb.mappings;
      assert st.lbs[..i + 1] == st.lbs[..i] + [lb];
    }
    assert st.lbs[..|st.lbs|] == st.lbs;
    r := None;
  }
}
