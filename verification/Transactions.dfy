/** What each management operation does to the state (internal/txn/txn.go), as functions on values. The
    Manager class performs the same edits in place on a clone and is proved against these. */
module Transactions {
  import opened Model
  import opened Config
  import opened Rules
  import Registry

  datatype MappingSpec = MappingSpec(
    listenPort: int, listenTLS: bool, upstream: Upstream, allocate: bool, allocLabel: string)

  datatype Op =
    | CreateLB(name: string, text: string)
    | UpdateLBLabel(name: string, text: string)
    | DeleteLB(name: string)
    | PutMapping(name: string, spec: MappingSpec, replace: bool)
    | DeleteMapping(name: string, listenPort: int)
    | AllocatePort(owner: string, text: string)
    | ReturnPort(port: int)

  /** An operation with what it reads from the clock and the id generator. */
  datatype Call = Call(op: Op, now: Time, id: string)

  datatype Edit = Candidate(st: State) | Rejected(err: Error)

  const INVALID_HOSTNAME := Rejected(Error(Validation, "invalid_hostname"))
  const LB_NOT_FOUND := Rejected(Error(NotFound, "lb_not_found"))
  const POOL_EXHAUSTED := Rejected(Error(Conflict, "pool_exhausted"))

  /** The index of the load balancer called name, -1 if there is none. */
  function LBIndex(lbs: seq<LoadBalancer>, name: string): (i: int)
    ensures -1 <= i < |lbs|
    ensures i >= 0 ==> lbs[i].name == name && forall j | 0 <= j < i :: lbs[j].name != name
    ensures i < 0 ==> forall b | b in lbs :: b.name != name
  {
    if lbs == [] then -1
    else if lbs[0].name == name then 0
    else
      var r := LBIndex(lbs[1..], name);
      if r < 0 then -1 else r + 1
  }

  /** The index of the mapping on port, -1 if there is none. */
  function MappingIndex(ms: seq<Mapping>, port: int): (k: int)
    ensures -1 <= k < |ms|
    ensures k >= 0 ==> ms[k].listenPort == port && forall l | 0 <= l < k :: ms[l].listenPort != port
    ensures k < 0 ==> forall m | m in ms :: m.listenPort != port
  {
    if ms == [] then -1
    else if ms[0].listenPort == port then 0
    else
      var r := MappingIndex(ms[1..], port);
      if r < 0 then -1 else r + 1
  }

  function RemoveAt<T>(s: seq<T>, i: nat): seq<T>
    requires i < |s|
  {
    s[..i] + s[i + 1..]
  }

  function SetMappings(lbs: seq<LoadBalancer>, i: nat, ms: seq<Mapping>): seq<LoadBalancer>
    requires i < |lbs|
  {
    lbs[i := lbs[i].(mappings := ms)]
  }

  /** The upstream of an auto-allocated mapping. */
  function LocalUpstream(port: int): Upstream {
    Upstream("http", "localhost", port, UpstreamTLS("verify", ""))
  }

  /** The allocation as PutMapping registers it ... */
  function AutoAlloc(a: PortAllocation, owner: string, spec: MappingSpec, now: Time): PortAllocation {
    a.(owner := owner, labelText := spec.allocLabel, auto := true, allocatedAt := now)
  }

  /** ... and as AllocatePort does. */
  function ManualAlloc(a: PortAllocation, owner: string, text: string, now: Time): PortAllocation {
    a.(owner := owner, labelText := text, auto := false, allocatedAt := now)
  }

  function AutoMapping(spec: MappingSpec, a: PortAllocation): Mapping {
    Mapping(spec.listenPort, spec.listenTLS, LocalUpstream(a.port), a.id, true)
  }

  function PlainMapping(spec: MappingSpec): Mapping {
    Mapping(spec.listenPort, spec.listenTLS, spec.upstream, "", false)
  }

  function PlaceMapping(lbs: seq<LoadBalancer>, i: nat, nm: Mapping): seq<LoadBalancer>
    requires i < |lbs|
  {
    var ms := lbs[i].mappings;
    var k := MappingIndex(ms, nm.listenPort);
    SetMappings(lbs, i, if k >= 0 then ms[k := nm] else ms + [nm])
  }

  function GrantIn(p: Params, st: State, id: string): Registry.Allocation {
    Registry.Grant(Registry.UsedPorts(st.allocs), p.cfg.poolStart, p.cfg.poolEnd, id)
  }

  /** The mapping goes onto load balancer i, with a port of its own if the spec asks for one. */
  function PutAt(p: Params, st: State, i: nat, spec: MappingSpec, now: Time, id: string): Edit
    requires i < |st.lbs|
  {
    if spec.allocate then
      var g := GrantIn(p, st, id);
      if g == Registry.PoolExhausted then POOL_EXHAUSTED
      else
        var a := AutoAlloc(g.alloc, st.lbs[i].name, spec, now);
        var lbs := PlaceMapping(st.lbs, i, AutoMapping(spec, a));
        Candidate(Registry.Reconciled(st.(lbs := lbs, allocs := st.allocs + [a])))
    else
      Candidate(Registry.Reconciled(st.(lbs := PlaceMapping(st.lbs, i, PlainMapping(spec)))))
  }

  function EditPutMapping(p: Params, st: State, name: string, spec: MappingSpec, replace: bool, now: Time, id: string)
    : Edit
  {
    var cn := p.o.canon(name);
    if cn == None then INVALID_HOSTNAME
    else
      var i := LBIndex(st.lbs, cn.value);
      if i < 0 then LB_NOT_FOUND else PutFound(p, st, i, spec, replace, now, id)
  }

  /** Without replace, a mapping already on the port is an error. */
  function PutFound(p: Params, st: State, i: nat, spec: MappingSpec, replace: bool, now: Time, id: string): Edit
    requires i < |st.lbs|
  {
    var k := MappingIndex(st.lbs[i].mappings, spec.listenPort);
    if !replace && k >= 0 then Rejected(Error(Conflict, "mapping_exists")) else PutAt(p, st, i, spec, now, id)
  }

  function EditCreateLB(p: Params, st: State, name: string, text: string, now: Time): Edit {
    var cn := p.o.canon(name);
    if cn == None then INVALID_HOSTNAME
    else if LBIndex(st.lbs, cn.value) >= 0 then Rejected(Error(Conflict, "duplicate_lb"))
    else Candidate(st.(lbs := st.lbs + [LoadBalancer(cn.value, text, now, [])]))
  }

  function EditUpdateLBLabel(p: Params, st: State, name: string, text: string): Edit {
    var cn := p.o.canon(name);
    if cn == None then INVALID_HOSTNAME
    else
      var i := LBIndex(st.lbs, cn.value);
      if i < 0 then LB_NOT_FOUND
      else Candidate(st.(lbs := st.lbs[i := st.lbs[i].(labelText := text)]))
  }

  function EditDeleteLB(p: Params, st: State, name: string): Edit {
    var cn := p.o.canon(name);
    if cn == None then INVALID_HOSTNAME
    else
      var i := LBIndex(st.lbs, cn.value);
      if i < 0 then LB_NOT_FOUND
      else Candidate(Registry.Reconciled(st.(lbs := RemoveAt(st.lbs, i))))
  }

  function EditDeleteMapping(p: Params, st: State, name: string, listenPort: int): Edit {
    var cn := p.o.canon(name);
    if cn == None then INVALID_HOSTNAME
    else
      var i := LBIndex(st.lbs, cn.value);
      if i < 0 then LB_NOT_FOUND
      else
        var k := MappingIndex(st.lbs[i].mappings, listenPort);
        if k < 0 then Rejected(Error(NotFound, "mapping_not_found"))
        else Candidate(Registry.Reconciled(st.(lbs := SetMappings(st.lbs, i, RemoveAt(st.lbs[i].mappings, k)))))
  }

  function EditAllocatePort(p: Params, st: State, owner: string, text: string, now: Time, id: string): Edit {
    var g := GrantIn(p, st, id);
    if g == Registry.PoolExhausted then POOL_EXHAUSTED
    else Candidate(st.(allocs := st.allocs + [ManualAlloc(g.alloc, owner, text, now)]))
  }

  function EditReturnPort(st: State, port: int): Edit {
    var i := Registry.AllocIndex(st.allocs, port);
    if i < 0 then Rejected(Error(NotFound, "port_not_allocated"))
    else if Registry.IsReferenced(st.lbs, st.allocs[i].id) then Rejected(Error(Conflict, "port_in_use"))
    else Candidate(st.(allocs := Registry.WithoutPort(st.allocs, port)))
  }

  /** What AllocatePort hands back beside the state. */
  function Granted(p: Params, st: State, c: Call): Option<PortAllocation> {
    var g := GrantIn(p, st, c.id);
    if c.op.AllocatePort? && g.Allocated? then Some(ManualAlloc(g.alloc, c.op.owner, c.op.text, c.now)) else None
  }

  function EditOf(p: Params, st: State, c: Call): Edit {
    match c.op
    case CreateLB(name, text) => EditCreateLB(p, st, name, text, c.now)
    case UpdateLBLabel(name, text) => EditUpdateLBLabel(p, st, name, text)
    case DeleteLB(name) => EditDeleteLB(p, st, name)
    case PutMapping(name, spec, replace) => EditPutMapping(p, st, name, spec, replace, c.now, c.id)
    case DeleteMapping(name, listenPort) => EditDeleteMapping(p, st, name, listenPort)
    case AllocatePort(owner, text) => EditAllocatePort(p, st, owner, text, c.now, c.id)
    case ReturnPort(port) => EditReturnPort(st, port)
  }

  /** An edit that went through must also be valid. */
  ghost function Checked(p: Params, e: Edit): Edit {
    if e.Rejected? then e
    else
      var err := StateError(p, e.st);
      if err.Some? then Rejected(err.value) else e
  }

  /** The edit followed by validation: what is handed to Save, or why nothing is. */
  ghost function Attempt(p: Params, st: State, c: Call): Edit {
    Checked(p, EditOf(p, st, c))
  }

  /** The published state after a call; saved tells whether Save returned without error. */
  ghost function Next(p: Params, st: State, c: Call, saved: bool): State {
    var a := Attempt(p, st, c);
    if a.Candidate? && saved then a.st else st
  }

  datatype Step = Step(call: Call, saved: bool)

  ghost function Run(p: Params, st: State, steps: seq<Step>): State {
    if steps == [] then st
    else
      var n := |steps| - 1;
      Next(p, Run(p, st, steps[..n]), steps[n].call, steps[n].saved)
  }

  /** The id generator never returns the empty string. */
  ghost predicate RealIds(steps: seq<Step>) {
    forall s | s in steps :: s.call.id != ""
  }

  lemma AttemptCommittable(p: Params, st: State, c: Call)
    requires Attempt(p, st, c).Candidate?
    ensures Attempt(p, st, c) == EditOf(p, st, c) && Committable(p, Attempt(p, st, c).st)
  {
    AcceptsIff(p, EditOf(p, st, c).st);
  }
}
