/** Loop protection at dial time (internal/upstream/policy.go), and why an allocated port never triggers it. */
module LoopGuard {
  import opened Model
  import opened Config
  import opened Rules
  import Server
  import Ownership
  import Transactions

  /** What the checks ask of an address. */
  datatype IP = Loopback(bits: int) | LinkLocal(bits: int) | Other(bits: int)

  datatype SelfGuard = SelfGuard(localIPs: seq<IP>, listenPorts: set<int>)

  datatype Verdict = Allowed | NilDenied | LinkLocalDenied | SelfDenied

  /** One of the proxy's own endpoints. */
  method IsSelf(g: SelfGuard, ip: IP, port: int) returns (r: bool)
    ensures r <==> port in g.listenPorts && (ip.Loopback? || ip in g.localIPs)
  {
    if port !in g.listenPorts {
      return false;
    }
    if ip.Loopback? {
      return true;
    }
    for i := 0 to |g.localIPs|
      invariant ip !in g.localIPs[..i]
    {
      if g.localIPs[i] == ip {
        return true;
      }
    }
    r := false;
  }

  /** CheckDialIP: link-local addresses and the proxy's own listeners are refused, nothing else. */
  method CheckDialIP(g: SelfGuard, ip: Option<IP>, port: int) returns (r: Verdict)
    ensures r == NilDenied <==> ip == None
    ensures r == LinkLocalDenied <==> ip.Some? && ip.value.LinkLocal?
    ensures r == SelfDenied <==>
      ip.Some? && !ip.value.LinkLocal? && port in g.listenPorts && (ip.value.Loopback? || ip.value in g.localIPs)
  {
    if ip == None {
      return NilDenied;
    }
    if ip.value.LinkLocal? {
      return LinkLocalDenied;
    }
    var self := IsSelf(g, ip.value, port);
    r := if self then SelfDenied else Allowed;
  }

  /** No listener port of a committed state is in the pool ... */
  lemma ListenPortsOutsidePool(p: Params, st: State, port: int)
    requires Compliant(p, st.lbs) && Normalized(p.cfg) && port in Server.AllListenPorts(p.cfg, st.lbs)
    ensures !InPool(p.cfg, port)
  {
    if b, m :| b in st.lbs && m in b.mappings && m.listenPort == port {
      assert CompliantBalancer(p, b);
      assert MappingError(p, b.name, m) == None;
    }
  }

  /** ... so in every run from the empty state, whatever the server listens on, dialing the upstream of an
      auto-allocated mapping, at whatever address, is never taken for a loop. */
  lemma AllocatedPortsAreDialable(p: Params, steps: seq<Transactions.Step>, b: LoadBalancer, m: Mapping,
                                  g: SelfGuard)
    requires Normalized(p.cfg) && Transactions.RealIds(steps)
    requires var st := Transactions.Run(p, EMPTY_STATE, steps);
             b in st.lbs && m in b.mappings && m.autoAllocated && g.listenPorts == Server.AllListenPorts(p.cfg, st.lbs)
    ensures m.upstream == Upstream("http", "localhost", m.upstream.port, UpstreamTLS("verify", ""))
    ensures InPool(p.cfg, m.upstream.port)
    ensures m.upstream.port !in g.listenPorts
  {
    var st := Transactions.Run(p, EMPTY_STATE, steps);
    Ownership.RunsAreSound(p, steps);
    assert Ownership.OwnedBalancer(b, st.allocs);
    assert Ownership.OwnedMapping(b, m, st.allocs);
    var a :| a in st.allocs && Ownership.Linked(b, m, a);
    assert InPool(p.cfg, a.port);
    if a.port in g.listenPorts {
      ListenPortsOutsidePool(p, st, a.port);
    }
  }
}
