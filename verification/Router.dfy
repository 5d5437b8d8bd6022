/** The routing table (internal/proxy/router.go): built from the state, asked per request, cut down when a
    listener fails. */
module Router {
  import opened Model
  import opened Config

  /** A mapping with the load balancer it belongs to; a route serves one of these. */
  datatype Entry = Entry(lb: string, mapping: Mapping)

  datatype Reason = InvalidHostname | NotCovered | NotServable | BindFailed

  datatype Degraded = Degraded(lb: string, listenPort: int, reason: Reason)

  type ByHost = map<string, Entry>

  /** routes: listen port -> canonical host -> route; hosts: those with at least one route. */
  datatype RoutingTable = RoutingTable(routes: map<int, ByHost>, hosts: set<string>)

  const NO_ROUTES := RoutingTable(map[], {})

  function EntriesOf(name: string, ms: seq<Mapping>): seq<Entry> {
    seq(|ms|, i requires 0 <= i < |ms| => Entry(name, ms[i]))
  }

  /** One mapping further. */
  lemma NextEntry(before: seq<Entry>, name: string, ms: seq<Mapping>, k: nat)
    requires k < |ms|
    ensures var es := before + EntriesOf(name, ms[..k + 1]);
            es != [] && es[|es| - 1] == Entry(name, ms[k]) && es[..|es| - 1] == before + EntriesOf(name, ms[..k])
  {
  }

  /** All mappings in scan order. */
  function Entries(lbs: seq<LoadBalancer>): seq<Entry> {
    if lbs == [] then []
    else
      var n := |lbs| - 1;
      Entries(lbs[..n]) + EntriesOf(lbs[n].name, lbs[n].mappings)
  }

  /** BuildReverseProxy succeeds: the scheme is known and an https upstream's TLS mode is usable. */
  predicate ProxyBuildable(o: Oracles, up: Upstream) {
    && (up.scheme == "http" || up.scheme == "https")
    && (up.scheme == "https" ==>
          up.tls.mode in ["verify", "", "skip"] || (up.tls.mode == "ca" && CALoads(o, up.tls.caName)))
  }

  datatype Verdict = Serve(name: string) | Degrade(d: Degraded)

  /** What becomes of one mapping. */
  function Judge(o: Oracles, e: Entry): Verdict {
    var name, m := o.canon(e.lb), e.mapping;
    if name == None then Degrade(Degraded(e.lb, m.listenPort, InvalidHostname))
    else if m.listenTLS && !o.covers(name.value) then Degrade(Degraded(name.value, m.listenPort, NotCovered))
    else if !ProxyBuildable(o, m.upstream) then Degrade(Degraded(name.value, m.listenPort, NotServable))
    else Serve(name.value)
  }

  function AddRoute(t: RoutingTable, name: string, m: Mapping): RoutingTable {
    var byHost := if m.listenPort in t.routes then t.routes[m.listenPort] else map[];
    RoutingTable(t.routes[m.listenPort := byHost[name := Entry(name, m)]], t.hosts + {name})
  }

  /** The table and the degraded list after the entries es. */
  function TableOf(o: Oracles, es: seq<Entry>): RoutingTable {
    if es == [] then NO_ROUTES
    else
      var n := |es| - 1;
      var t := TableOf(o, es[..n]);
      var v := Judge(o, es[n]);
      if v.Serve? then AddRoute(t, v.name, es[n].mapping) else t
  }

  function DegradedOf(o: Oracles, es: seq<Entry>): seq<Degraded> {
    if es == [] then []
    else
      var n := |es| - 1;
      var v := Judge(o, es[n]);
      DegradedOf(o, es[..n]) + if v.Serve? then [] else [v.d]
  }

  method BuildRoutingTable(o: Oracles, st: State) returns (t: RoutingTable, degraded: seq<Degraded>)
    ensures t == TableOf(o, Entries(st.lbs)) && degraded == DegradedOf(o, Entries(st.lbs))
  {
    t, degraded := NO_ROUTES, [];
    for i := 0 to |st.lbs|
      invariant t == TableOf(o, Entries(st.lbs[..i])) && degraded == DegradedOf(o, Entries(st.lbs[..i]))
    {
      assert st.lbs[..i + 1][..i] == st.lbs[..i];
      t, degraded := AddBalancer(o, st.lbs[i], t, degraded, Entries(st.lbs[..i]));
    }
    assert st.lbs[..|st.lbs|] == st.lbs;
  }

  /** The body of the outer loop: one load balancer after the entries before. */
  method AddBalancer(o: Oracles, lb: LoadBalancer, t0: RoutingTable, degraded0: seq<Degraded>, ghost before: seq<Entry>)
    returns (t: RoutingTable, degraded: seq<Degraded>)
    requires t0 == TableOf(o, before) && degraded0 == DegradedOf(o, before)
    ensures var es := before + EntriesOf(lb.name, lb.mappings); t == TableOf(o, es) && degraded == DegradedOf(o, es)
  {
    t, degraded := t0, degraded0;
    var name := o.canon(lb.name);
    assert before == before + EntriesOf(lb.name, lb.mappings[..0]);
    for k := 0 to |lb.mappings|
      invariant t == TableOf(o, before + EntriesOf(lb.name, lb.mappings[..k]))
      invariant degraded == DegradedOf(o, before + EntriesOf(lb.name, lb.mappings[..k]))
    {
      var m := lb.mappings[k];
      NextEntry(before, lb.name, lb.mappings, k);
      if name == None {
        degraded := degraded + [Degraded(lb.name, m.listenPort, InvalidHostname)];
      } else if m.listenTLS && !o.covers(name.value) {
        degraded := degraded + [Degraded(name.value, m.listenPort, NotCovered)];
      } else if !ProxyBuildable(o, m.upstream) {
        degraded := degraded + [Degraded(name.value, m.listenPort, NotServable)];
      } else {
        t := AddRoute(t, name.value, m);
      }
    }
    assert lb.mappings[..|lb.mappings|] == lb.mappings;
  }

  function Lookup(t: RoutingTable, port: int, host: string): Option<Entry> {
    if port in t.routes && host in t.routes[port] then Some(t.routes[port][host]) else None
  }

  /** Entry e is served as host on port. */
  predicate Serves(o: Oracles, e: Entry, port: int, host: string) {
    e.mapping.listenPort == port && Judge(o, e) == Serve(host)
  }

  /** No port is listed without a route, and hosts are exactly the routed ones. */
  ghost predicate TableOk(t: RoutingTable) {
    && (forall p | p in t.routes :: t.routes[p] != map[])
    && (forall h :: h in t.hosts <==> exists p :: Lookup(t, p, h).Some?)
  }

  /** A lookup finds the LAST entry served as (port, host), and finds nothing exactly when there is none. */
  lemma {:induction false} LookupIsLastServed(o: Oracles, es: seq<Entry>, port: int, host: string)
    ensures var r := Lookup(TableOf(o, es), port, host);
            && (r == None <==> forall e | e in es :: !Serves(o, e, port, host))
            && (r.Some? ==> exists i ::
                  && 0 <= i < |es| && Serves(o, es[i], port, host) && r.value == Entry(host, es[i].mapping)
                  && forall j | i < j < |es| :: !Serves(o, es[j], port, host))
  {
    if es != [] {
      var n := |es| - 1;
      var s := es[..n];
      LookupIsLastServed(o, s, port, host);
      assert es == s + [es[n]];
      if Serves(o, es[n], port, host) {
      } else {
        assert Lookup(TableOf(o, es), port, host) == Lookup(TableOf(o, s), port, host);
        if Lookup(TableOf(o, s), port, host).Some? {
          var i :| 0 <= i < n && Serves(o, s[i], port, host)
            && Lookup(TableOf(o, s), port, host).value == Entry(host, s[i].mapping)
            && forall j | i < j < n :: !Serves(o, s[j], port, host);
          assert es[i] == s[i] && forall j | i < j < n :: es[j] == s[j];
        }
      }
    }
  }

  lemma {:induction false} TableOfOk(o: Oracles, es: seq<Entry>)
    ensures TableOk(TableOf(o, es))
  {
    if es != [] {
      var n := |es| - 1;
      TableOfOk(o, es[..n]);
      var t, u, v := TableOf(o, es[..n]), TableOf(o, es), Judge(o, es[n]);
      if v.Serve? {
        assert v.name in u.routes[es[n].mapping.listenPort];
        forall h
          ensures h in u.hosts <==> exists p :: Lookup(u, p, h).Some?
        {
          if h == v.name {
            assert Lookup(u, es[n].mapping.listenPort, h).Some?;
          } else {
            assert forall p :: Lookup(u, p, h) == Lookup(t, p, h);
          }
        }
      }
    }
  }

  /** A nonempty set of ports has one to pick. */
  lemma SomePort(ports: set<int>)
    ensures ports == {} || exists p :: p in ports
  {
    if forall p :: p !in ports {
      assert ports == {};
    }
  }

  /** Ports and TLS modes the table needs, with the always-on ports last. */
  method DesiredListeners(t: RoutingTable, httpsPort: int, httpPort: int) returns (desired: map<int, bool>)
    requires TableOk(t)
    ensures DesiredFor(t, httpsPort, httpPort, desired)
  {
    desired := RoutedModes(t);
    desired := desired[httpsPort := true];
    if httpPort > 0 {
      desired := desired[httpPort := false];
    }
  }

  /** The loop over the routed ports. */
  method RoutedModes(t: RoutingTable) returns (desired: map<int, bool>)
    requires TableOk(t)
    ensures desired.Keys == t.routes.Keys && forall p | p in desired :: ModeOf(t, p, desired[p])
  {
    desired := map[];
    var todo := t.routes.Keys;
    while todo != {}
      invariant todo <= t.routes.Keys && desired.Keys == t.routes.Keys - todo
      invariant forall p | p in desired :: ModeOf(t, p, desired[p])
      decreases |todo|
    {
      SomePort(todo);
      var port :| port in todo;
      var mode := AnyMode(t, port);
      desired := desired[port := mode];
      todo := todo - {port};
    }
  }

  /** Some route of the port has this mode. */
  ghost predicate ModeOf(t: RoutingTable, port: int, tls: bool) {
    port in t.routes && exists h :: h in t.routes[port] && t.routes[port][h].mapping.listenTLS == tls
  }

  /** The inner loop, which breaks after the first route it meets. */
  method AnyMode(t: RoutingTable, port: int) returns (tls: bool)
    requires port in t.routes && t.routes[port] != map[]
    ensures ModeOf(t, port, tls)
  {
    var host :| host in t.routes[port];
    tls := t.routes[port][host].mapping.listenTLS;
  }

  /** What DesiredListeners may return: the mode of SOME route of the port, whichever the map yields first. */
  ghost predicate DesiredFor(t: RoutingTable, httpsPort: int, httpPort: int, desired: map<int, bool>) {
    && desired.Keys == t.routes.Keys + {httpsPort} + (if httpPort > 0 then {httpPort} else {})
    && (httpPort > 0 ==> !desired[httpPort])
    && (httpsPort != httpPort || httpPort <= 0 ==> desired[httpsPort])
    && forall p | p in t.routes && p != httpsPort && !(httpPort > 0 && p == httpPort) ::
         ModeOf(t, p, desired[p])
  }

  method WithoutPorts(t: RoutingTable, ports: set<int>) returns (nt: RoutingTable)
    ensures nt == Without(t, ports)
  {
    nt := NO_ROUTES;
    var todo := t.routes.Keys;
    while todo != {}
      invariant todo <= t.routes.Keys
      invariant nt.routes == map p | p in t.routes && p !in todo && p !in ports :: t.routes[p]
      invariant nt.hosts == set p, h | p in t.routes && p !in todo && p !in ports && h in t.routes[p] :: h
      decreases |todo|
    {
      SomePort(todo);
      var port :| port in todo;
      if port !in ports {
        nt := nt.(routes := nt.routes[port := t.routes[port]]);
        nt := nt.(hosts := nt.hosts + t.routes[port].Keys);
      }
      todo := todo - {port};
    }
  }

  function Without(t: RoutingTable, ports: set<int>): RoutingTable {
    RoutingTable(
      map p | p in t.routes && p !in ports :: t.routes[p],
      set p, h | p in t.routes && p !in ports && h in t.routes[p] :: h)
  }

  /** Cutting ports off leaves the other routes alone and the host set exact. */
  lemma WithoutLookup(t: RoutingTable, ports: set<int>)
    requires TableOk(t)
    ensures TableOk(Without(t, ports))
    ensures forall p, h :: Lookup(Without(t, ports), p, h) == if p in ports then None else Lookup(t, p, h)
  {
    var u := Without(t, ports);
    forall h
      ensures h in u.hosts <==> exists p :: Lookup(u, p, h).Some?
    {
      if h in u.hosts {
        var p :| p in t.routes && p !in ports && h in t.routes[p];
        assert Lookup(u, p, h).Some?;
      }
    }
  }
}
