/** The data plane (internal/proxy/listeners.go, internal/proxy/server.go): listeners, the published routing
    table, and what a request gets. */
module Server {
  import opened Model
  import opened Config
  import opened Router

  /** The listeners after a Reconcile: bound port -> TLS. A port already open keeps its listener AND its mode. */
  function Reopened(active: map<int, bool>, desired: map<int, bool>, failing: set<int>, alwaysOn: set<int>)
    : map<int, bool>
  {
    (map p | p in desired && p !in active && p !in failing :: desired[p])
    + (map p | p in active && (p in alwaysOn || p in desired) :: active[p])
  }

  /** The ports that had to be opened and could not be. */
  function FailedPorts(active: map<int, bool>, desired: map<int, bool>, failing: set<int>): set<int> {
    set p | p in desired && p !in active && p in failing
  }

  class Listeners {
    const alwaysOn: set<int>
    var active: map<int, bool>

    constructor (alwaysOn: set<int>)
      ensures this.alwaysOn == alwaysOn && active == map[]
    {
      this.alwaysOn := alwaysOn;
      active := map[];
    }

    /** failing: the ports net.Listen refuses this time. */
    method Reconcile(desired: map<int, bool>, failing: set<int>) returns (failed: set<int>)
      modifies this
      ensures active == Reopened(old(active), desired, failing, alwaysOn)
      ensures failed == FailedPorts(old(active), desired, failing)
    {
      failed := OpenMissing(desired, failing);
      CloseStale(desired);
      ghost var expected := Reopened(old(active), desired, failing, alwaysOn);
      assert forall p :: p in active <==> p in expected;
      assert forall p | p in active :: active[p] == expected[p];
    }

    method OpenMissing(desired: map<int, bool>, failing: set<int>) returns (failed: set<int>)
      modifies this
      ensures forall p :: p in active <==> p in old(active) || (p in desired && p !in failing)
      ensures forall p | p in active :: active[p] == if p in old(active) then old(active)[p] else desired[p]
      ensures failed == FailedPorts(old(active), desired, failing)
    {
      failed := {};
      var todo := desired.Keys;
      while todo != {}
        invariant todo <= desired.Keys
        invariant forall p :: p in failed <==> p in desired && p !in old(active) && p in failing && p !in todo
        invariant forall p :: p in active <==> p in old(active) || (p in desired && p !in failing && p !in todo)
        invariant forall p | p in active :: active[p] == if p in old(active) then old(active)[p] else desired[p]
        decreases |todo|
      {
        SomePort(todo);
        var port :| port in todo;
        if port !in active {
          if port in failing {
            failed := failed + {port};
          } else {
            active := active[port := desired[port]];
          }
        }
        todo := todo - {port};
      }
      assert forall p :: p in failed <==> p in FailedPorts(old(active), desired, failing);
    }

    method CloseStale(desired: map<int, bool>)
      modifies this
      ensures forall p :: p in active <==> p in old(active) && (p in alwaysOn || p in desired)
      ensures forall p | p in active :: active[p] == old(active)[p]
    {
      var todo := active.Keys;
      while todo != {}
        invariant todo <= active.Keys
        invariant forall p :: p in active <==> p in old(active) && (p in todo || p in alwaysOn || p in desired)
        invariant forall p | p in active :: active[p] == old(active)[p]
        decreases |todo|
      {
        SomePort(todo);
        var port :| port in todo;
        todo := todo - {port};
        if port !in alwaysOn && port !in desired {
          active := active - {port};
        }
      }
    }
  }

  /** One mapping that lost its port. */
  function FailuresOf(es: seq<Entry>, failed: set<int>): seq<Degraded> {
    if es == [] then []
    else
      var n := |es| - 1;
      FailuresOf(es[..n], failed)
      + if es[n].mapping.listenPort in failed then [Degraded(es[n].lb, es[n].mapping.listenPort, BindFailed)] else []
  }

  /** All declared listen ports, served or not: what the loop guard protects. */
  function AllListenPorts(c: Config, lbs: seq<LoadBalancer>): set<int> {
    {c.httpsPort} + (if c.httpPort > 0 then {c.httpPort} else {})
    + set b, m | b in lbs && m in b.mappings :: m.listenPort
  }

  function AlwaysOn(c: Config): set<int> {
    {c.httpsPort} + if c.httpPort > 0 then {c.httpPort} else {}
  }

  datatype Response = NotFound404 | Management | Redirect(host: string) | Proxied(route: Entry)

  /** Serving (port, rawHost) with a table: the redirect handler on the http port, dispatch elsewhere. */
  function Respond(o: Oracles, c: Config, mgmtInstalled: bool, t: RoutingTable, port: int, rawHost: string): Response {
    var host := o.canon(rawHost);
    if port == c.httpPort then
      if host == None || !o.covers(host.value) || host.value !in t.hosts then NotFound404 else Redirect(host.value)
    else if host == None then NotFound404
    else if c.mgmtHost != "" && host.value == c.mgmtHost then
      if mgmtInstalled then Management else NotFound404
    else
      var r := Lookup(t, port, host.value);
      if r == None then NotFound404 else Proxied(r.value)
  }

  class Server {
    const cfg: Config
    const listeners: Listeners
    var routes: RoutingTable
    var selfPorts: set<int>
    var mgmtInstalled: bool

    constructor (cfg: Config)
      ensures this.cfg == cfg && fresh(listeners) && listeners.active == map[] && listeners.alwaysOn == AlwaysOn(cfg)
      ensures routes == NO_ROUTES && selfPorts == {} && !mgmtInstalled
    {
      this.cfg := cfg;
      listeners := new Listeners(AlwaysOn(cfg));
      routes := NO_ROUTES;
      selfPorts := {};
      mgmtInstalled := false;
    }

    /** Rebuilds routes and listeners from st; desired is the listener set this run asked for. */
    method Apply(o: Oracles, st: State, failing: set<int>)
      returns (degraded: seq<Degraded>, ghost desired: map<int, bool>)
      modifies this, listeners
      ensures mgmtInstalled == old(mgmtInstalled)
      ensures selfPorts == AllListenPorts(cfg, st.lbs)
      ensures DesiredFor(TableOf(o, Entries(st.lbs)), cfg.httpsPort, cfg.httpPort, desired)
      ensures listeners.active == Reopened(old(listeners.active), desired, failing, listeners.alwaysOn)
      ensures var failed := FailedPorts(old(listeners.active), desired, failing);
              && routes == Published(o, st, failed)
              && degraded == DegradedOf(o, Entries(st.lbs)) + FailuresOf(Entries(st.lbs), failed)
    {
      selfPorts := ListenPorts(st);
      var table;
      table, degraded := BuildRoutingTable(o, st);
      TableOfOk(o, Entries(st.lbs));
      var want := DesiredListeners(table, cfg.httpsPort, cfg.httpPort);
      desired := want;
      var failed := listeners.Reconcile(want, failing);
      if |failed| > 0 {
        table := WithoutPorts(table, failed);
        var lost := ListenerFailures(st, failed);
        degraded := degraded + lost;
      } else {
        NoFailures(Entries(st.lbs));
        assert failed == {};
      }
      routes := table;
    }

    method ListenPorts(st: State) returns (ports: set<int>)
      ensures ports == AllListenPorts(cfg, st.lbs)
    {
      ports := {cfg.httpsPort};
      if cfg.httpPort > 0 {
        ports := ports + {cfg.httpPort};
      }
      for i := 0 to |st.lbs|
        invariant ports == AllListenPorts(cfg, st.lbs[..i])
      {
        var lb := st.lbs[i];
        for k := 0 to |lb.mappings|
          invariant ports == AllListenPorts(cfg, st.lbs[..i]) + set m | m in lb.mappings[..k] :: m.listenPort
        {
          ports := ports + {lb.mappings[k].listenPort};
          assert lb.mappings[..k + 1] == lb.mappings[..k] + [lb.mappings[k]];
        }
        assert lb.mappings[..|lb.mappings|] == lb.mappings;
        assert st.lbs[..i + 1] == st.lbs[..i] + [lb];
      }
      assert st.lbs[..|st.lbs|] == st.lbs;
    }
  }

  /** The table that goes live: without the ports that failed, if any did. */
  function Published(o: Oracles, st: State, failed: set<int>): RoutingTable {
    var t := TableOf(o, Entries(st.lbs));
    if failed == {} then t else Without(t, failed)
  }

  /** What applying st to a server leaves, for one of the listener sets the table may ask for. */
  ghost predicate AppliedTo(o: Oracles, c: Config, st: State, before: map<int, bool>, failing: set<int>,
                            active: map<int, bool>, routes: RoutingTable) {
    exists desired ::
      && DesiredFor(TableOf(o, Entries(st.lbs)), c.httpsPort, c.httpPort, desired)
      && active == Reopened(before, desired, failing, AlwaysOn(c))
      && routes == Published(o, st, FailedPorts(before, desired, failing))
  }

  lemma {:induction false} NoFailures(es: seq<Entry>)
    ensures FailuresOf(es, {}) == []
  {
    if es != [] {
      NoFailures(es[..|es| - 1]);
    }
  }

  method ListenerFailures(st: State, failed: set<int>) returns (out: seq<Degraded>)
    ensures out == FailuresOf(Entries(st.lbs), failed)
  {
    out := [];
    for i := 0 to |st.lbs|
      invariant out == FailuresOf(Entries(st.lbs[..i]), failed)
    {
      assert st.lbs[..i + 1][..i] == st.lbs[..i];
      out := BalancerFailures(st.lbs[i], failed, out, Entries(st.lbs[..i]));
    }
    assert st.lbs[..|st.lbs|] == st.lbs;
  }

  method BalancerFailures(lb: LoadBalancer, failed: set<int>, out0: seq<Degraded>, ghost before: seq<Entry>)
    returns (out: seq<Degraded>)
    requires out0 == FailuresOf(before, failed)
    ensures out == FailuresOf(before + EntriesOf(lb.name, lb.mappings), failed)
  {
    out := out0;
    assert before == before + EntriesOf(lb.name, lb.mappings[..0]);
    for k := 0 to |lb.mappings|
      invariant out == FailuresOf(before + EntriesOf(lb.name, lb.mappings[..k]), failed)
    {
      var m := lb.mappings[k];
      NextEntry(before, lb.name, lb.mappings, k);
      if m.listenPort in failed {
        out := out + [Degraded(lb.name, m.listenPort, BindFailed)];
      }
    }
    assert lb.mappings[..|lb.mappings|] == lb.mappings;
  }
}
