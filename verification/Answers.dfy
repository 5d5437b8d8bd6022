/** What the proxy does, said of the state, the configuration and the oracles only: which mappings are routed, what is
    reported of the others, and what each request is answered (internal/proxy). */
module Answers {
  import opened Model
  import opened Config
  import opened Rules
  import opened Router
  import opened Server
  import opened Routing
  import Transactions

  /** The mapping is in the state. */
  ghost predicate Maps(st: State, b: LoadBalancer, m: Mapping) {
    b in st.lbs && m in b.mappings
  }

  /** A proxy can be built for the upstream. */
  predicate UpstreamUsable(o: Oracles, up: Upstream) {
    || up.scheme == "http"
    || (up.scheme == "https" && up.tls.mode in ["", "verify", "skip"])
    || (up.scheme == "https" && up.tls.mode == "ca" && ValidCAName(up.tls.caName) && o.caReadable(up.tls.caName))
  }

  /** A mapping of a load balancer of this name can be served for host: the name canonicalizes to it, a certificate
      covers it if the port speaks TLS, and the upstream is usable. */
  predicate CanServe(o: Oracles, name: string, m: Mapping, host: string) {
    o.canon(name) == Some(host) && (m.listenTLS ==> o.covers(host)) && UpstreamUsable(o, m.upstream)
  }

  lemma UsableIsBuildable(o: Oracles, up: Upstream)
    ensures ProxyBuildable(o, up) <==> UpstreamUsable(o, up)
  {
    var mode := up.tls.mode;
    assert mode in ["verify", "", "skip"] <==> mode == "verify" || mode == "" || mode == "skip";
    assert mode in ["", "verify", "skip"] <==> mode == "" || mode == "verify" || mode == "skip";
  }

  lemma ServedIff(o: Oracles, e: Entry, host: string)
    ensures Judge(o, e) == Serve(host) <==> CanServe(o, e.lb, e.mapping, host)
  {
    UsableIsBuildable(o, e.mapping.upstream);
  }

  /** For any state and any oracles: a lookup finds something if and only if some mapping on the port can be served for
      the host, and what it finds is the last such mapping in scan order. */
  lemma LookupIff(o: Oracles, st: State, port: int, host: string)
    ensures var r := Lookup(TableOf(o, Entries(st.lbs)), port, host);
            && (r.Some? <==> exists b, m :: Maps(st, b, m) && m.listenPort == port && CanServe(o, b.name, m, host))
            && (r.Some? ==> exists i ::
                  LastAt(o, Entries(st.lbs), port, host, i) && r.value == Entry(host, Entries(st.lbs)[i].mapping))
  {
    var es := Entries(st.lbs);
    LookupIsLastServed(o, es, port, host);
    if b, m :| Maps(st, b, m) && m.listenPort == port && CanServe(o, b.name, m, host) {
      ServedIff(o, Entry(b.name, m), host);
      EntriesAre(st.lbs, Entry(b.name, m));
      assert Serves(o, Entry(b.name, m), port, host);
    }
    var r := Lookup(TableOf(o, es), port, host);
    if r.Some? {
      var i :| 0 <= i < |es| && Serves(o, es[i], port, host) && r.value == Entry(host, es[i].mapping)
        && forall j | i < j < |es| :: !Serves(o, es[j], port, host);
      forall j | i <= j < |es|
        ensures Serves(o, es[j], port, host) <==>
                es[j].mapping.listenPort == port && CanServe(o, es[j].lb, es[j].mapping, host)
      {
        ServedIff(o, es[j], host);
      }
      assert LastAt(o, es, port, host, i);
      EntriesAre(st.lbs, es[i]);
      var b :| b in st.lbs && b.name == es[i].lb && es[i].mapping in b.mappings;
      assert Maps(st, b, es[i].mapping);
    }
  }

  /** Entry i can be served for host on port, and no later one can. */
  ghost predicate LastAt(o: Oracles, es: seq<Entry>, port: int, host: string, i: int) {
    && 0 <= i < |es| && es[i].mapping.listenPort == port && CanServe(o, es[i].lb, es[i].mapping, host)
    && forall j | i < j < |es| ::
         !(es[j].mapping.listenPort == port && CanServe(o, es[j].lb, es[j].mapping, host))
  }

  /** The entries are the mappings, load balancer by load balancer, each in its list's order. */
  lemma {:induction false} EntriesInOrder(lbs: seq<LoadBalancer>, i: nat, k: nat)
    requires i < |lbs| && k < |lbs[i].mappings|
    ensures var at := |Entries(lbs[..i])| + k;
            at < |Entries(lbs)| && Entries(lbs)[at] == Entry(lbs[i].name, lbs[i].mappings[k])
  {
    var n := |lbs| - 1;
    if i < n {
      EntriesInOrder(lbs[..n], i, k);
      assert lbs[..n][..i] == lbs[..i];
    }
  }

  /** What is reported of a mapping that cannot be served: the first reason, in this order. */
  ghost predicate Reported(o: Oracles, name: string, m: Mapping, d: Degraded) {
    d.listenPort == m.listenPort &&
    match d.reason
    case InvalidHostname => o.canon(name) == None && d.lb == name
    case NotCovered => o.canon(name) == Some(d.lb) && m.listenTLS && !o.covers(d.lb)
    case NotServable =>
      o.canon(name) == Some(d.lb) && (m.listenTLS ==> o.covers(d.lb)) && !UpstreamUsable(o, m.upstream)
    case BindFailed => false
  }

  /** For any state and any oracles the degraded list holds exactly these reports. */
  lemma DegradedIff(o: Oracles, st: State, d: Degraded)
    ensures d in DegradedOf(o, Entries(st.lbs)) <==> exists b, m :: Maps(st, b, m) && Reported(o, b.name, m, d)
  {
    var es := Entries(st.lbs);
    DegradedAre(o, es, d);
    if e :| e in es && Judge(o, e) == Degrade(d) {
      EntriesAre(st.lbs, e);
      var b :| b in st.lbs && b.name == e.lb && e.mapping in b.mappings;
      UsableIsBuildable(o, e.mapping.upstream);
      assert Maps(st, b, e.mapping) && Reported(o, b.name, e.mapping, d);
    }
    if b, m :| Maps(st, b, m) && Reported(o, b.name, m, d) {
      EntriesAre(st.lbs, Entry(b.name, m));
      UsableIsBuildable(o, m.upstream);
      assert Judge(o, Entry(b.name, m)) == Degrade(d);
    }
  }

  /** The list is in scan order, and each mapping contributes one report if it cannot be served, none if it can. */
  lemma {:induction false} DegradedInOrder(o: Oracles, s: seq<Entry>, e: Entry, t: seq<Entry>)
    ensures exists r :: DegradedOf(o, s + [e] + t) == DegradedOf(o, s) + r + DegradedOf(o, t) && OneReport(o, e, r)
    decreases |t|
  {
    var es := s + [e] + t;
    if t == [] {
      assert es == s + [e] && es[..|s|] == s;
      UsableIsBuildable(o, e.mapping.upstream);
      var r := match Judge(o, e) case Serve(_) => [] case Degrade(d) => [d];
      assert DegradedOf(o, es) == DegradedOf(o, s) + r + DegradedOf(o, t) && OneReport(o, e, r);
    } else {
      var n := |t| - 1;
      assert es[..|es| - 1] == s + [e] + t[..n];
      DegradedInOrder(o, s, e, t[..n]);
      var r :| DegradedOf(o, s + [e] + t[..n]) == DegradedOf(o, s) + r + DegradedOf(o, t[..n]) && OneReport(o, e, r);
      assert DegradedOf(o, es) == DegradedOf(o, s) + r + DegradedOf(o, t);
    }
  }

  ghost predicate OneReport(o: Oracles, e: Entry, r: seq<Degraded>) {
    if Servable(o, e) then r == [] else |r| == 1 && Reported(o, e.lb, e.mapping, r[0])
  }

  predicate Servable(o: Oracles, e: Entry) {
    o.canon(e.lb).Some? && CanServe(o, e.lb, e.mapping, o.canon(e.lb).value)
  }

  /** On a well-formed state the scan finds a mapping if and only if the state has it. */
  lemma ScanIff(st: State, port: int, host: string, m: Mapping)
    requires WellFormed(st)
    ensures Scan(st, port, host) == Some(m) <==>
            m.listenPort == port && exists b :: Maps(st, b, m) && b.name == host
  {
    if b :| Maps(st, b, m) && b.name == host && m.listenPort == port {
      ScanFinds(st, b, m);
    }
    if Scan(st, port, host) == Some(m) {
      var b := st.lbs[Transactions.LBIndex(st.lbs, host)];
      assert Maps(st, b, m) && b.name == host;
    }
  }

  /** The configuration or a mapping asks to listen on the port. */
  ghost predicate Declared(c: Config, st: State, port: int) {
    || port == c.httpsPort
    || (c.httpPort > 0 && port == c.httpPort)
    || exists b, m :: Maps(st, b, m) && m.listenPort == port
  }

  lemma GuardedIff(c: Config, st: State, port: int)
    ensures port in AllListenPorts(c, st.lbs) <==> Declared(c, st, port)
  {
    if b, m :| b in st.lbs && m in b.mappings && m.listenPort == port {
      assert Maps(st, b, m);
    }
  }

  /** After a committed state is applied a port is open if and only if it is declared and was open before or could be
      opened. */
  lemma OpenIff(p: Params, st: State, before: map<int, bool>, failing: set<int>, active: map<int, bool>,
                routes: RoutingTable, port: int)
    requires p.coversSet && Committable(p, st)
    requires AppliedTo(p.o, p.cfg, st, before, failing, active, routes)
    ensures port in active <==> Declared(p.cfg, st, port) && (port in before || port !in failing)
  {
    var t := TableOf(p.o, Entries(st.lbs));
    var desired :|
      && DesiredFor(t, p.cfg.httpsPort, p.cfg.httpPort, desired)
      && active == Reopened(before, desired, failing, AlwaysOn(p.cfg))
      && routes == Published(p.o, st, FailedPorts(before, desired, failing));
    ActiveExactly(p.o, p.cfg, st, before, desired, failing);
    RoutedPorts(p, st, port);
  }

  lemma RoutedPorts(p: Params, st: State, port: int)
    requires p.coversSet && Committable(p, st)
    ensures port in TableOf(p.o, Entries(st.lbs)).routes <==> exists b, m :: Maps(st, b, m) && m.listenPort == port
  {
    var t := TableOf(p.o, Entries(st.lbs));
    TableOfOk(p.o, Entries(st.lbs));
    if b, m :| Maps(st, b, m) && m.listenPort == port {
      ScanFinds(st, b, m);
      TableIsScan(p, st, port, b.name);
    }
    if port in t.routes {
      var host :| host in t.routes[port];
      assert Lookup(t, port, host).Some?;
      LookupIff(p.o, st, port, host);
    }
  }

  /** Some open port has a mapping for host. */
  ghost predicate IsLive(st: State, active: map<int, bool>, host: string) {
    exists q :: q in active && Scan(st, q, host).Some?
  }

  /** r is the right answer to a request for rawHost on an open port: the management handler off the http port for the
      management host if it is installed; the proxy for what the scan finds; a redirect on the http port for a covered
      host that is live; and otherwise, since there is no other response, not found. */
  ghost predicate Answered(p: Params, st: State, active: map<int, bool>, mgmt: bool, port: int, rawHost: string,
                           r: Response)
  {
    var h := p.o.canon(rawHost);
    && (r == Management <==> port != p.cfg.httpPort && mgmt && p.cfg.mgmtHost != "" && h == Some(p.cfg.mgmtHost))
    && (r.Proxied? <==> h.Some? && Scan(st, port, h.value).Some?)
    && (r.Proxied? ==> r.route == Entry(h.value, Scan(st, port, h.value).value))
    && (r.Redirect? <==> port == p.cfg.httpPort && h.Some? && p.o.covers(h.value) && IsLive(st, active, h.value))
    && (r.Redirect? ==> h == Some(r.host))
  }

  ghost predicate AnswersState(p: Params, st: State, active: map<int, bool>, routes: RoutingTable) {
    forall mgmt, port, rawHost | port in active ::
      Answered(p, st, active, mgmt, port, rawHost, Respond(p.o, p.cfg, mgmt, routes, port, rawHost))
  }

  /** After a committed state is applied every request on an open port gets its right answer, whatever was open before
      and whatever fails to bind. */
  lemma AppliedAnswers(p: Params, st: State, before: map<int, bool>, failing: set<int>, active: map<int, bool>,
                       routes: RoutingTable)
    requires p.coversSet && Committable(p, st) && Normalized(p.cfg)
    requires AppliedTo(p.o, p.cfg, st, before, failing, active, routes)
    ensures AnswersState(p, st, active, routes)
  {
    AppliedServesState(p, st, before, failing, active, routes);
    forall host ensures host in routes.hosts <==> IsLive(st, active, host) {
      LiveHosts(p, st, before, failing, active, routes, host);
    }
    forall mgmt, port, rawHost | port in active
      ensures Answered(p, st, active, mgmt, port, rawHost, Respond(p.o, p.cfg, mgmt, routes, port, rawHost))
    {
      OneAnswer(p, st, active, routes, mgmt, port, rawHost);
    }
  }

  lemma LiveHosts(p: Params, st: State, before: map<int, bool>, failing: set<int>, active: map<int, bool>,
                  routes: RoutingTable, host: string)
    requires p.coversSet && Committable(p, st)
    requires AppliedTo(p.o, p.cfg, st, before, failing, active, routes)
    ensures host in routes.hosts <==> IsLive(st, active, host)
  {
    var t := TableOf(p.o, Entries(st.lbs));
    var desired :|
      && DesiredFor(t, p.cfg.httpsPort, p.cfg.httpPort, desired)
      && active == Reopened(before, desired, failing, AlwaysOn(p.cfg))
      && routes == Published(p.o, st, FailedPorts(before, desired, failing));
    ActiveExactly(p.o, p.cfg, st, before, desired, failing);
    TableOfOk(p.o, Entries(st.lbs));
    WithoutLookup(t, FailedPorts(before, desired, failing));
    if q :| Lookup(routes, q, host).Some? {
      TableIsScan(p, st, q, host);
      assert q in active && Scan(st, q, host).Some?;
    }
    if q :| q in active && Scan(st, q, host).Some? {
      TableIsScan(p, st, q, host);
      assert Lookup(routes, q, host).Some?;
    }
  }

  lemma OneAnswer(p: Params, st: State, active: map<int, bool>, routes: RoutingTable, mgmt: bool, port: int,
                  rawHost: string)
    requires ServesState(p, st, active, routes) && port in active
    requires forall host :: host in routes.hosts <==> IsLive(st, active, host)
    ensures Answered(p, st, active, mgmt, port, rawHost, Respond(p.o, p.cfg, mgmt, routes, port, rawHost))
  {
    assert ProxiedTo(Respond(p.o, p.cfg, mgmt, routes, port, rawHost)) == Scanned(p, st, port, rawHost);
  }
}
