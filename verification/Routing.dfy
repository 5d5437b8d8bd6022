/** From a committed state to the answer a request gets (internal/proxy, internal/txn/validate.go). Several
    steps of the proxy are right only because of what the transaction validator guarantees. */
module Routing {
  import opened Model
  import opened Config
  import opened Rules
  import opened Router
  import opened Server
  import Transactions
  import Witness

  /** The linear scan: the first load balancer called host, then its first mapping on port. */
  function Scan(st: State, port: int, host: string): Option<Mapping> {
    var i := Transactions.LBIndex(st.lbs, host);
    if i < 0 then None
    else
      var k := Transactions.MappingIndex(st.lbs[i].mappings, port);
      if k < 0 then None else Some(st.lbs[i].mappings[k])
  }

  lemma {:induction false} EntriesAre(lbs: seq<LoadBalancer>, e: Entry)
    ensures e in Entries(lbs) <==> exists b :: b in lbs && b.name == e.lb && e.mapping in b.mappings
  {
    if lbs != [] {
      var n := |lbs| - 1;
      var s, own := lbs[..n], EntriesOf(lbs[n].name, lbs[n].mappings);
      assert lbs == s + [lbs[n]];
      EntriesAre(s, e);
      assert e in own <==> lbs[n].name == e.lb && e.mapping in lbs[n].mappings by {
        if lbs[n].name == e.lb && e.mapping in lbs[n].mappings {
          var k :| 0 <= k < |lbs[n].mappings| && lbs[n].mappings[k] == e.mapping;
          assert own[k] == e;
        }
      }
    }
  }

  /** Validation entails servability: with the same oracles, an accepted mapping is served under its own name. */
  lemma CompliantIsServed(p: Params, b: LoadBalancer, m: Mapping)
    requires p.coversSet && CompliantBalancer(p, b) && m in b.mappings
    ensures Judge(p.o, Entry(b.name, m)) == Serve(b.name)
  {
    assert MappingError(p, b.name, m) == None;
  }

  lemma CommittedAreServed(p: Params, st: State)
    requires p.coversSet && Compliant(p, st.lbs)
    ensures forall e | e in Entries(st.lbs) :: Judge(p.o, e) == Serve(e.lb)
  {
    forall e | e in Entries(st.lbs)
      ensures Judge(p.o, e) == Serve(e.lb)
    {
      EntriesAre(st.lbs, e);
      var b :| b in st.lbs && b.name == e.lb && e.mapping in b.mappings;
      CompliantIsServed(p, b, e.mapping);
    }
  }

  /** The degraded list reports exactly the mappings that are not served. */
  lemma {:induction false} DegradedAre(o: Oracles, es: seq<Entry>, d: Degraded)
    ensures d in DegradedOf(o, es) <==> exists e :: e in es && Judge(o, e) == Degrade(d)
  {
    if es != [] {
      var n := |es| - 1;
      var s := es[..n];
      assert es == s + [es[n]];
      DegradedAre(o, s, d);
      assert (exists e :: e in es && Judge(o, e) == Degrade(d)) <==>
             (exists e :: e in s && Judge(o, e) == Degrade(d)) || Judge(o, es[n]) == Degrade(d);
    }
  }

  lemma {:induction false} FailuresAre(es: seq<Entry>, failed: set<int>, d: Degraded)
    ensures d in FailuresOf(es, failed) <==>
      && d.reason == BindFailed && d.listenPort in failed
      && exists e :: e in es && e.lb == d.lb && e.mapping.listenPort == d.listenPort
  {
    if es != [] {
      var n := |es| - 1;
      assert es == es[..n] + [es[n]];
      FailuresAre(es[..n], failed, d);
    }
  }

  lemma ScanFinds(st: State, b: LoadBalancer, m: Mapping)
    requires NamesOk(st.lbs) && b in st.lbs && PortsOk(b.mappings) && m in b.mappings
    ensures Scan(st, m.listenPort, b.name) == Some(m)
  {
    var i :| 0 <= i < |st.lbs| && st.lbs[i] == b;
    var k :| 0 <= k < |b.mappings| && b.mappings[k] == m;
  }

  /** The index agrees with the scan: on a committed state a lookup finds the scanned mapping, or nothing. */
  lemma TableIsScan(p: Params, st: State, port: int, host: string)
    requires p.coversSet && Committable(p, st)
    ensures Lookup(TableOf(p.o, Entries(st.lbs)), port, host)
            == if Scan(st, port, host) == None then None else Some(Entry(host, Scan(st, port, host).value))
  {
    var es := Entries(st.lbs);
    LookupIsLastServed(p.o, es, port, host);
    CommittedAreServed(p, st);
    var s := Scan(st, port, host);
    if s.Some? {
      var e := Entry(host, s.value);
      EntriesAre(st.lbs, e);
      assert Serves(p.o, e, port, host);
    }
    var r := Lookup(TableOf(p.o, es), port, host);
    if r.Some? {
      var j :| 0 <= j < |es| && Serves(p.o, es[j], port, host) && r.value == Entry(host, es[j].mapping);
      assert es[j] in es;
      ServedIsScanned(st, es[j], port);
    }
  }

  lemma ServedIsScanned(st: State, e: Entry, port: int)
    requires WellFormed(st) && e in Entries(st.lbs) && e.mapping.listenPort == port
    ensures Scan(st, port, e.lb) == Some(e.mapping)
  {
    EntriesAre(st.lbs, e);
    var b :| b in st.lbs && b.name == e.lb && e.mapping in b.mappings;
    ScanFinds(st, b, e.mapping);
  }

  lemma DesiredCoversAlwaysOn(t: RoutingTable, c: Config, desired: map<int, bool>)
    requires DesiredFor(t, c.httpsPort, c.httpPort, desired)
    ensures AlwaysOn(c) <= desired.Keys
  {
  }

  /** Apply leaves open exactly what was asked for minus what failed, whatever was open before; every live
      route's port is open. */
  lemma ActiveExactly(o: Oracles, c: Config, st: State, before: map<int, bool>, desired: map<int, bool>,
                      failing: set<int>)
    requires DesiredFor(TableOf(o, Entries(st.lbs)), c.httpsPort, c.httpPort, desired)
    ensures var active := Reopened(before, desired, failing, AlwaysOn(c));
            var failed := FailedPorts(before, desired, failing);
            && active.Keys == desired.Keys - failed
            && (forall p, h :: Lookup(Published(o, st, failed), p, h).Some? ==> p in active)
            && TableOk(Published(o, st, failed))
  {
    var es := Entries(st.lbs);
    TableOfOk(o, es);
    var failed := FailedPorts(before, desired, failing);
    var active := Reopened(before, desired, failing, AlwaysOn(c));
    DesiredCoversAlwaysOn(TableOf(o, es), c, desired);
    WithoutLookup(TableOf(o, es), failed);
    assert forall p :: p in active <==> p in desired && p !in failed;
  }

  /** Each mapping of a committed state is routed or reported, never both and never neither, and it is reported
      exactly when its port failed to bind. */
  lemma RoutedXorDegraded(p: Params, st: State, failed: set<int>, b: LoadBalancer, m: Mapping)
    requires p.coversSet && Committable(p, st) && b in st.lbs && m in b.mappings
    ensures DegradedOf(p.o, Entries(st.lbs)) == []
    ensures Lookup(Published(p.o, st, failed), m.listenPort, b.name)
            == if m.listenPort in failed then None else Some(Entry(b.name, m))
    ensures Degraded(b.name, m.listenPort, BindFailed) in FailuresOf(Entries(st.lbs), failed) <==>
      m.listenPort in failed
  {
    var es := Entries(st.lbs);
    CommittedAreServed(p, st);
    if DegradedOf(p.o, es) != [] {
      DegradedAre(p.o, es, DegradedOf(p.o, es)[0]);
    }
    TableOfOk(p.o, es);
    WithoutLookup(TableOf(p.o, es), failed);
    ScanFinds(st, b, m);
    TableIsScan(p, st, m.listenPort, b.name);
    FailuresAre(es, failed, Degraded(b.name, m.listenPort, BindFailed));
    EntriesAre(st.lbs, Entry(b.name, m));
  }

  /** Entries i and j are served under one name on one port. */
  predicate SamePlace(o: Oracles, e: Entry, f: Entry) {
    Judge(o, e).Serve? && Judge(o, e) == Judge(o, f) && e.mapping.listenPort == f.mapping.listenPort
  }

  /** Every mapping that could be served is found under its canonical name. */
  ghost predicate AllRouted(o: Oracles, st: State) {
    forall e | e in Entries(st.lbs) && Judge(o, e).Serve? ::
      Lookup(TableOf(o, Entries(st.lbs)), e.mapping.listenPort, Judge(o, e).name)
      == Some(Entry(Judge(o, e).name, e.mapping))
  }

  /** A state that was only checked structurally (one loaded at startup, or applied again under new certificates) may
      have two load balancers whose names canonicalize alike. Every servable mapping of any state is routed if and
      only if no two different ones are served under one name on one port; else one of them is neither routed nor
      reported. */
  lemma AllRoutedIff(o: Oracles, st: State)
    ensures AllRouted(o, st) <==>
            forall e, f | e in Entries(st.lbs) && f in Entries(st.lbs) && SamePlace(o, e, f) :: e.mapping == f.mapping
  {
    var es := Entries(st.lbs);
    if forall e, f | e in es && f in es && SamePlace(o, e, f) :: e.mapping == f.mapping {
      forall e | e in es && Judge(o, e).Serve?
        ensures Lookup(TableOf(o, es), e.mapping.listenPort, Judge(o, e).name)
                == Some(Entry(Judge(o, e).name, e.mapping))
      {
        FoundIsSamePlace(o, es, e);
      }
    }
    if AllRouted(o, st) {
      forall e, f | e in es && f in es && SamePlace(o, e, f) ensures e.mapping == f.mapping {
        var n := Judge(o, e).name;
        assert Lookup(TableOf(o, es), e.mapping.listenPort, n) == Some(Entry(n, e.mapping));
        assert Lookup(TableOf(o, es), f.mapping.listenPort, n) == Some(Entry(n, f.mapping));
      }
    }
  }

  /** What is found where e is served is served in the same place. */
  lemma FoundIsSamePlace(o: Oracles, es: seq<Entry>, e: Entry)
    requires e in es && Judge(o, e).Serve?
    ensures var r := Lookup(TableOf(o, es), e.mapping.listenPort, Judge(o, e).name);
            r.Some? && exists f :: f in es && SamePlace(o, e, f) && r.value == Entry(Judge(o, e).name, f.mapping)
  {
    var port, n := e.mapping.listenPort, Judge(o, e).name;
    LookupIsLastServed(o, es, port, n);
    assert Serves(o, e, port, n);
    var i :|
      && 0 <= i < |es| && Serves(o, es[i], port, n)
      && Lookup(TableOf(o, es), port, n) == Some(Entry(n, es[i].mapping));
    assert es[i] in es && SamePlace(o, e, es[i]);
  }

  /** Two load balancers with one mapping each on the same port, to different upstreams. */
  function Twins(a: string, b: string): State {
    State(1, [LoadBalancer(a, "", 0, [TwinOf(Witness.UPSTREAM)]), LoadBalancer(b, "", 0, [TwinOf(Witness.OTHER)])], [])
  }

  function TwinOf(up: Upstream): Mapping {
    Mapping(8443, true, up, "", false)
  }

  lemma TwinEntries(a: string, b: string)
    ensures Entries(Twins(a, b).lbs) == [Entry(a, TwinOf(Witness.UPSTREAM)), Entry(b, TwinOf(Witness.OTHER))]
  {
    var lbs := Twins(a, b).lbs;
    assert lbs[..1] == [lbs[0]] && lbs[..1][..0] == [];
    assert EntriesOf(a, lbs[0].mappings) == [Entry(a, TwinOf(Witness.UPSTREAM))];
    assert EntriesOf(b, lbs[1].mappings) == [Entry(b, TwinOf(Witness.OTHER))];
    assert Entries(lbs[..1]) == [Entry(a, TwinOf(Witness.UPSTREAM))];
  }

  /** If a and b have one canonical name, b's mapping is routed, a's is not, and nothing is reported. */
  lemma OneIsLost(a: string, b: string, n: string, o: Oracles)
    requires o.canon(a) == o.canon(b) == Some(n) && o.covers(n)
    ensures DegradedOf(o, Entries(Twins(a, b).lbs)) == [] && !AllRouted(o, Twins(a, b))
    ensures Lookup(TableOf(o, Entries(Twins(a, b).lbs)), 8443, n) == Some(Entry(n, TwinOf(Witness.OTHER)))
  {
    TwinEntries(a, b);
    var es := Entries(Twins(a, b).lbs);
    assert Serves(o, es[0], 8443, n) && Serves(o, es[1], 8443, n);
    LookupIsLastServed(o, es, 8443, n);
    if DegradedOf(o, es) != [] {
      DegradedAre(o, es, DegradedOf(o, es)[0]);
    }
    assert es[0] in es && es[0].mapping != es[1].mapping;
  }

  /** The mapping the scan finds for a raw host name on a port, under the canonical name. */
  function Scanned(p: Params, st: State, port: int, rawHost: string): Option<Entry> {
    var h := p.o.canon(rawHost);
    if h == None || Scan(st, port, h.value) == None then None else Some(Entry(h.value, Scan(st, port, h.value).value))
  }

  /** The route a response was proxied for. */
  function ProxiedTo(r: Response): Option<Entry> {
    if r.Proxied? then Some(r.route) else None
  }

  /** What a server serves for st: on an open port a raw host name is proxied to just what the scan of the state
      finds for it, if anything. */
  ghost predicate ServesState(p: Params, st: State, active: map<int, bool>, routes: RoutingTable) {
    forall mgmt, port, rawHost | port in active ::
      ProxiedTo(Respond(p.o, p.cfg, mgmt, routes, port, rawHost)) == Scanned(p, st, port, rawHost)
  }

  /** A committed mapping sits on no reserved port and under no reserved name. */
  lemma NotShadowed(p: Params, st: State, port: int, h: string)
    requires Committable(p, st) && Scan(st, port, h).Some?
    ensures 1 <= port && !(p.cfg.httpPort > 0 && port == p.cfg.httpPort)
    ensures !(p.cfg.mgmtHost != "" && h == p.cfg.mgmtHost)
    ensures p.o.canon(h) == Some(h)
    ensures port == p.cfg.httpsPort ==> Scan(st, port, h).value.listenTLS
  {
    var b := st.lbs[Transactions.LBIndex(st.lbs, h)];
    assert CompliantBalancer(p, b);
    assert MappingError(p, b.name, Scan(st, port, h).value) == None;
  }

  /** End to end: after a committed state is applied, dispatch is the scan; nothing committed on an open port
      is shadowed by the management host or by the redirect handler. */
  lemma AppliedServesState(p: Params, st: State, before: map<int, bool>, failing: set<int>, active: map<int, bool>,
                           routes: RoutingTable)
    requires p.coversSet && Committable(p, st) && Normalized(p.cfg)
    requires AppliedTo(p.o, p.cfg, st, before, failing, active, routes)
    ensures ServesState(p, st, active, routes)
  {
    var desired :|
      && DesiredFor(TableOf(p.o, Entries(st.lbs)), p.cfg.httpsPort, p.cfg.httpPort, desired)
      && active == Reopened(before, desired, failing, AlwaysOn(p.cfg))
      && routes == Published(p.o, st, FailedPorts(before, desired, failing));
    ActiveExactly(p.o, p.cfg, st, before, desired, failing);
    TableOfOk(p.o, Entries(st.lbs));
    WithoutLookup(TableOf(p.o, Entries(st.lbs)), FailedPorts(before, desired, failing));
    forall mgmt, port, rawHost | port in active
      ensures ProxiedTo(Respond(p.o, p.cfg, mgmt, routes, port, rawHost)) == Scanned(p, st, port, rawHost)
    {
      forall host ensures Lookup(routes, port, host) == Lookup(TableOf(p.o, Entries(st.lbs)), port, host) {
      }
      RespondIsScan(p, st, routes, mgmt, port, rawHost);
    }
  }

  /** On a port whose routes are those of the full table. */
  lemma RespondIsScan(p: Params, st: State, routes: RoutingTable, mgmt: bool, port: int, rawHost: string)
    requires p.coversSet && Committable(p, st)
    requires forall host :: Lookup(routes, port, host) == Lookup(TableOf(p.o, Entries(st.lbs)), port, host)
    ensures ProxiedTo(Respond(p.o, p.cfg, mgmt, routes, port, rawHost)) == Scanned(p, st, port, rawHost)
  {
    if p.o.canon(rawHost).Some? {
      var h := p.o.canon(rawHost).value;
      TableIsScan(p, st, port, h);
      if Scan(st, port, h).Some? {
        NotShadowed(p, st, port, h);
      }
    }
  }

  /** The http port redirects a host exactly when a certificate covers it and some open port routes it. */
  lemma RedirectsLiveHosts(p: Params, st: State, before: map<int, bool>, failing: set<int>, active: map<int, bool>,
                           routes: RoutingTable, mgmt: bool, rawHost: string, h: string)
    requires AppliedTo(p.o, p.cfg, st, before, failing, active, routes)
    ensures Respond(p.o, p.cfg, mgmt, routes, p.cfg.httpPort, rawHost) == Redirect(h) <==>
            && p.o.canon(rawHost) == Some(h) && p.o.covers(h)
            && exists port :: port in active && Lookup(routes, port, h).Some?
  {
    var desired :|
      && DesiredFor(TableOf(p.o, Entries(st.lbs)), p.cfg.httpsPort, p.cfg.httpPort, desired)
      && active == Reopened(before, desired, failing, AlwaysOn(p.cfg))
      && routes == Published(p.o, st, FailedPorts(before, desired, failing));
    ActiveExactly(p.o, p.cfg, st, before, desired, failing);
  }
}
