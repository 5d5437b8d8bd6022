/** TLS modes of listeners: what is asked for is determined by the state; what an open listener speaks is what was
    asked for when it was opened (internal/proxy/router.go, internal/proxy/listeners.go). */
module Modes {
  import opened Model
  import opened Config
  import opened Rules
  import opened Router
  import opened Server
  import opened Routing
  import opened Transactions
  import Effects
  import Witness

  /** Whichever route the map yields first, the mode asked for is that of every mapping on the port. */
  lemma DesiredModeOfMappings(p: Params, st: State, desired: map<int, bool>, b: LoadBalancer, m: Mapping)
    requires p.coversSet && Committable(p, st) && b in st.lbs && m in b.mappings
    requires DesiredFor(TableOf(p.o, Entries(st.lbs)), p.cfg.httpsPort, p.cfg.httpPort, desired)
    ensures m.listenPort in desired && desired[m.listenPort] == m.listenTLS
  {
    var t := TableOf(p.o, Entries(st.lbs));
    ScanFinds(st, b, m);
    TableIsScan(p, st, m.listenPort, b.name);
    NotShadowed(p, st, m.listenPort, b.name);
    assert Lookup(t, m.listenPort, b.name) == Some(Entry(b.name, m));
    if m.listenPort != p.cfg.httpsPort {
      var h :| h in t.routes[m.listenPort] && t.routes[m.listenPort][h].mapping.listenTLS == desired[m.listenPort];
      RoutedIsMapped(p, st, m.listenPort, h);
    }
  }

  /** A route of a committed state is that of a mapping. */
  lemma RoutedIsMapped(p: Params, st: State, port: int, h: string)
    requires p.coversSet && Committable(p, st)
    requires Lookup(TableOf(p.o, Entries(st.lbs)), port, h).Some?
    ensures var m := Lookup(TableOf(p.o, Entries(st.lbs)), port, h).value.mapping;
            m.listenPort == port && exists b :: b in st.lbs && m in b.mappings
  {
    TableIsScan(p, st, port, h);
    assert st.lbs[LBIndex(st.lbs, h)] in st.lbs;
  }

  /** So on committed states the iteration order of the map does not matter. */
  lemma DesiredIsUnique(p: Params, st: State, d: map<int, bool>, e: map<int, bool>)
    requires p.coversSet && Committable(p, st)
    requires DesiredFor(TableOf(p.o, Entries(st.lbs)), p.cfg.httpsPort, p.cfg.httpPort, d)
    requires DesiredFor(TableOf(p.o, Entries(st.lbs)), p.cfg.httpsPort, p.cfg.httpPort, e)
    ensures d == e
  {
    var t := TableOf(p.o, Entries(st.lbs));
    forall q | q in d ensures d[q] == e[q] {
      if q in t.routes && q != p.cfg.httpsPort && !(p.cfg.httpPort > 0 && q == p.cfg.httpPort) {
        var h :| h in t.routes[q] && t.routes[q][h].mapping.listenTLS == d[q];
        assert Lookup(t, q, h).Some?;
        RoutedIsMapped(p, st, q, h);
        var b :| b in st.lbs && t.routes[q][h].mapping in b.mappings;
        DesiredModeOfMappings(p, st, d, b, t.routes[q][h].mapping);
        DesiredModeOfMappings(p, st, e, b, t.routes[q][h].mapping);
      }
    }
  }

  /** Every open port speaks the mode of all mappings on it. */
  ghost predicate Speaks(st: State, active: map<int, bool>) {
    forall b, m | b in st.lbs && m in b.mappings && m.listenPort in active :: active[m.listenPort] == m.listenTLS
  }

  /** Open ports are mapped or always on, and the https port speaks TLS unless it is also the http port. */
  ghost predicate PortsKnown(c: Config, st: State, active: map<int, bool>) {
    && active.Keys <= AllListenPorts(c, st.lbs)
    && (c.httpsPort in active ==> (active[c.httpsPort] <==> c.httpsPort != c.httpPort))
  }

  /** b and c, before and after, map one open port with different modes. */
  ghost predicate FlipsOn(st: State, active: map<int, bool>, next: State, m: Mapping, n: Mapping) {
    && m.listenPort == n.listenPort && m.listenPort in active && m.listenTLS != n.listenTLS
    && (exists b :: b in st.lbs && m in b.mappings) && exists c :: c in next.lbs && n in c.mappings
  }

  /** A port that is open after st, and mapped in both st and next, changes its mode. */
  ghost predicate Flips(st: State, active: map<int, bool>, next: State) {
    exists m, n :: FlipsOn(st, active, next, m, n)
  }

  /** What one Apply does to one mapped port: it speaks the mapping's mode, unless it was open for a mapping with
      the other one. */
  lemma PortSpeaks(p: Params, st: State, next: State, before: map<int, bool>, desired: map<int, bool>,
                   failing: set<int>, c: LoadBalancer, n: Mapping)
    requires p.coversSet && Normalized(p.cfg) && Committable(p, next) && c in next.lbs && n in c.mappings
    requires DesiredFor(TableOf(p.o, Entries(next.lbs)), p.cfg.httpsPort, p.cfg.httpPort, desired)
    requires Speaks(st, before) && PortsKnown(p.cfg, st, before)
    requires n.listenPort in Reopened(before, desired, failing, AlwaysOn(p.cfg))
    ensures Reopened(before, desired, failing, AlwaysOn(p.cfg))[n.listenPort] == n.listenTLS || Flips(st, before, next)
  {
    DesiredModeOfMappings(p, next, desired, c, n);
    ScanFinds(next, c, n);
    NotShadowed(p, next, n.listenPort, c.name);
    if n.listenPort in before && n.listenPort != p.cfg.httpsPort {
      OpenIsMapped(p.cfg, st, before, n.listenPort);
      var b, m :| b in st.lbs && m in b.mappings && m.listenPort == n.listenPort;
      assert before[n.listenPort] == m.listenTLS;
      assert m.listenTLS != n.listenTLS ==> FlipsOn(st, before, next, m, n);
    }
  }

  lemma OpenIsMapped(c: Config, st: State, active: map<int, bool>, port: int)
    requires PortsKnown(c, st, active) && port in active && port != c.httpsPort
      && !(c.httpPort > 0 && port == c.httpPort)
    ensures exists b, m :: b in st.lbs && m in b.mappings && m.listenPort == port
  {
  }

  /** After an Apply, whatever was open before, the open ports are known. */
  lemma ApplyKnowsPorts(p: Params, st: State, next: State, before: map<int, bool>, failing: set<int>,
                        active: map<int, bool>, routes: RoutingTable)
    requires p.coversSet && Normalized(p.cfg) && Committable(p, next) && PortsKnown(p.cfg, st, before)
    requires AppliedTo(p.o, p.cfg, next, before, failing, active, routes)
    ensures PortsKnown(p.cfg, next, active)
  {
    var t := TableOf(p.o, Entries(next.lbs));
    var desired :|
      && DesiredFor(t, p.cfg.httpsPort, p.cfg.httpPort, desired)
      && active == Reopened(before, desired, failing, AlwaysOn(p.cfg));
    DesiredIsMapped(p, next, desired);
    DesiredCoversAlwaysOn(t, p.cfg, desired);
  }

  /** Over one Apply of a committed state open ports keep speaking the mode of their mappings if and only if no port
      that is open, and mapped before and after, changes mode: Reconcile skips ports already open. */
  lemma ApplySpeaksIff(p: Params, st: State, next: State, before: map<int, bool>, failing: set<int>,
                       active: map<int, bool>, routes: RoutingTable)
    requires p.coversSet && Normalized(p.cfg) && Committable(p, next)
    requires AppliedTo(p.o, p.cfg, next, before, failing, active, routes)
    requires Speaks(st, before) && PortsKnown(p.cfg, st, before)
    ensures Speaks(next, active) <==> !Flips(st, before, next)
  {
    var desired :|
      && DesiredFor(TableOf(p.o, Entries(next.lbs)), p.cfg.httpsPort, p.cfg.httpPort, desired)
      && active == Reopened(before, desired, failing, AlwaysOn(p.cfg));
    forall c, n | c in next.lbs && n in c.mappings && n.listenPort in active
      ensures active[n.listenPort] == n.listenTLS || Flips(st, before, next)
    {
      PortSpeaks(p, st, next, before, desired, failing, c, n);
    }
    if Flips(st, before, next) {
      var m, n :| FlipsOn(st, before, next, m, n);
      var c :| c in next.lbs && n in c.mappings;
      DesiredModeOfMappings(p, next, desired, c, n);
      assert active[n.listenPort] == before[n.listenPort] == m.listenTLS;
    }
  }

  /** Applying a state again flips nothing. */
  lemma NoFlipInPlace(st: State, active: map<int, bool>)
    requires WellFormed(st)
    ensures !Flips(st, active, st)
  {
    forall b, c, m, n | b in st.lbs && m in b.mappings && c in st.lbs && n in c.mappings && m.listenPort == n.listenPort
      ensures m.listenTLS == n.listenTLS
    {
      assert SameModes(b.mappings, c.mappings);
    }
  }

  lemma DesiredIsMapped(p: Params, st: State, desired: map<int, bool>)
    requires p.coversSet && Committable(p, st)
    requires DesiredFor(TableOf(p.o, Entries(st.lbs)), p.cfg.httpsPort, p.cfg.httpPort, desired)
    ensures desired.Keys <= AllListenPorts(p.cfg, st.lbs)
  {
    var t := TableOf(p.o, Entries(st.lbs));
    TableOfOk(p.o, Entries(st.lbs));
    forall q | q in t.routes ensures q in AllListenPorts(p.cfg, st.lbs) {
      var h :| h in t.routes[q];
      assert Lookup(t, q, h).Some?;
      RoutedIsMapped(p, st, q, h);
    }
  }

  /** Starting from nothing bound, every port speaks as mapped. */
  lemma FreshSpeaks(p: Params, st: State, failing: set<int>, active: map<int, bool>, routes: RoutingTable)
    requires p.coversSet && Normalized(p.cfg) && Committable(p, st)
    requires AppliedTo(p.o, p.cfg, st, map[], failing, active, routes)
    ensures PortsKnown(p.cfg, st, active) && Speaks(st, active)
  {
    ApplyKnowsPorts(p, EMPTY_STATE, st, map[], failing, active, routes);
    ApplySpeaksIff(p, EMPTY_STATE, st, map[], failing, active, routes);
  }

  /** The operation that changes a mode: replacing a mapping on an open port by one of the other mode. */
  predicate ReplacesMode(p: Params, st: State, c: Call, active: map<int, bool>) {
    var n := Effects.Named(p, c.op);
    && c.op.PutMapping? && c.op.spec.listenPort in active && n.Some?
    && Scan(st, c.op.spec.listenPort, n.value).Some?
    && Scan(st, c.op.spec.listenPort, n.value).value.listenTLS != c.op.spec.listenTLS
  }

  /** An accepted operation flips an open port if and only if it is such a replacement, which one can tell before
      calling it. */
  lemma OperationFlipsIff(p: Params, st: State, c: Call, active: map<int, bool>)
    requires WellFormed(st) && Attempt(p, st, c).Candidate?
    ensures Flips(st, active, Attempt(p, st, c).st) <==> ReplacesMode(p, st, c, active)
  {
    var e := Attempt(p, st, c).st;
    AttemptCommittable(p, st, c);
    if Flips(st, active, e) {
      var m, n :| FlipsOn(st, active, e, m, n);
      FlipIsReplacement(p, st, c, active, e, m, n);
    }
    if ReplacesMode(p, st, c, active) {
      var h, spec := Effects.Named(p, c.op).value, c.op.spec;
      Effects.OperationReroutes(p, st, c, spec.listenPort, h);
      ScanIsMapped(st, spec.listenPort, h);
      ScanIsMapped(e, spec.listenPort, h);
      assert FlipsOn(st, active, e, Scan(st, spec.listenPort, h).value, Scan(e, spec.listenPort, h).value);
    }
  }

  lemma ScanIsMapped(st: State, port: int, h: string)
    requires Scan(st, port, h).Some?
    ensures Scan(st, port, h).value.listenPort == port
    ensures exists b :: b in st.lbs && Scan(st, port, h).value in b.mappings
  {
    assert st.lbs[LBIndex(st.lbs, h)] in st.lbs;
  }

  lemma FlipIsReplacement(p: Params, st: State, c: Call, active: map<int, bool>, e: State, m: Mapping, n: Mapping)
    requires WellFormed(st) && Attempt(p, st, c) == Candidate(e) && WellFormed(e) && FlipsOn(st, active, e, m, n)
    ensures ReplacesMode(p, st, c, active)
  {
    var b :| b in st.lbs && m in b.mappings;
    var d :| d in e.lbs && n in d.mappings;
    ScanFinds(st, b, m);
    ScanFinds(e, d, n);
    // n is new: if it had been there, m and n would have agreed; and m is gone, or they would agree now
    Effects.OperationReroutes(p, st, c, n.listenPort, d.name);
    if Scan(st, n.listenPort, d.name) == Some(n) {
      ModesAgree(st, m, n, b.name, d.name);
    }
    Effects.OperationReroutes(p, st, c, m.listenPort, b.name);
    if Scan(e, m.listenPort, b.name) == Some(m) {
      ModesAgree(e, m, n, b.name, d.name);
    }
  }

  /** A well-formed state maps a port in one mode. */
  lemma ModesAgree(st: State, m: Mapping, n: Mapping, h: string, k: string)
    requires WellFormed(st) && m.listenPort == n.listenPort
    requires Scan(st, m.listenPort, h) == Some(m) && Scan(st, n.listenPort, k) == Some(n)
    ensures m.listenTLS == n.listenTLS
  {
    ScanIsMapped(st, m.listenPort, h);
    ScanIsMapped(st, n.listenPort, k);
    var b :| b in st.lbs && m in b.mappings;
    var c :| c in st.lbs && n in c.mappings;
    assert SameModes(b.mappings, c.mappings);
  }

  /** The https listener of a server just started speaks TLS if and only if the port is not also the http port: a
      configuration may set both to the same number, and then it is plain. */
  lemma HttpsIsTlsIff(o: Oracles, c: Config, st: State, failing: set<int>, active: map<int, bool>, routes: RoutingTable)
    requires Normalized(c) && AppliedTo(o, c, st, map[], failing, active, routes) && c.httpsPort in active
    ensures active[c.httpsPort] <==> c.httpsPort != c.httpPort
  {
    var desired :|
      && DesiredFor(TableOf(o, Entries(st.lbs)), c.httpsPort, c.httpPort, desired)
      && active == Reopened(map[], desired, failing, AlwaysOn(c));
  }

  /** Such a configuration loads, and its https port is bound and plain. */
  lemma HttpsIsPlain(o: Oracles, active: map<int, bool>, routes: RoutingTable)
    requires AppliedTo(o, Witness.CFG.(httpPort := 443), EMPTY_STATE, map[], {}, active, routes)
    ensures Normalized(Witness.CFG.(httpPort := 443)) && 443 in active && !active[443]
  {
    var c := Witness.CFG.(httpPort := 443);
    var desired :|
      && DesiredFor(TableOf(o, Entries(EMPTY_STATE.lbs)), c.httpsPort, c.httpPort, desired)
      && active == Reopened(map[], desired, {}, AlwaysOn(c));
    assert 443 in desired;
    HttpsIsTlsIff(o, c, EMPTY_STATE, {}, active, routes);
  }

  // A run in which a mode does change: the mapping on port 8443 is replaced by a plain one.

  function OnePort(name: string, tls: bool): State {
    State(1, [Witness.OneMapping(name, 8443, tls)], [])
  }

  function MakePlain(name: string): Call {
    Call(Op.PutMapping(name, MappingSpec(8443, false, Witness.UPSTREAM, false, ""), true), 0, "id")
  }

  lemma PlainEdit(name: string)
    ensures EditOf(Witness.Permissive(), OnePort(name, true), MakePlain(name)) == Candidate(OnePort(name, false))
  {
    var st, nm := OnePort(name, true), PlainMapping(MakePlain(name).op.spec);
    var b := st.lbs[0];
    assert LBIndex(st.lbs, name) == 0;
    assert MappingIndex(b.mappings, 8443) == 0;
    assert b.mappings[0 := nm] == [nm];
    assert PlaceMapping(st.lbs, 0, nm) == OnePort(name, false).lbs;
  }

  lemma PlainIsCommittable(name: string)
    requires name != ""
    ensures Committable(Witness.Permissive(), OnePort(name, false))
  {
    var st := OnePort(name, false);
    PlainIsWellFormed(name);
    assert MappingError(Witness.Permissive(), name, st.lbs[0].mappings[0]) == None;
    assert CompliantBalancer(Witness.Permissive(), st.lbs[0]);
  }

  lemma PlainIsWellFormed(name: string)
    requires name != ""
    ensures WellFormed(OnePort(name, false))
  {
  }

  /** The replacement is accepted, and after the Apply that follows it the listener on 8443 is still TLS while the
      state, the routing table and the listener set asked for all say plain. */
  lemma ModeChangeIsNotApplied(name: string, desired: map<int, bool>)
    requires name != ""
    requires DesiredFor(TableOf(Witness.Permissive().o, Entries(OnePort(name, false).lbs)), 443, 80, desired)
    ensures Attempt(Witness.Permissive(), OnePort(name, true), MakePlain(name)) == Candidate(OnePort(name, false))
    ensures 8443 in desired && !desired[8443]
    ensures Reopened(map[443 := true, 80 := false, 8443 := true], desired, {}, AlwaysOn(Witness.CFG))[8443]
  {
    var st := OnePort(name, false);
    PlainEdit(name);
    PlainIsCommittable(name);
    AcceptsIff(Witness.Permissive(), st);
    assert st.lbs[0] in st.lbs && st.lbs[0].mappings[0] in st.lbs[0].mappings;
    DesiredModeOfMappings(Witness.Permissive(), st, desired, st.lbs[0], st.lbs[0].mappings[0]);
  }
}
