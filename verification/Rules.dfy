/** The config-dependent rules of a committed state (internal/txn/validate.go). */
module Rules {
  import opened Model
  import opened Config
  import Structure

  datatype Kind = Validation | Conflict | NotFound | Internal

  datatype Error = Error(kind: Kind, code: string)

  /** coversSet is false only where the manager was built without a coverage check. */
  datatype Params = Params(cfg: Config, o: Oracles, coversSet: bool)

  function MappingError(p: Params, lbName: string, m: Mapping): Option<Error> {
    var c, tls := p.cfg, m.upstream.tls;
    if m.listenPort < 1 || m.listenPort > 65535 then Some(Error(Validation, "invalid_listen_port"))
    else if c.poolStart <= m.listenPort <= c.poolEnd then Some(Error(Conflict, "listen_port_in_pool"))
    else if c.httpPort > 0 && m.listenPort == c.httpPort then Some(Error(Conflict, "reserved_port"))
    else if c.mgmtBindPort > 0 && m.listenPort == c.mgmtBindPort then Some(Error(Conflict, "reserved_port"))
    else if m.listenPort == c.httpsPort && !m.listenTLS then Some(Error(Conflict, "listen_tls_required"))
    else if m.upstream.scheme != "http" && m.upstream.scheme != "https" then Some(Error(Validation, "invalid_scheme"))
    else if m.upstream.port < 1 || m.upstream.port > 65535 then Some(Error(Validation, "invalid_upstream_port"))
    else if !p.o.hostAllowed(m.upstream.host) then Some(Error(Validation, "upstream_not_allowed"))
    else if tls.mode == "ca" && !ValidCAName(tls.caName) then Some(Error(Validation, "invalid_ca_name"))
    else if tls.mode == "ca" && !CALoads(p.o, tls.caName) then Some(Error(Validation, "ca_not_found"))
    else if tls.mode !in ["", "verify", "skip", "ca"] then Some(Error(Validation, "invalid_tls_mode"))
    else if m.listenTLS && p.coversSet && !p.o.covers(lbName) then Some(Error(Validation, "host_not_covered"))
    else None
  }

  function NameError(p: Params, name: string): Option<Error> {
    var n := p.o.canon(name);
    if n == None then Some(Error(Validation, "invalid_hostname"))
    else if n.value != name then Some(Error(Validation, "non_canonical_name"))
    else if p.cfg.mgmtHost != "" && name == p.cfg.mgmtHost then Some(Error(Conflict, "reserved_name"))
    else None
  }

  /** The first error of a list of mappings, in scan order. */
  function MappingsError(p: Params, lbName: string, ms: seq<Mapping>): Option<Error> {
    if ms == [] then None
    else
      var n := |ms| - 1;
      var e := MappingsError(p, lbName, ms[..n]);
      if e.Some? then e else MappingError(p, lbName, ms[n])
  }

  function BalancerError(p: Params, lb: LoadBalancer): Option<Error> {
    var e := NameError(p, lb.name);
    if e.Some? then e else MappingsError(p, lb.name, lb.mappings)
  }

  function BalancersError(p: Params, lbs: seq<LoadBalancer>): Option<Error> {
    if lbs == [] then None
    else
      var n := |lbs| - 1;
      var e := BalancersError(p, lbs[..n]);
      if e.Some? then e else BalancerError(p, lbs[n])
  }

  ghost function StateError(p: Params, st: State): Option<Error> {
    if !WellFormed(st) then Some(Error(Validation, "invalid_state")) else BalancersError(p, st.lbs)
  }

  /** Every rule holds for every load balancer and mapping. */
  ghost predicate Compliant(p: Params, lbs: seq<LoadBalancer>) {
    forall b | b in lbs :: CompliantBalancer(p, b)
  }

  ghost predicate CompliantBalancer(p: Params, b: LoadBalancer) {
    NameError(p, b.name) == None && forall m | m in b.mappings :: MappingError(p, b.name, m) == None
  }

  /** A state the transaction engine may publish. */
  ghost predicate Committable(p: Params, st: State) {
    WellFormed(st) && Compliant(p, st.lbs)
  }

  method Validate(p: Params, st: State) returns (r: Option<Error>)
    ensures r == StateError(p, st)
  {
    var f := Structure.Validate(st);
    if f.Some? {
      return Some(Error(Validation, "invalid_state"));
    }
    r := ValidateBalancers(p, st.lbs);
  }

  method ValidateBalancers(p: Params, lbs: seq<LoadBalancer>) returns (r: Option<Error>)
    ensures r == BalancersError(p, lbs)
  {
    for i := 0 to |lbs|
      invariant BalancersError(p, lbs[..i]) == None
    {
      var lb := lbs[i];
      assert lbs[..i + 1][..i] == lbs[..i];
      r := NameError(p, lb.name);
      if r == None {
        r := ValidateMappings(p, lb);
      }
      if r.Some? {
        BalancersErrorSticks(p, lbs, i + 1);
        return;
      }
    }
    assert lbs[..|lbs|] == lbs;
    r := None;
  }

  method ValidateMappings(p: Params, lb: LoadBalancer) returns (r: Option<Error>)
    ensures r == MappingsError(p, lb.name, lb.mappings)
  {
    for k := 0 to |lb.mappings|
      invariant MappingsError(p, lb.name, lb.mappings[..k]) == None
    {
      assert lb.mappings[..k + 1][..k] == lb.mappings[..k];
      r := MappingError(p, lb.name, lb.mappings[k]);
      if r.Some? {
        MappingsErrorSticks(p, lb.name, lb.mappings, k + 1);
        return;
      }
    }
    assert lb.mappings[..|lb.mappings|] == lb.mappings;
    r := None;
  }

  /** The first error is not replaced by later ones. */
  lemma {:induction false} MappingsErrorSticks(p: Params, lbName: string, ms: seq<Mapping>, k: nat)
    requires k <= |ms| && MappingsError(p, lbName, ms[..k]).Some?
    ensures MappingsError(p, lbName, ms) == MappingsError(p, lbName, ms[..k])
  {
    if k == |ms| {
      assert ms[..k] == ms;
    } else {
      var s := ms[..|ms| - 1];
      assert s[..k] == ms[..k];
      MappingsErrorSticks(p, lbName, s, k);
    }
  }

  lemma {:induction false} BalancersErrorSticks(p: Params, lbs: seq<LoadBalancer>, k: nat)
    requires k <= |lbs| && BalancersError(p, lbs[..k]).Some?
    ensures BalancersError(p, lbs) == BalancersError(p, lbs[..k])
  {
    if k == |lbs| {
      assert lbs[..k] == lbs;
    } else {
      var s := lbs[..|lbs| - 1];
      assert s[..k] == lbs[..k];
      BalancersErrorSticks(p, s, k);
    }
  }

  lemma {:induction false} MappingsErrorIff(p: Params, lbName: string, ms: seq<Mapping>)
    ensures MappingsError(p, lbName, ms) == None <==> forall m | m in ms :: MappingError(p, lbName, m) == None
  {
    if ms != [] {
      var n := |ms| - 1;
      assert ms == ms[..n] + [ms[n]];
      MappingsErrorIff(p, lbName, ms[..n]);
    }
  }

  lemma {:induction false} BalancersErrorIff(p: Params, lbs: seq<LoadBalancer>)
    ensures BalancersError(p, lbs) == None <==> Compliant(p, lbs)
  {
    if lbs != [] {
      var n := |lbs| - 1;
      var s := lbs[..n];
      assert lbs == s + [lbs[n]];
      BalancersErrorIff(p, s);
      assert Compliant(p, lbs) <==> Compliant(p, s) && CompliantBalancer(p, lbs[n]);
      MappingsErrorIff(p, lbs[n].name, lbs[n].mappings);
    }
  }

  /** Validation is order-independent in what it accepts. */
  lemma AcceptsIff(p: Params, st: State)
    ensures StateError(p, st) == None <==> Committable(p, st)
  {
    BalancersErrorIff(p, st.lbs);
  }

  /** The ports a mapping may listen on: real, outside the pool, not reserved; https only with TLS. */
  predicate PortAllowed(c: Config, port: int, tls: bool) {
    && 1 <= port <= 65535 && !InPool(c, port)
    && (c.httpPort > 0 ==> port != c.httpPort)
    && (c.mgmtBindPort > 0 ==> port != c.mgmtBindPort)
    && (port == c.httpsPort ==> tls)
  }

  predicate UpstreamAllowed(o: Oracles, up: Upstream) {
    && up.scheme in ["http", "https"] && 1 <= up.port <= 65535 && o.hostAllowed(up.host)
    && (up.tls.mode in ["", "verify", "skip"] || (up.tls.mode == "ca" && CALoads(o, up.tls.caName)))
  }

  /** The cascade accepts a mapping exactly when each rule holds on its own: no rule hides another. */
  lemma RulesOfMappings(p: Params, lbName: string, m: Mapping)
    ensures MappingError(p, lbName, m) == None <==>
      && PortAllowed(p.cfg, m.listenPort, m.listenTLS) && UpstreamAllowed(p.o, m.upstream)
      && (m.listenTLS && p.coversSet ==> p.o.covers(lbName))
  {
    var mode := m.upstream.tls.mode;
    assert mode in ["", "verify", "skip"] <==> mode == "" || mode == "verify" || mode == "skip";
    assert mode in ["", "verify", "skip", "ca"] <==> mode == "" || mode == "verify" || mode == "skip" || mode == "ca";
    assert m.upstream.scheme in ["http", "https"] <==> m.upstream.scheme == "http" || m.upstream.scheme == "https";
  }

  /** A load balancer's name must be its own canonical form and not the management host's. */
  lemma RulesOfNames(p: Params, name: string)
    ensures NameError(p, name) == None <==>
      p.o.canon(name) == Some(name) && !(p.cfg.mgmtHost != "" && name == p.cfg.mgmtHost)
    ensures NameError(p, name) == Some(Error(Validation, "invalid_hostname")) <==> p.o.canon(name) == None
    ensures NameError(p, name) == Some(Error(Conflict, "reserved_name")) <==>
      p.o.canon(name) == Some(name) && p.cfg.mgmtHost != "" && name == p.cfg.mgmtHost
  {
  }

  /** A rule and what its violation is reported as. */
  datatype Rule = Rule(holds: bool, err: Error)

  /** The rules of a mapping in the order in which they are checked. */
  function MappingRules(p: Params, lbName: string, m: Mapping): seq<Rule> {
    var c, up := p.cfg, m.upstream;
    [ Rule(1 <= m.listenPort <= 65535, Error(Validation, "invalid_listen_port")),
      Rule(!InPool(c, m.listenPort), Error(Conflict, "listen_port_in_pool")),
      Rule(c.httpPort > 0 ==> m.listenPort != c.httpPort, Error(Conflict, "reserved_port")),
      Rule(c.mgmtBindPort > 0 ==> m.listenPort != c.mgmtBindPort, Error(Conflict, "reserved_port")),
      Rule(m.listenPort == c.httpsPort ==> m.listenTLS, Error(Conflict, "listen_tls_required")),
      Rule(up.scheme == "http" || up.scheme == "https", Error(Validation, "invalid_scheme")),
      Rule(1 <= up.port <= 65535, Error(Validation, "invalid_upstream_port")),
      Rule(p.o.hostAllowed(up.host), Error(Validation, "upstream_not_allowed")),
      Rule(up.tls.mode == "ca" ==> ValidCAName(up.tls.caName), Error(Validation, "invalid_ca_name")),
      Rule(up.tls.mode == "ca" ==> p.o.caReadable(up.tls.caName), Error(Validation, "ca_not_found")),
      Rule(up.tls.mode in ["", "verify", "skip", "ca"], Error(Validation, "invalid_tls_mode")),
      Rule(m.listenTLS && p.coversSet ==> p.o.covers(lbName), Error(Validation, "host_not_covered")) ]
  }

  /** i is the first broken rule. */
  predicate FirstBroken(rules: seq<Rule>, i: int) {
    0 <= i < |rules| && !rules[i].holds && forall j | 0 <= j < i :: rules[j].holds
  }

  /** What is reported is the first broken rule of the list, and nothing if and only if none is broken. */
  lemma FirstBrokenIsReported(p: Params, lbName: string, m: Mapping, i: int)
    requires FirstBroken(MappingRules(p, lbName, m), i)
    ensures MappingError(p, lbName, m) == Some(MappingRules(p, lbName, m)[i].err)
  {
    var r := MappingRules(p, lbName, m);
    assert 0 < i ==> r[0].holds;
    assert 1 < i ==> r[1].holds;
    assert 2 < i ==> r[2].holds;
    assert 3 < i ==> r[3].holds;
    assert 4 < i ==> r[4].holds;
    assert 5 < i ==> r[5].holds;
    assert 6 < i ==> r[6].holds;
    assert 7 < i ==> r[7].holds;
    assert 8 < i ==> r[8].holds;
    assert 9 < i ==> r[9].holds;
    assert 10 < i ==> r[10].holds;
  }

  /** Mapping k is the first that breaks a rule. */
  ghost predicate FirstFaulty(p: Params, b: LoadBalancer, k: nat) {
    && k < |b.mappings| && MappingError(p, b.name, b.mappings[k]).Some?
    && forall l | 0 <= l < k :: MappingError(p, b.name, b.mappings[l]) == None
  }

  lemma FirstMappingIsReported(p: Params, b: LoadBalancer, k: nat)
    requires FirstFaulty(p, b, k)
    ensures MappingsError(p, b.name, b.mappings) == MappingError(p, b.name, b.mappings[k])
  {
    MappingsErrorIff(p, b.name, b.mappings[..k]);
    assert b.mappings[..k + 1][..k] == b.mappings[..k];
    MappingsErrorSticks(p, b.name, b.mappings, k + 1);
  }

  /** Over a state the first error in scan order is reported: of the first load balancer that breaks a rule, its name's
      or else its first faulty mapping's. */
  lemma FirstErrorIsReported(p: Params, lbs: seq<LoadBalancer>, i: nat, k: nat)
    requires i < |lbs| && Compliant(p, lbs[..i])
    ensures NameError(p, lbs[i].name).Some? ==> BalancersError(p, lbs) == NameError(p, lbs[i].name)
    ensures NameError(p, lbs[i].name) == None && FirstFaulty(p, lbs[i], k) ==>
      BalancersError(p, lbs) == MappingError(p, lbs[i].name, lbs[i].mappings[k])
  {
    BalancersErrorIff(p, lbs[..i]);
    assert lbs[..i + 1][..i] == lbs[..i];
    if FirstFaulty(p, lbs[i], k) {
      FirstMappingIsReported(p, lbs[i], k);
    }
    if BalancerError(p, lbs[i]).Some? {
      BalancersErrorSticks(p, lbs, i + 1);
    }
  }

  /** A structural fault has its own error, and comes before any rule. */
  lemma IllFormedIsReported(p: Params, st: State)
    ensures StateError(p, st) == Some(Error(Validation, "invalid_state")) <==> !WellFormed(st)
  {
    NoRuleSaysSo(p, st.lbs);
  }

  lemma {:induction false} NoRuleSaysSo(p: Params, lbs: seq<LoadBalancer>)
    ensures BalancersError(p, lbs) != Some(Error(Validation, "invalid_state"))
  {
    if lbs != [] {
      var n := |lbs| - 1;
      NoRuleSaysSo(p, lbs[..n]);
      NoMappingSaysSo(p, lbs[n].name, lbs[n].mappings);
    }
  }

  lemma {:induction false} NoMappingSaysSo(p: Params, lbName: string, ms: seq<Mapping>)
    ensures MappingsError(p, lbName, ms) != Some(Error(Validation, "invalid_state"))
  {
    if ms != [] {
      NoMappingSaysSo(p, lbName, ms[..|ms| - 1]);
    }
  }

  /** CA names stay inside their directory, and any plain word is one. */
  lemma CANamesAreSafe(name: string)
    ensures ValidCAName(name) ==> name != "" && name != ".." && '/' !in name && '\\' !in name
    ensures name != "" && (forall c | c in name :: 'a' <= c <= 'z' || 'A' <= c <= 'Z' || '0' <= c <= '9') ==>
      ValidCAName(name)
  {
    if name != "" && forall c | c in name :: 'a' <= c <= 'z' || 'A' <= c <= 'Z' || '0' <= c <= '9' {
      forall i | 0 <= i < |name| ensures name[i] != '.' {
        assert name[i] in name;
      }
      assert name != "." && name != ".." by {
        assert name[0] != '.';
      }
    }
  }
}
