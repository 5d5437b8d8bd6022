/** Static configuration (internal/config) and the outside world the code asks: hostnames, certificates, CAs. */
module Config {
  import opened Model

  /** The fields the transaction engine and the proxy use; mgmtBindPort 0 means none, httpPort 0 means no redirect. */
  datatype Config = Config(
    httpsPort: int, httpPort: int, poolStart: int, poolEnd: int, mgmtBindPort: int, mgmtHost: string)

  /** Answers the code gets from libraries and files. canon is canon.Host; it is NOT assumed idempotent. */
  datatype Oracles = Oracles(
    canon: string -> Option<string>,
    covers: string -> bool,
    hostAllowed: string -> bool,
    caReadable: string -> bool)

  predicate InPool(c: Config, port: int) {
    c.poolStart <= port <= c.poolEnd
  }

  function AlwaysOnPorts(c: Config): seq<int> {
    [c.httpsPort]
    + (if c.httpPort > 0 then [c.httpPort] else [])
    + (if c.mgmtBindPort > 0 then [c.mgmtBindPort] else [])
  }

  /** What a configuration that loaded satisfies. */
  predicate Normalized(c: Config) {
    && 1 <= c.httpsPort <= 65535
    && 0 <= c.httpPort <= 65535
    && 1 <= c.poolStart <= c.poolEnd <= 65535
    && !InPool(c, c.httpsPort)
    && (c.httpPort > 0 ==> !InPool(c, c.httpPort))
    && (c.mgmtBindPort > 0 ==> !InPool(c, c.mgmtBindPort))
  }

  /** normalize's port, pool and hostname rules. */
  method Normalize(raw: Config, canon: string -> Option<string>) returns (r: Option<Config>)
    ensures r.Some? <==>
      && 1 <= raw.httpsPort <= 65535 && 0 <= raw.httpPort <= 65535
      && 1 <= raw.poolStart <= raw.poolEnd <= 65535
      && !(raw.poolStart <= raw.httpsPort <= raw.poolEnd)
      && (raw.httpPort > 0 ==> !(raw.poolStart <= raw.httpPort <= raw.poolEnd))
      && (raw.mgmtBindPort > 0 ==> !(raw.poolStart <= raw.mgmtBindPort <= raw.poolEnd))
      && (raw.mgmtHost == "" || canon(raw.mgmtHost).Some?)
    ensures r.Some? ==> Normalized(r.value)
    ensures r.Some? ==> r.value == raw.(mgmtHost := if raw.mgmtHost == "" then "" else canon(raw.mgmtHost).value)
  {
    if raw.httpsPort < 1 || raw.httpsPort > 65535 {
      return None;
    }
    if raw.httpPort < 0 || raw.httpPort > 65535 {
      return None;
    }
    if raw.poolStart < 1 || raw.poolEnd > 65535 || raw.poolStart > raw.poolEnd {
      return None;
    }
    var ports := AlwaysOnPorts(raw);
    assert ports[0] == raw.httpsPort;
    assert raw.httpPort > 0 ==> ports[1] == raw.httpPort;
    assert raw.mgmtBindPort > 0 ==> ports[|ports| - 1] == raw.mgmtBindPort;
    for i := 0 to |ports|
      invariant forall j | 0 <= j < i :: !InPool(raw, ports[j])
    {
      if ports[i] >= raw.poolStart && ports[i] <= raw.poolEnd {
        return None;
      }
    }
    if raw.mgmtHost == "" {
      return Some(raw);
    }
    var h := canon(raw.mgmtHost);
    if h == None {
      return None;
    }
    r := Some(raw.(mgmtHost := h.value));
  }

  /** upstream.ValidCAName: a path-safe identifier. */
  predicate ValidCAName(name: string) {
    && name != "" && name != "." && name != ".."
    && (forall i | 0 <= i < |name| - 1 :: !(name[i] == '.' && name[i + 1] == '.'))
    && (forall c | c in name ::
          'A' <= c <= 'Z' || 'a' <= c <= 'z' || '0' <= c <= '9' || c == '_' || c == '.' || c == '-')
  }

  /** upstream.LoadCA succeeds. */
  predicate CALoads(o: Oracles, name: string) {
    ValidCAName(name) && o.caReadable(name)
  }
}
