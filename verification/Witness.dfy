/** Concrete configurations and states, for the runs in which the code does not do what one would expect. */
module Witness {
  import opened Model
  import opened Config
  import opened Rules

  const CFG := Config(443, 80, 9000, 9999, 0, "")
  const UPSTREAM := Upstream("http", "localhost", 3000, UpstreamTLS("verify", ""))
  const OTHER := Upstream("http", "localhost", 4000, UpstreamTLS("verify", ""))

  /** Every name is canonical, every host covered and allowed. */
  function Permissive(): Params {
    Params(CFG, Oracles(s => Some(s), _ => true, _ => true, _ => true), true)
  }

  function MappingOn(port: int, tls: bool): Mapping {
    Mapping(port, tls, UPSTREAM, "", false)
  }

  function OneMapping(name: string, port: int, tls: bool): LoadBalancer {
    LoadBalancer(name, "", 0, [MappingOn(port, tls)])
  }
}
