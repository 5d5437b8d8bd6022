/** The persisted state (internal/store/model.go) and what it means for one to be well formed. */
module Model {
  datatype Option<+T> = None | Some(value: T)

  type Time = int

  const CURRENT_VERSION := 1

  datatype UpstreamTLS = UpstreamTLS(mode: string, caName: string)

  datatype Upstream = Upstream(scheme: string, host: string, port: int, tls: UpstreamTLS)

  datatype Mapping = Mapping(
    listenPort: int, listenTLS: bool, upstream: Upstream, allocationID: string, autoAllocated: bool)

  datatype LoadBalancer = LoadBalancer(name: string, labelText: string, createdAt: Time, mappings: seq<Mapping>)

  datatype PortAllocation = PortAllocation(
    id: string, port: int, owner: string, labelText: string, auto: bool, allocatedAt: Time)

  datatype State = State(version: int, lbs: seq<LoadBalancer>, allocs: seq<PortAllocation>)

  const EMPTY_STATE := State(CURRENT_VERSION, [], [])

  ghost predicate NamesOk(lbs: seq<LoadBalancer>) {
    && (forall b | b in lbs :: b.name != "")
    && (forall i, j | 0 <= i < j < |lbs| :: lbs[i].name != lbs[j].name)
  }

  ghost predicate PortsOk(ms: seq<Mapping>) {
    forall k, l | 0 <= k < l < |ms| :: ms[k].listenPort != ms[l].listenPort
  }

  /** A listen port has one TLS mode across ALL load balancers. */
  ghost predicate OneModePerPort(lbs: seq<LoadBalancer>) {
    forall b, c | b in lbs && c in lbs :: SameModes(b.mappings, c.mappings)
  }

  ghost predicate SameModes(ms: seq<Mapping>, ns: seq<Mapping>) {
    forall m, n | m in ms && n in ns && m.listenPort == n.listenPort :: m.listenTLS == n.listenTLS
  }

  ghost predicate AllocsOk(allocs: seq<PortAllocation>) {
    && (forall a | a in allocs :: a.id != "")
    && (forall i, j | 0 <= i < j < |allocs| :: allocs[i].id != allocs[j].id && allocs[i].port != allocs[j].port)
  }

  ghost predicate HasId(allocs: seq<PortAllocation>, id: string) {
    exists a :: a in allocs && a.id == id
  }

  /** No mapping names an allocation that does not exist. */
  ghost predicate RefsOk(lbs: seq<LoadBalancer>, allocs: seq<PortAllocation>) {
    forall b, m | b in lbs && m in b.mappings && m.allocationID != "" :: HasId(allocs, m.allocationID)
  }

  ghost predicate WellFormed(st: State) {
    && NamesOk(st.lbs)
    && (forall b | b in st.lbs :: PortsOk(b.mappings))
    && OneModePerPort(st.lbs)
    && AllocsOk(st.allocs)
    && RefsOk(st.lbs, st.allocs)
  }
}
