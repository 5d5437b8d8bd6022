/** The transaction engine (internal/txn/txn.go): every change clones the published snapshot, edits the clone in
    place, validates it, saves it, publishes the pointer and reapplies the data plane. */
module Manager {
  import opened Model
  import opened Config
  import opened Heap
  import opened Transactions
  import opened Rules
  import Disk
  import Store
  import Edits
  import Router
  import Server
  import Identities
  import Health

  /** got: the allocation, for AllocatePort. */
  datatype Reply = Accepted(st: State, got: Option<PortAllocation>) | Refused(err: Error)

  /** What one operation meets: the step of Save that fails, and the ports that cannot be bound. */
  datatype Env = Env(fault: Disk.SaveFault, failing: set<int>)

  /** The data plane: bound ports with their mode, the live routes, the loop guard's ports, the health log. */
  datatype Plane = Plane(active: map<int, bool>, routes: Router.RoutingTable, selfPorts: set<int>,
      log: seq<Health.Event>)

  /** Nothing is bound, routed, guarded or tracked yet. */
  const NO_PLANE := Plane(map[], Router.NO_ROUTES, {}, [])

  datatype World = World(state: State, disk: Disk.Disk, trail: seq<Disk.Disk>, plane: Plane)

  /** The data plane moved from a to b by applying st. */
  ghost predicate Follows(p: Params, st: State, failing: set<int>, a: Plane, b: Plane) {
    && Server.AppliedTo(p.o, p.cfg, st, a.active, failing, b.active, b.routes)
    && b.selfPorts == Server.AllListenPorts(p.cfg, st.lbs)
    && exists ids ::
         Identities.Lists(ids, Identities.UpstreamIdentities(st.lbs)) && b.log == a.log + [Health.Targets(ids)]
  }

  /** The whole effect of an operation that came to attempt, with got to hand back. */
  ghost predicate CommittedOr(p: Params, attempt: Edit, got: Option<PortAllocation>, env: Env, w: World, v: World,
                              r: Reply) {
    match attempt
    case Rejected(err) => r == Refused(err) && v == w
    case Candidate(st) =>
      && v.disk == Disk.SaveEffect(w.disk, st, env.fault)
      && v.trail == w.trail + Disk.SaveTrace(w.disk, st, env.fault)
      && if env.fault == Disk.NoFault then
           r == Accepted(st, got) && v.state == st && Follows(p, st, env.failing, w.plane, v.plane)
         else
           r == Refused(Error(Internal, "persist")) && v.state == w.state && v.plane == w.plane
  }

  /** What an operation did is what the transaction on values says. */
  ghost predicate Performed(p: Params, call: Call, env: Env, w: World, v: World, r: Reply) {
    CommittedOr(p, Attempt(p, w.state, call), Granted(p, w.state, call), env, w, v, r)
  }

  /** Manager and server were built from one configuration. */
  ghost predicate Configured(p: Params, server: Server.Server) {
    server.cfg == p.cfg && server.listeners.alwaysOn == Server.AlwaysOn(p.cfg)
  }

  class Manager {
    const p: Params
    const store: Store.Store
    const server: Server.Server
    const tracker: Health.Tracker

    ghost predicate Valid()
      reads store, store.held, tracker
    {
      && store.Valid() && tracker.Valid() && Configured(p, server)
      && server !in store.held && server.listeners !in store.held && tracker !in store.held
    }

    constructor (p: Params, store: Store.Store, server: Server.Server, tracker: Health.Tracker)
      requires store.Valid() && tracker.Valid() && Configured(p, server)
      requires server !in store.held && server.listeners !in store.held && tracker !in store.held
      ensures Valid() && this.p == p && this.store == store && this.server == server && this.tracker == tracker
    {
      this.p, this.store, this.server, this.tracker := p, store, server, tracker;
    }

    ghost function PlaneNow(): Plane
      reads server, server.listeners, tracker
    {
      Plane(server.listeners.active, server.routes, server.selfPorts, tracker.log)
    }

    /** Everything an operation can change, as values. */
    ghost function Now(): World
      requires Valid()
      reads store, store.held, server, server.listeners, tracker
    {
      World(store.snap.View(), store.disk, store.trail, PlaneNow())
    }

    /** An accepted change publishes a new object, a refused one publishes nothing; what was published stays. */
    twostate predicate Published(r: Reply)
      requires old(Valid()) && Valid()
      reads store, store.held, tracker
    {
      && store.Kept()
      && if r.Accepted? then
           store.published == old(store.published) + [store.snap] && store.snap !in old(store.published)
         else
           store.snap == old(store.snap) && store.published == old(store.published)
    }

    /** What an operation leaves behind, in full. */
    twostate predicate Done(c: Call, env: Env, r: Reply)
      requires old(Valid()) && Valid()
      reads store, store.held, server, server.listeners, tracker
    {
      Performed(p, c, env, old(Now()), Now(), r) && Published(r)
    }

    /** Validate, save, publish, apply; an edit that stopped with an error changes nothing. */
    method Commit(cand: StateObj, stopped: Option<Error>, got: Option<PortAllocation>, ghost e: Edit, env: Env)
      returns (r: Reply)
      requires Valid() && cand.Valid() && cand !in store.published && Edits.Made(e, cand.View(), stopped)
      requires store !in cand.Repr && server !in cand.Repr && server.listeners !in cand.Repr && tracker !in cand.Repr
      modifies store, server, server.listeners, tracker
      ensures Valid() && Published(r)
      ensures CommittedOr(p, Checked(p, e), got, env, old(Now()), Now(), r)
    {
      if stopped.Some? {
        return Refused(stopped.value);
      }
      var st := cand.View();
      var err := Validate(p, st);
      if err.Some? {
        return Refused(err.value);
      }
      r := Persist(cand, st, got, env);
    }

    method Persist(cand: StateObj, st: State, got: Option<PortAllocation>, env: Env) returns (r: Reply)
      requires Valid() && cand.Valid() && cand !in store.published && cand.View() == st
      requires store !in cand.Repr && server !in cand.Repr && server.listeners !in cand.Repr && tracker !in cand.Repr
      modifies store, server, server.listeners, tracker
      ensures Valid() && Published(r)
      ensures CommittedOr(p, Candidate(st), got, env, old(Now()), Now(), r)
    {
      var ok := Secure(cand, st, env.fault);
      if !ok {
        return Refused(Error(Internal, "persist"));
      }
      ApplyAndTrack(st, env.failing);
      r := Accepted(st, got);
    }

    /** Save and, if that succeeds, publish. */
    method Secure(cand: StateObj, st: State, fault: Disk.SaveFault) returns (ok: bool)
      requires Valid() && cand.Valid() && cand !in store.published && cand.View() == st
      requires store !in cand.Repr && server !in cand.Repr && server.listeners !in cand.Repr && tracker !in cand.Repr
      modifies store
      ensures Valid() && store.Kept() && (ok <==> fault == Disk.NoFault)
      ensures Now() == old(Now()).(
        state := if ok then st else old(Now()).state,
        disk := Disk.SaveEffect(old(store.disk), st, fault),
        trail := old(store.trail) + Disk.SaveTrace(old(store.disk), st, fault))
      ensures if ok then
                store.published == old(store.published) + [store.snap] && store.snap !in old(store.published)
              else
                store.snap == old(store.snap) && store.published == old(store.published)
    {
      ok := store.Install(cand, fault);
    }

    /** applyAndTrack, after which the store is as it was. */
    method ApplyAndTrack(st: State, failing: set<int>)
      requires Valid()
      modifies server, server.listeners, tracker
      ensures Valid() && Now() == old(Now()).(plane := PlaneNow())
      ensures Follows(p, st, failing, old(PlaneNow()), PlaneNow())
    {
      Follow(st, failing);
      StoreStays();
    }

    /** What the store and its snapshots are does not depend on the data plane. */
    twostate lemma StoreStays()
      requires old(Valid()) && unchanged(store) && unchanged(store.held) && tracker.Valid()
      ensures Valid() && Now() == old(Now()).(plane := PlaneNow())
    {
      assert store.Valid() && store.snap.View() == old(store.snap.View());
    }

    /** The proxy, then the health targets. */
    method Follow(st: State, failing: set<int>)
      requires tracker.Valid() && Configured(p, server)
      modifies server, server.listeners, tracker
      ensures tracker.Valid()
      ensures Follows(p, st, failing, old(PlaneNow()), PlaneNow())
    {
      var degraded, desired := server.Apply(p.o, st, failing);
      var ids := Identities.IdentitiesFrom(st);
      tracker.SetTargets(ids);
      assert tracker.log == old(tracker.log) + [Health.Targets(ids)];
    }

    /** Any of the management operations. */
    method Do(call: Call, env: Env) returns (r: Reply)
      requires Valid()
      modifies store, server, server.listeners, tracker
      ensures Valid() && Done(call, env, r)
    {
      var cand, err, got := Edits.Make(p, store.snap, call);
      r := Commit(cand, err, got, EditOf(p, Now().state, call), env);
    }
  }

  datatype Startup = Running(manager: Manager) | Failed(why: Store.SetupResult)

  /** The proxy server, the tracker and the Manager over an open store. */
  method Assemble(p: Params, threshold: int, store: Store.Store) returns (manager: Manager)
    requires store.Valid()
    ensures fresh(manager) && fresh(manager.server) && fresh(manager.server.listeners) && fresh(manager.tracker)
    ensures manager.Valid() && manager.store == store && manager.p == p
    ensures manager.Now() == World(store.snap.View(), store.disk, store.trail, NO_PLANE)
  {
    var server := new Server.Server(p.cfg);
    var tracker := new Health.Tracker(threshold);
    manager := new Manager(p, store, server, tracker);
  }

  /** The parts, and the first applyAndTrack. */
  method ComeUp(p: Params, threshold: int, store: Store.Store, failing: set<int>) returns (manager: Manager)
    requires store.Valid()
    ensures fresh(manager) && manager.Valid() && manager.p == p
    ensures manager.Now().state == old(store.snap.View()) && manager.Now().disk == old(store.disk)
    ensures Follows(p, manager.Now().state, failing, NO_PLANE, manager.Now().plane)
  {
    manager := Assemble(p, threshold, store);
    manager.ApplyAndTrack(store.snap.View(), failing);
  }

  /** setupServer: the store comes up, then proxy and tracker follow what it published. */
  method Start(p: Params, threshold: int, disk: Disk.Disk, env: Env) returns (r: Startup)
    ensures r.Running? ==> fresh(r.manager) && r.manager.Valid() && r.manager.p == p
    ensures r.Running? ==> Store.Starts(disk, r.manager.Now().state, r.manager.Now().disk)
    ensures r.Running? ==> Follows(p, r.manager.Now().state, env.failing, NO_PLANE, r.manager.Now().plane)
    ensures r.Running? <==>
      Store.Usable(Disk.ReadNow(disk)) && (Store.Tidy(Disk.ReadNow(disk)) || env.fault == Disk.NoFault)
    ensures r.Running? ==> Store.Brings(Disk.ReadNow(disk), r.manager.Now().state)
    ensures r.Failed? && r.why.LoadError? <==>
      Disk.ReadNow(disk).Torn? || (Disk.ReadNow(disk).Holds? && Disk.ReadNow(disk).st.version > 1)
  {
    var setup, _ := Store.Setup(disk, env.fault);
    if !setup.Ready? {
      return Failed(setup);
    }
    var manager := ComeUp(p, threshold, setup.store, env.failing);
    r := Running(manager);
  }
}
