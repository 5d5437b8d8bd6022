/** Everything together: what holds of the state, the disk, the proxy and the health checker throughout every run of
    the daemon, restarts and crashes included. */
module System {
  import opened Model
  import opened Config
  import opened Rules
  import opened Transactions
  import Disk
  import Store
  import Manager
  import Ownership
  import Recovery
  import Answers
  import Modes
  import Server
  import Health
  import Identities

  /** A state as the Manager commits it, and as a restart leaves it alone. */
  ghost predicate Fit(p: Params, st: State) {
    Ownership.Sound(p, st) && Recovery.Restartable(st)
  }

  ghost function NodeOf(w: Manager.World): Recovery.Node {
    Recovery.Node(w.state, w.disk)
  }

  /** What can be loaded, now or after a crash, is fit, and so is what is published; it is among what can be loaded;
      and the data plane follows it. */
  ghost predicate Good(p: Params, w: Manager.World) {
    && Kept(p, NodeOf(w)) && InSync(p, w)
  }

  ghost predicate Kept(p: Params, n: Recovery.Node) {
    && Fit(p, n.state) && Recovery.Durable(n) && Store.Loaded(n.state) in Recovery.Loads(n.disk)
    && forall l | l in Recovery.Loads(n.disk) :: Fit(p, l.st)
  }

  /** Every request on an open port gets its right answer from the published state, open ports are those it maps, the
      loop guard protects its ports, and the health checker tracks its upstreams. */
  ghost predicate InSync(p: Params, w: Manager.World) {
    && Answers.AnswersState(p, w.state, w.plane.active, w.plane.routes)
    && Modes.PortsKnown(p.cfg, w.state, w.plane.active)
    && w.plane.selfPorts == Server.AllListenPorts(p.cfg, w.state.lbs)
    && Health.Tracked(w.plane.log).Keys == Identities.UpstreamIdentities(w.state.lbs)
  }

  /** One thing that happens to the daemon. Stopped, Crashed and CrashedInSave end in a start, on the disk as it is or
      as the crash leaves it; Sampled is a probe result or a live failure; Reapplied is a reload that changes no
      oracle. failing: the ports that cannot be bound. */
  datatype Action =
    | Operation(call: Call, env: Manager.Env, r: Manager.Reply)
    | Stopped(failing: set<int>)
    | Crashed(left: Disk.Disk, failing: set<int>)
    | CrashedInSave(call: Call, fault: Disk.SaveFault, point: nat, left: Disk.Disk, failing: set<int>)
    | Sampled(id: Identities.Identity, healthy: bool)
    | Reapplied(failing: set<int>)

  function EventOf(act: Action): Recovery.Event {
    match act
    case Operation(call, env, _) => Recovery.Ran(call, env.fault)
    case Stopped(_) => Recovery.Restarted
    case Crashed(left, _) => Recovery.Crashed(left)
    case CrashedInSave(call, fault, point, left, _) => Recovery.CrashedInSave(call, fault, point, left)
    case _ => Recovery.Idle
  }

  /** The id generator never returns the empty string. */
  predicate RealId(ev: Recovery.Event) {
    ev.Ran? || ev.CrashedInSave? ==> ev.call.id != ""
  }

  ghost predicate Step(p: Params, act: Action, w: Manager.World, v: Manager.World) {
    && RealId(EventOf(act))
    && match act
       case Operation(call, env, r) => Manager.Performed(p, call, env, w, v, r)
       case Sampled(id, healthy) => v == w.(plane := w.plane.(log := w.plane.log + [Health.Sample(id, healthy)]))
       case Reapplied(failing) =>
         NodeOf(v) == NodeOf(w) && Manager.Follows(p, w.state, failing, w.plane, v.plane)
       case _ =>
         && Recovery.Step(p, EventOf(act), NodeOf(w), NodeOf(v))
         && Manager.Follows(p, v.state, act.failing, Manager.NO_PLANE, v.plane)
  }

  lemma NodeSteps(p: Params, act: Action, w: Manager.World, v: Manager.World)
    requires Step(p, act, w, v)
    ensures Recovery.Step(p, EventOf(act), NodeOf(w), NodeOf(v))
  {
  }

  lemma AttemptIsFit(p: Params, st: State, c: Call)
    requires Fit(p, st) && c.id != "" && Attempt(p, st, c).Candidate?
    ensures Fit(p, Attempt(p, st, c).st)
  {
    AttemptCommittable(p, st, c);
    Ownership.AttemptKeepsOwned(p, st, c);
    Ownership.AttemptKeepsPool(p, st, c);
    Recovery.AttemptRestartable(p, st, c);
  }

  /** Whatever happens to state and disk, all that can come back is fit: valid in every rule, owned, in the pool. */
  lemma StepKeepsKept(p: Params, ev: Recovery.Event, a: Recovery.Node, b: Recovery.Node)
    requires Kept(p, a) && RealId(ev) && Recovery.Step(p, ev, a, b)
    ensures Kept(p, b)
  {
    Recovery.StepLoads(p, ev, a, b);
    if Recovery.Proposed(p, ev, a).Some? {
      AttemptIsFit(p, a.state, ev.call);
    }
    if Store.Loaded(b.state) in Recovery.Loads(a.disk) {
      assert Fit(p, Store.Loaded(b.state).st);
    }
    assert Fit(p, b.state);
  }

  lemma FollowsIsInSync(p: Params, before: Manager.Plane, failing: set<int>, known: State, w: Manager.World)
    requires p.coversSet && Normalized(p.cfg) && Committable(p, w.state)
    requires Manager.Follows(p, w.state, failing, before, w.plane)
    requires Modes.PortsKnown(p.cfg, known, before.active)
    ensures InSync(p, w)
  {
    Answers.AppliedAnswers(p, w.state, before.active, failing, w.plane.active, w.plane.routes);
    Modes.ApplyKnowsPorts(p, known, w.state, before.active, failing, w.plane.active, w.plane.routes);
    var ids :|
      && Identities.Lists(ids, Identities.UpstreamIdentities(w.state.lbs))
      && w.plane.log == before.log + [Health.Targets(ids)];
    Health.TrackedAreTargets(w.plane.log);
    assert Identities.SetOf(ids) == Identities.UpstreamIdentities(w.state.lbs);
  }

  lemma StepKeepsGood(p: Params, act: Action, w: Manager.World, v: Manager.World)
    requires p.coversSet && Normalized(p.cfg) && Good(p, w) && Step(p, act, w, v)
    ensures Good(p, v)
  {
    NodeSteps(p, act, w, v);
    StepKeepsKept(p, EventOf(act), NodeOf(w), NodeOf(v));
    match act
    case Operation(call, env, r) =>
      if r.Accepted? {
        FollowsIsInSync(p, w.plane, env.failing, w.state, v);
      }
    case Sampled(id, healthy) => SampleTracksSame(w.plane.log, id, healthy);
    case Reapplied(failing) => FollowsIsInSync(p, w.plane, failing, w.state, v);
    case _ => FollowsIsInSync(p, Manager.NO_PLANE, act.failing, EMPTY_STATE, v);
  }

  lemma SampleTracksSame(log: seq<Health.Event>, id: Identities.Identity, healthy: bool)
    ensures Health.Tracked(log + [Health.Sample(id, healthy)]).Keys == Health.Tracked(log).Keys
  {
    assert (log + [Health.Sample(id, healthy)])[..|log|] == log;
  }

  /** The daemon comes up on disk d, from which nothing unfit can be loaded. */
  ghost predicate Begins(p: Params, d: Disk.Disk, failing: set<int>, w: Manager.World) {
    && Disk.DiskOk(d) && (forall l | l in Recovery.Loads(d) :: l.Loaded? && Fit(p, l.st))
    && Store.Starts(d, w.state, w.disk) && Manager.Follows(p, w.state, failing, Manager.NO_PLANE, w.plane)
  }

  lemma BeginsGood(p: Params, d: Disk.Disk, failing: set<int>, w: Manager.World)
    requires p.coversSet && Normalized(p.cfg) && Begins(p, d, failing, w)
    ensures Good(p, w) && Speaks(w)
  {
    Recovery.StartMakesDurableIff(d, NodeOf(w));
    Recovery.VisibleIsReadable(d);
    Recovery.LoadedIsSaved(Store.LoadState(d).st);
    FollowsIsInSync(p, Manager.NO_PLANE, failing, EMPTY_STATE, w);
    Modes.FreshSpeaks(p, w.state, failing, w.plane.active, w.plane.routes);
  }

  /** A first start, with no state file, is such a beginning. */
  lemma NoFileIsFit(p: Params, l: Store.LoadResult)
    requires l in Recovery.Loads(Disk.EMPTY_DISK)
    ensures Disk.DiskOk(Disk.EMPTY_DISK) && l == Store.Loaded(EMPTY_STATE) && Fit(p, EMPTY_STATE)
  {
    Ownership.RunsAreSound(p, []);
  }

  /** ws are the worlds of a run, acts what happened between them. */
  ghost predicate IsRun(p: Params, ws: seq<Manager.World>, acts: seq<Action>) {
    |ws| == |acts| + 1 && forall i | 0 <= i < |acts| :: StepAt(p, ws, acts, i)
  }

  ghost predicate StepAt(p: Params, ws: seq<Manager.World>, acts: seq<Action>, i: nat)
    requires |ws| == |acts| + 1 && i < |acts|
  {
    Step(p, acts[i], ws[i], ws[i + 1])
  }

  lemma GoodNext(p: Params, ws: seq<Manager.World>, acts: seq<Action>, i: nat)
    requires p.coversSet && Normalized(p.cfg) && IsRun(p, ws, acts) && i < |acts| && Good(p, ws[i])
    ensures Good(p, ws[i + 1])
  {
    assert StepAt(p, ws, acts, i);
    StepKeepsGood(p, acts[i], ws[i], ws[i + 1]);
  }

  /** In every run, whatever fails to save or to bind and wherever it crashes, all of it holds throughout. */
  lemma {:induction false} RunsAreGood(p: Params, ws: seq<Manager.World>, acts: seq<Action>, i: nat)
    requires p.coversSet && Normalized(p.cfg) && IsRun(p, ws, acts) && Good(p, ws[0]) && i < |ws|
    ensures Good(p, ws[i])
    decreases i
  {
    if i > 0 {
      var h: nat := i - 1;
      RunsAreGood(p, ws, acts, h);
      GoodNext(p, ws, acts, h);
    }
  }

  /** So the loop guard refuses every port the daemon has open, on loopback and on the machine's own addresses: it
      guards just the ports that the configuration or a mapping declares, and no other is ever open. */
  lemma OpenPortsAreGuarded(p: Params, w: Manager.World, port: int)
    requires Good(p, w)
    ensures port in w.plane.active ==> port in w.plane.selfPorts
    ensures port in w.plane.selfPorts <==> Answers.Declared(p.cfg, w.state, port)
  {
    Answers.GuardedIff(p.cfg, w.state, port);
  }

  /** Some mapping reaches its upstream just as up is reached. */
  ghost predicate InUse(st: State, up: Upstream) {
    exists b, m :: Answers.Maps(st, b, m) && Alike(m.upstream, up)
  }

  predicate Alike(u: Upstream, v: Upstream) {
    u.scheme == v.scheme && u.host == v.host && u.port == v.port && (u.scheme == "https" ==> u.tls == v.tls)
  }

  /** The health checker tracks an upstream if and only if a mapping of the published state uses it. */
  lemma TrackedAreInUse(p: Params, w: Manager.World, up: Upstream)
    requires Good(p, w)
    ensures Identities.IdentityOf(up) in Health.Tracked(w.plane.log) <==> InUse(w.state, up)
  {
    forall u ensures Identities.IdentityOf(u) == Identities.IdentityOf(up) <==> Alike(u, up) {
      Identities.SameIdentityIff(u, up);
    }
    if b, m :| b in w.state.lbs && m in b.mappings && Identities.IdentityOf(m.upstream) == Identities.IdentityOf(up) {
      assert Answers.Maps(w.state, b, m);
    }
  }

  ghost function Nodes(ws: seq<Manager.World>): (ns: seq<Recovery.Node>)
    ensures |ns| == |ws| && forall i | 0 <= i < |ws| :: ns[i] == NodeOf(ws[i])
  {
    seq(|ws|, i requires 0 <= i < |ws| => NodeOf(ws[i]))
  }

  function Events(acts: seq<Action>): (evs: seq<Recovery.Event>)
    ensures |evs| == |acts| && forall i | 0 <= i < |acts| :: evs[i] == EventOf(acts[i])
  {
    seq(|acts|, i requires 0 <= i < |acts| => EventOf(acts[i]))
  }

  lemma NodesRun(p: Params, ws: seq<Manager.World>, acts: seq<Action>)
    requires IsRun(p, ws, acts)
    ensures Recovery.IsRun(p, Nodes(ws), Events(acts))
  {
    forall i | 0 <= i < |acts| ensures Recovery.StepAt(p, Nodes(ws), Events(acts), i) {
      assert StepAt(p, ws, acts, i);
      NodeSteps(p, acts[i], ws[i], ws[i + 1]);
    }
  }

  /** What the disk holds, in terms of the run: a start may load exactly the state published when a change was last
      accepted or a crash last decided, and the changes refused since by a failing directory sync. The published
      state is among these, and the only one if and only if there is no other. */
  lemma DiskInRuns(p: Params, ws: seq<Manager.World>, acts: seq<Action>, i: nat, s: State)
    requires IsRun(p, ws, acts) && Kept(p, NodeOf(ws[0])) && i < |ws|
    ensures Store.Loaded(s) in Recovery.Loads(ws[i].disk) <==> Recovery.HasOrigin(p, Nodes(ws), Events(acts), i, s)
    ensures Store.Loaded(ws[i].state) in Recovery.Loads(ws[i].disk)
    ensures Recovery.Loads(ws[i].disk) == {Store.Loaded(ws[i].state)} <==>
            forall j: nat, t | Recovery.Origin(p, Nodes(ws), Events(acts), j, i, t) :: t == ws[i].state
  {
    NodesRun(p, ws, acts);
    Recovery.LoadsAreOrigins(p, Nodes(ws), Events(acts), i, s);
    Recovery.PublishedIsDurableIff(p, Nodes(ws), Events(acts), i);
  }

  /** Right after an accepted operation what readers see cannot be taken back, and it was on disk before. */
  lemma AcceptedIsDurable(p: Params, call: Call, env: Manager.Env, w: Manager.World, v: Manager.World, r: Manager.Reply)
    requires Manager.Performed(p, call, env, w, v, r) && r.Accepted?
    ensures Disk.OnlyHolds(v.disk, v.state)
  {
    Disk.SavedIsDurable(w.disk, v.state);
  }

  /** The operation that leaves a listener behind: an accepted replacement of a mapping, on a port that is open, by
      one of the other TLS mode. */
  ghost predicate Replacing(p: Params, act: Action, w: Manager.World) {
    act.Operation? && act.r.Accepted? && Modes.ReplacesMode(p, w.state, act.call, w.plane.active)
  }

  ghost predicate Speaks(w: Manager.World) {
    Modes.Speaks(w.state, w.plane.active)
  }

  lemma StepSpeaksIff(p: Params, act: Action, w: Manager.World, v: Manager.World)
    requires p.coversSet && Normalized(p.cfg) && Good(p, w) && Speaks(w) && Step(p, act, w, v)
    ensures Speaks(v) <==> !Replacing(p, act, w)
  {
    StepKeepsGood(p, act, w, v);
    match act
    case Operation(call, env, r) => OperationSpeaksIff(p, call, env, r, w, v);
    case Sampled(_, _) =>
    case Reapplied(failing) =>
      Modes.ApplySpeaksIff(p, w.state, w.state, w.plane.active, failing, v.plane.active, v.plane.routes);
      Modes.NoFlipInPlace(w.state, w.plane.active);
    case _ => Modes.FreshSpeaks(p, v.state, act.failing, v.plane.active, v.plane.routes);
  }

  lemma OperationSpeaksIff(p: Params, call: Call, env: Manager.Env, r: Manager.Reply, w: Manager.World,
                           v: Manager.World)
    requires p.coversSet && Normalized(p.cfg) && Good(p, w) && Speaks(w) && Good(p, v)
    requires Manager.Performed(p, call, env, w, v, r)
    ensures Speaks(v) <==> !(r.Accepted? && Modes.ReplacesMode(p, w.state, call, w.plane.active))
  {
    if r.Accepted? {
      Modes.ApplySpeaksIff(p, w.state, v.state, w.plane.active, env.failing, v.plane.active, v.plane.routes);
      Modes.OperationFlipsIff(p, w.state, call, w.plane.active);
    }
  }

  lemma NextSpeaksIff(p: Params, ws: seq<Manager.World>, acts: seq<Action>, i: nat)
    requires p.coversSet && Normalized(p.cfg) && IsRun(p, ws, acts) && Good(p, ws[0]) && i < |acts| && Speaks(ws[i])
    ensures Speaks(ws[i + 1]) <==> !Replacing(p, acts[i], ws[i])
  {
    RunsAreGood(p, ws, acts, i);
    assert StepAt(p, ws, acts, i);
    StepSpeaksIff(p, acts[i], ws[i], ws[i + 1]);
  }

  ghost predicate SpeakUpTo(ws: seq<Manager.World>, i: nat)
    requires i < |ws|
  {
    forall k | 0 <= k <= i :: Speaks(ws[k])
  }

  ghost predicate NoneReplacing(p: Params, ws: seq<Manager.World>, acts: seq<Action>, i: nat)
    requires i <= |acts| <= |ws|
  {
    forall k | 0 <= k < i :: !Replacing(p, acts[k], ws[k])
  }

  lemma OneFurther(p: Params, ws: seq<Manager.World>, acts: seq<Action>, i: nat)
    requires i < |acts| < |ws|
    ensures SpeakUpTo(ws, i + 1) <==> SpeakUpTo(ws, i) && Speaks(ws[i + 1])
    ensures NoneReplacing(p, ws, acts, i + 1) <==> NoneReplacing(p, ws, acts, i) && !Replacing(p, acts[i], ws[i])
    ensures SpeakUpTo(ws, i) ==> Speaks(ws[i])
  {
  }

  /** Over every run each open port speaks the mode of all its mappings, throughout, if and only if no accepted
      operation replaces a mapping on an open port by one of the other mode. */
  lemma {:induction false} SpeaksThroughoutIff(p: Params, ws: seq<Manager.World>, acts: seq<Action>, i: nat)
    requires p.coversSet && Normalized(p.cfg) && IsRun(p, ws, acts) && Good(p, ws[0]) && Speaks(ws[0]) && i < |ws|
    ensures SpeakUpTo(ws, i) <==> NoneReplacing(p, ws, acts, i)
    decreases i
  {
    if i > 0 {
      var h: nat := i - 1;
      SpeaksThroughoutIff(p, ws, acts, h);
      OneFurther(p, ws, acts, h);
      if SpeakUpTo(ws, h) {
        NextSpeaksIff(p, ws, acts, h);
      }
    }
  }
}
