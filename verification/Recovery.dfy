/** Crashes and restarts: what a start may find on the disk, over whole runs of the daemon, and when that is what
    it published (internal/store/store.go, internal/txn/txn.go, cmd/rgdevenv/serve.go). */
module Recovery {
  import opened Model
  import opened Disk
  import opened Rules
  import opened Transactions
  import opened Registry
  import Store
  import Ownership
  import Removal
  import Witness

  /** What a start may load, now or after a crash. */
  ghost function Loads(d: Disk): set<Store.LoadResult> {
    set r | r in Readable(d) :: Store.LoadFrom(r)
  }

  /** A state the daemon can start from without changing it. */
  ghost predicate Restartable(st: State) {
    WellFormed(st) && NoOrphans(st) && st.version <= CURRENT_VERSION && st.version != 0
  }

  lemma VisibleIsReadable(d: Disk)
    ensures ReadNow(d) in Readable(d) && Store.LoadState(d) in Loads(d)
  {
    if d.pending != [] {
      assert d.pending[|d.pending| - 1] in d.pending;
    }
  }

  /** A committed state is read back as it is. */
  lemma LoadedIsSaved(st: State)
    requires Restartable(st)
    ensures Store.LoadFrom(Holds(st)) == Store.Loaded(st) && Reconciled(st) == st
  {
    KeepIsIdentity(st.allocs, Referenced(st.lbs));
  }

  /** Whatever is loaded has a version this program knows. */
  lemma LoadedVersion(r: Read)
    requires Store.LoadFrom(r).Loaded?
    ensures var v := Store.LoadFrom(r).st.version; v <= CURRENT_VERSION && v != 0
  {
  }

  /** What a crash at point i of a Save leaves for a start to load. */
  lemma LoadsInSave(d: Disk, st: State, fault: SaveFault, i: nat)
    requires DiskOk(d) && Store.LoadFrom(Holds(st)) == Store.Loaded(st) && i < |SaveTrace(d, st, fault)|
    ensures DiskOk(SaveTrace(d, st, fault)[i])
    ensures Loads(SaveTrace(d, st, fault)[i]) ==
              if i < 4 || !Renamed(fault) then Loads(d)
              else if fault == SyncDirFails || i == 4 then Loads(d) + {Store.Loaded(st)}
              else {Store.Loaded(st)}
  {
    SaveTraceReadable(d, st, fault, i);
    LoadsOf(d, SaveTrace(d, st, fault)[i], st);
  }

  lemma LoadsOf(d: Disk, e: Disk, st: State)
    requires Store.LoadFrom(Holds(st)) == Store.Loaded(st)
    ensures Readable(e) == Readable(d) ==> Loads(e) == Loads(d)
    ensures Readable(e) == Readable(d) + {Holds(st)} ==> Loads(e) == Loads(d) + {Store.Loaded(st)}
    ensures Readable(e) == {Holds(st)} ==> Loads(e) == {Store.Loaded(st)}
  {
    if Readable(e) == Readable(d) + {Holds(st)} {
      assert Holds(st) in Readable(e);
      assert forall l :: l in Loads(e) <==> l in Loads(d) || l == Store.Loaded(st);
    }
    if Readable(e) == {Holds(st)} {
      assert Holds(st) in Readable(e);
      assert forall l :: l in Loads(e) <==> l == Store.Loaded(st);
    }
  }

  /** What a Save that ran to its end leaves. */
  lemma LoadsAfterSave(d: Disk, st: State, fault: SaveFault)
    requires DiskOk(d) && Store.LoadFrom(Holds(st)) == Store.Loaded(st)
    ensures DiskOk(SaveEffect(d, st, fault))
    ensures Loads(SaveEffect(d, st, fault)) ==
              if !Renamed(fault) then Loads(d)
              else if fault == SyncDirFails then Loads(d) + {Store.Loaded(st)}
              else {Store.Loaded(st)}
  {
    LoadsInSave(d, st, fault, |SaveTrace(d, st, fault)| - 1);
  }

  lemma LoadsAfterCrash(d: Disk, e: Disk)
    requires DiskOk(d) && CrashTo(d, e)
    ensures DiskOk(e) && Loads(e) == {Store.LoadState(e)} && Store.LoadState(e) in Loads(d)
  {
    CrashKeepsOk(d, e);
    assert forall l :: l in Loads(e) <==> l == Store.LoadState(e);
  }

  // Starting.

  /** No other state than the one a start on d publishes can come back later, if and only if the start rewrote the
      file or nothing else could come back before: no pending rename, nor the durable file under them, reads
      otherwise. Without a crash a start publishes the latest rename, durable or not. */
  lemma StartIsDurableIff(d: Disk, b: State, e: Disk)
    requires DiskOk(d) && Store.Starts(d, b, e)
    ensures Loads(e) == {Store.Loaded(b)} <==>
              !Store.Clean(d) || forall r | r in Readable(d) :: Store.LoadFrom(r) == Store.LoadState(d)
  {
    VisibleIsReadable(d);
    var l := Store.LoadState(d);
    LoadedVersion(ReadNow(d));
    if Store.Clean(d) {
      KeepIsIdentity(l.st.allocs, Referenced(l.st.lbs));
      assert Store.Loaded(b) == l;
      if Loads(e) == {l} {
        assert forall r | r in Readable(d) :: Store.LoadFrom(r) in Loads(d);
      } else {
        assert exists r :: r in Readable(d) && Store.LoadFrom(r) != l;
      }
    } else {
      LoadsAfterSave(d, b, NoFault);
    }
  }

  /** The daemon: what it publishes, and its disk. */
  datatype Node = Node(state: State, disk: Disk)

  ghost predicate Durable(n: Node) {
    Restartable(n.state) && DiskOk(n.disk) && forall l | l in Loads(n.disk) :: l.Loaded? && Restartable(l.st)
  }

  /** A first start may find any structurally valid file. From then on every restart changes nothing, if and only
      if the start rewrote the file or whatever else may come back needs no rewriting either. */
  lemma StartMakesDurableIff(d: Disk, b: Node)
    requires DiskOk(d) && Store.Starts(d, b.state, b.disk)
    ensures Durable(b) <==> !Store.Clean(d) || forall l | l in Loads(d) :: l.Loaded? && Restartable(l.st)
  {
    VisibleIsReadable(d);
    LoadedVersion(ReadNow(d));
    Removal.ReconciledWellFormed(Store.LoadState(d).st);
    ReconciledHasNoOrphans(Store.LoadState(d).st);
    if !Store.Clean(d) {
      LoadsAfterSave(d, b.state, NoFault);
    }
  }

  /** Which is so on any disk without a pending rename. */
  lemma SettledStartIsDurable(d: Disk, b: Node)
    requires DiskOk(d) && d.pending == [] && Store.Starts(d, b.state, b.disk)
    ensures Durable(b)
  {
    StartMakesDurableIff(d, b);
    LoadedVersion(ReadNow(d));
    assert Readable(d) == {ReadNow(d)};
  }

  /** Recovery is the identity: a restart, after a crash at any point or none, always succeeds, finds nothing to
      reconcile, leaves the disk alone and publishes what the disk holds. */
  lemma RestartIsIdentity(n: Node, d: Disk, b: Node)
    requires Durable(n) && (CrashTo(n.disk, d) || d == n.disk)
    ensures Store.Clean(d) && Store.LoadState(d) in Loads(n.disk)
    ensures Store.Starts(d, b.state, b.disk) <==> b == Node(Store.LoadState(d).st, d)
  {
    if CrashTo(n.disk, d) {
      LoadsAfterCrash(n.disk, d);
    } else {
      VisibleIsReadable(d);
    }
    LoadedIsSaved(Store.LoadState(d).st);
  }

  // Runs.

  /** What happens to the daemon: an operation that ran to its end, with any outcome of Save; a stop and start with
      the machine staying up; a crash, between operations or at some point of the Save of one, and a start on the
      disk that is left; or something that touches neither state nor disk. */
  datatype Event =
    | Ran(call: Call, fault: SaveFault)
    | Restarted
    | Crashed(left: Disk)
    | CrashedInSave(call: Call, fault: SaveFault, point: nat, left: Disk)
    | Idle

  ghost predicate Step(p: Params, ev: Event, a: Node, b: Node) {
    match ev
    case Ran(call, fault) =>
      var e := Attempt(p, a.state, call);
      if e.Rejected? then b == a
      else b == Node(if fault == NoFault then e.st else a.state, SaveEffect(a.disk, e.st, fault))
    case Restarted => Store.Starts(a.disk, b.state, b.disk)
    case Crashed(left) => CrashTo(a.disk, left) && Store.Starts(left, b.state, b.disk)
    case CrashedInSave(call, fault, point, left) =>
      && CrashPoint(p, a, call, fault, point, left) && Store.Starts(left, b.state, b.disk)
    case Idle => b == a
  }

  ghost predicate CrashPoint(p: Params, a: Node, call: Call, fault: SaveFault, point: nat, left: Disk) {
    var e := Attempt(p, a.state, call);
    e.Candidate? && point < |SaveTrace(a.disk, e.st, fault)| && CrashTo(SaveTrace(a.disk, e.st, fault)[point], left)
  }

  /** The candidate that was being saved, if any. */
  ghost function Proposed(p: Params, ev: Event, a: Node): Option<State> {
    if (ev.Ran? || ev.CrashedInSave?) && Attempt(p, a.state, ev.call).Candidate? then
      Some(Attempt(p, a.state, ev.call).st)
    else None
  }

  /** After this only what is published can come back: a change was accepted, or a crash decided. */
  ghost predicate Settles(p: Params, ev: Event, a: Node) {
    ev.Crashed? || ev.CrashedInSave? || (ev.Ran? && ev.fault == NoFault && Proposed(p, ev, a).Some?)
  }

  /** The candidate that was refused although its rename was issued: the directory sync failed. */
  ghost function Exposed(p: Params, ev: Event, a: Node): Option<State> {
    if ev.Ran? && ev.fault == SyncDirFails then Proposed(p, ev, a) else None
  }

  ghost function LoadsNext(p: Params, ev: Event, a: Node, b: Node): set<Store.LoadResult> {
    if Settles(p, ev, a) then {Store.Loaded(b.state)}
    else if Exposed(p, ev, a).Some? then Loads(a.disk) + {Store.Loaded(Exposed(p, ev, a).value)}
    else Loads(a.disk)
  }

  /** One step: what can be loaded afterwards, exactly, and where it and the published state come from. */
  lemma StepLoads(p: Params, ev: Event, a: Node, b: Node)
    requires Durable(a) && Step(p, ev, a, b)
    ensures Durable(b) && Loads(b.disk) == LoadsNext(p, ev, a, b)
    ensures b.state == a.state || Store.Loaded(b.state) in Loads(a.disk) || Some(b.state) == Proposed(p, ev, a)
    ensures Store.Loaded(a.state) in Loads(a.disk) ==> Store.Loaded(b.state) in Loads(b.disk)
  {
    match ev
    case Ran(call, fault) => RanLoads(p, ev, a, b);
    case Restarted => RestartIsIdentity(a, a.disk, b);
    case Crashed(left) =>
      LoadsAfterCrash(a.disk, left);
      RestartIsIdentity(a, left, b);
    case CrashedInSave(call, fault, point, left) =>
      AttemptRestartable(p, a.state, call);
      CrashLoads(a, Attempt(p, a.state, call).st, fault, point, left, b);
    case Idle =>
  }

  lemma RanLoads(p: Params, ev: Event, a: Node, b: Node)
    requires Durable(a) && ev.Ran? && Step(p, ev, a, b)
    ensures Durable(b) && Loads(b.disk) == LoadsNext(p, ev, a, b)
  {
    var e := Attempt(p, a.state, ev.call);
    if e.Candidate? {
      AttemptRestartable(p, a.state, ev.call);
      LoadedIsSaved(e.st);
      LoadsAfterSave(a.disk, e.st, ev.fault);
    }
  }

  lemma CrashLoads(a: Node, st: State, fault: SaveFault, point: nat, left: Disk, b: Node)
    requires Durable(a) && Restartable(st) && point < |SaveTrace(a.disk, st, fault)|
    requires CrashTo(SaveTrace(a.disk, st, fault)[point], left) && Store.Starts(left, b.state, b.disk)
    ensures Durable(b) && Loads(b.disk) == {Store.Loaded(b.state)}
    ensures Store.Loaded(b.state) in Loads(a.disk) || b.state == st
  {
    LoadedIsSaved(st);
    LoadsInSave(a.disk, st, fault, point);
    LoadsAfterCrash(SaveTrace(a.disk, st, fault)[point], left);
    RestartIsIdentity(Node(a.state, SaveTrace(a.disk, st, fault)[point]), left, b);
  }

  ghost predicate IsRun(p: Params, ns: seq<Node>, evs: seq<Event>) {
    |ns| == |evs| + 1 && forall i | 0 <= i < |evs| :: StepAt(p, ns, evs, i)
  }

  ghost predicate StepAt(p: Params, ns: seq<Node>, evs: seq<Event>, i: nat)
    requires |ns| == |evs| + 1 && i < |evs|
  {
    Step(p, evs[i], ns[i], ns[i + 1])
  }

  /** In every run of operations, restarts and crashes begun by a start, every restart changes nothing and succeeds. */
  lemma {:induction false} RunsAreDurable(p: Params, ns: seq<Node>, evs: seq<Event>, i: nat)
    requires IsRun(p, ns, evs) && Durable(ns[0]) && i < |ns|
    ensures Durable(ns[i])
    decreases i
  {
    if i > 0 {
      var h: nat := i - 1;
      RunsAreDurable(p, ns, evs, h);
      assert StepAt(p, ns, evs, h);
      StepLoads(p, evs[h], ns[h], ns[h + 1]);
    }
  }

  /** Nothing settled from j on up to i. */
  ghost predicate Unsettled(p: Params, ns: seq<Node>, evs: seq<Event>, j: nat, i: nat)
    requires |ns| == |evs| + 1 && i < |ns|
  {
    forall k | j <= k < i :: !Settles(p, evs[k], ns[k])
  }

  /** Why s may come back at i: it was published when things last settled, or could be loaded when the run began
      and nothing settled since; or it was refused since with its rename issued. j is when that was. */
  ghost predicate Origin(p: Params, ns: seq<Node>, evs: seq<Event>, j: nat, i: nat, s: State)
    requires |ns| == |evs| + 1 && i < |ns|
  {
    && j <= i && Unsettled(p, ns, evs, j, i)
    && if j == 0 then Store.Loaded(s) in Loads(ns[0].disk)
       else (Settles(p, evs[j - 1], ns[j - 1]) && s == ns[j].state) || Exposed(p, evs[j - 1], ns[j - 1]) == Some(s)
  }

  /** Over every run: what a start may load is exactly the last settled state and the candidates refused since by a
      failing directory sync. */
  lemma {:induction false} LoadsAreOrigins(p: Params, ns: seq<Node>, evs: seq<Event>, i: nat, s: State)
    requires IsRun(p, ns, evs) && Durable(ns[0]) && i < |ns|
    ensures Store.Loaded(s) in Loads(ns[i].disk) <==> HasOrigin(p, ns, evs, i, s)
    decreases i
  {
    if i == 0 {
      assert forall j: nat | Origin(p, ns, evs, j, 0, s) :: j == 0;
      assert Store.Loaded(s) in Loads(ns[0].disk) <==> Origin(p, ns, evs, 0, 0, s);
    } else {
      RunsAreDurable(p, ns, evs, i - 1);
      LoadsAreOrigins(p, ns, evs, i - 1, s);
      OriginsNext(p, ns, evs, i - 1, s);
    }
  }

  ghost predicate HasOrigin(p: Params, ns: seq<Node>, evs: seq<Event>, i: nat, s: State)
    requires |ns| == |evs| + 1 && i < |ns|
  {
    exists j: nat :: Origin(p, ns, evs, j, i, s)
  }

  lemma OriginsNext(p: Params, ns: seq<Node>, evs: seq<Event>, h: nat, s: State)
    requires IsRun(p, ns, evs) && h < |evs| && Durable(ns[h])
    requires Store.Loaded(s) in Loads(ns[h].disk) <==> HasOrigin(p, ns, evs, h, s)
    ensures Store.Loaded(s) in Loads(ns[h + 1].disk) <==> HasOrigin(p, ns, evs, h + 1, s)
  {
    assert StepAt(p, ns, evs, h);
    StepLoads(p, evs[h], ns[h], ns[h + 1]);
    OriginNow(p, ns, evs, h, s);
    if HasOrigin(p, ns, evs, h + 1, s) {
      var j: nat :| Origin(p, ns, evs, j, h + 1, s);
      if j <= h {
        OriginStep(p, ns, evs, j, h, s);
      }
    }
    if !Settles(p, evs[h], ns[h]) && HasOrigin(p, ns, evs, h, s) {
      var j: nat :| Origin(p, ns, evs, j, h, s);
      OriginStep(p, ns, evs, j, h, s);
    }
  }

  lemma OriginNow(p: Params, ns: seq<Node>, evs: seq<Event>, h: nat, s: State)
    requires |ns| == |evs| + 1 && h < |evs|
    ensures Origin(p, ns, evs, h + 1, h + 1, s) <==>
            (Settles(p, evs[h], ns[h]) && s == ns[h + 1].state) || Exposed(p, evs[h], ns[h]) == Some(s)
  {
  }

  lemma OriginStep(p: Params, ns: seq<Node>, evs: seq<Event>, j: nat, h: nat, s: State)
    requires |ns| == |evs| + 1 && j <= h < |evs|
    ensures Origin(p, ns, evs, j, h + 1, s) <==> !Settles(p, evs[h], ns[h]) && Origin(p, ns, evs, j, h, s)
  {
    assert Unsettled(p, ns, evs, j, h + 1) <==> !Settles(p, evs[h], ns[h]) && Unsettled(p, ns, evs, j, h);
  }

  /** So the published state cannot be taken back, by any crash, if and only if nothing else was exposed since
      things last settled. A state a reader sees may therefore be lost again, but only after a failed directory
      sync: see ServedStateIsLost. */
  lemma PublishedIsDurableIff(p: Params, ns: seq<Node>, evs: seq<Event>, i: nat)
    requires IsRun(p, ns, evs) && Durable(ns[0]) && Store.Loaded(ns[0].state) in Loads(ns[0].disk) && i < |ns|
    ensures Store.Loaded(ns[i].state) in Loads(ns[i].disk)
    ensures Loads(ns[i].disk) == {Store.Loaded(ns[i].state)} <==>
            forall j: nat, s | Origin(p, ns, evs, j, i, s) :: s == ns[i].state
  {
    PublishedIsLoadable(p, ns, evs, i);
    RunsAreDurable(p, ns, evs, i);
    var here := Store.Loaded(ns[i].state);
    if Loads(ns[i].disk) == {here} {
      forall j: nat, s | Origin(p, ns, evs, j, i, s) ensures s == ns[i].state {
        LoadsAreOrigins(p, ns, evs, i, s);
        assert Store.Loaded(s) in {here};
      }
    } else {
      OtherThan(Loads(ns[i].disk), here);
      var l :| l in Loads(ns[i].disk) && l != here;
      LoadsAreOrigins(p, ns, evs, i, l.st);
    }
  }

  lemma OtherThan<T>(s: set<T>, x: T)
    requires x in s && s != {x}
    ensures exists y :: y in s && y != x
  {
    assert s == (s - {x}) + {x};
    var y :| y in s - {x};
  }

  lemma {:induction false} PublishedIsLoadable(p: Params, ns: seq<Node>, evs: seq<Event>, i: nat)
    requires IsRun(p, ns, evs) && Durable(ns[0]) && Store.Loaded(ns[0].state) in Loads(ns[0].disk) && i < |ns|
    ensures Store.Loaded(ns[i].state) in Loads(ns[i].disk)
    decreases i
  {
    if i > 0 {
      var h: nat := i - 1;
      PublishedIsLoadable(p, ns, evs, h);
      RunsAreDurable(p, ns, evs, h);
      assert StepAt(p, ns, evs, h);
      StepLoads(p, evs[h], ns[h], ns[h + 1]);
    }
  }

  // The file as other programs see it.

  /** After this the file shows what is published. */
  ghost predicate Aligns(p: Params, ev: Event, a: Node) {
    ev.Restarted? || Settles(p, ev, a)
  }

  lemma StepShows(p: Params, ev: Event, a: Node, b: Node)
    requires Durable(a) && Step(p, ev, a, b)
    ensures Store.LoadState(b.disk) ==
              if Aligns(p, ev, a) then Store.Loaded(b.state)
              else if Exposed(p, ev, a).Some? then Store.Loaded(Exposed(p, ev, a).value)
              else Store.LoadState(a.disk)
    ensures !Aligns(p, ev, a) ==> b.state == a.state
  {
    match ev
    case Ran(call, fault) =>
      var e := Attempt(p, a.state, call);
      if e.Candidate? {
        AttemptRestartable(p, a.state, call);
        LoadedIsSaved(e.st);
        SaveEnds(a.disk, e.st, fault);
      }
    case Restarted => RestartIsIdentity(a, a.disk, b);
    case Idle =>
    case _ =>
      StepLoads(p, ev, a, b);
      VisibleIsReadable(b.disk);
  }

  /** Event j - 1 was the last before i to change what the file shows or what is published. */
  ghost predicate LastChange(p: Params, ns: seq<Node>, evs: seq<Event>, j: nat, i: nat)
    requires |ns| == |evs| + 1 && i < |ns|
  {
    && 0 < j <= i && (Aligns(p, evs[j - 1], ns[j - 1]) || Exposed(p, evs[j - 1], ns[j - 1]).Some?)
    && Still(p, ns, evs, j, i)
  }

  /** From j on up to i neither changes. */
  ghost predicate Still(p: Params, ns: seq<Node>, evs: seq<Event>, j: nat, i: nat)
    requires |ns| == |evs| + 1 && i < |ns|
  {
    forall k | j <= k < i :: !Aligns(p, evs[k], ns[k]) && Exposed(p, evs[k], ns[k]) == None
  }

  /** That event was a change refused with its rename issued, and it is not what is published. */
  ghost predicate Overtaken(p: Params, ns: seq<Node>, evs: seq<Event>, j: nat, i: nat)
    requires |ns| == |evs| + 1 && i < |ns|
  {
    && LastChange(p, ns, evs, j, i)
    && Exposed(p, evs[j - 1], ns[j - 1]).Some? && Exposed(p, evs[j - 1], ns[j - 1]).value != ns[i].state
  }

  ghost predicate IsOvertaken(p: Params, ns: seq<Node>, evs: seq<Event>, i: nat)
    requires |ns| == |evs| + 1 && i < |ns|
  {
    exists j: nat :: Overtaken(p, ns, evs, j, i)
  }

  /** Over every run the file shows the published state, unless the last change was one refused with its rename
      issued. */
  lemma {:induction false} FileShowsPublishedIff(p: Params, ns: seq<Node>, evs: seq<Event>, i: nat)
    requires IsRun(p, ns, evs) && Durable(ns[0]) && Store.LoadState(ns[0].disk) == Store.Loaded(ns[0].state) && i < |ns|
    ensures Store.LoadState(ns[i].disk) == Store.Loaded(ns[i].state) <==> !IsOvertaken(p, ns, evs, i)
    decreases i
  {
    if i == 0 {
      assert forall j: nat :: !LastChange(p, ns, evs, j, 0);
    } else {
      RunsAreDurable(p, ns, evs, i - 1);
      FileShowsPublishedIff(p, ns, evs, i - 1);
      ShowsNext(p, ns, evs, i - 1);
    }
  }

  lemma ShowsNext(p: Params, ns: seq<Node>, evs: seq<Event>, h: nat)
    requires IsRun(p, ns, evs) && h < |evs| && Durable(ns[h])
    requires Store.LoadState(ns[h].disk) == Store.Loaded(ns[h].state) <==> !IsOvertaken(p, ns, evs, h)
    ensures Store.LoadState(ns[h + 1].disk) == Store.Loaded(ns[h + 1].state) <==> !IsOvertaken(p, ns, evs, h + 1)
  {
    assert StepAt(p, ns, evs, h);
    StepShows(p, evs[h], ns[h], ns[h + 1]);
    if IsOvertaken(p, ns, evs, h + 1) {
      var j: nat :| Overtaken(p, ns, evs, j, h + 1);
      OvertakenStep(p, ns, evs, j, h);
    }
    if IsOvertaken(p, ns, evs, h) {
      var j: nat :| Overtaken(p, ns, evs, j, h);
      OvertakenStep(p, ns, evs, j, h);
    }
    OvertakenStep(p, ns, evs, h + 1, h);
  }

  lemma OvertakenStep(p: Params, ns: seq<Node>, evs: seq<Event>, j: nat, h: nat)
    requires |ns| == |evs| + 1 && h < |evs|
    requires !Aligns(p, evs[h], ns[h]) ==> ns[h + 1].state == ns[h].state
    ensures Overtaken(p, ns, evs, j, h + 1) <==>
              if Aligns(p, evs[h], ns[h]) then false
              else if Exposed(p, evs[h], ns[h]).Some? then
                j == h + 1 && Exposed(p, evs[h], ns[h]).value != ns[h + 1].state
              else Overtaken(p, ns, evs, j, h)
  {
    if j <= h {
      ChangeStep(p, ns, evs, j, h);
    }
  }

  lemma ChangeStep(p: Params, ns: seq<Node>, evs: seq<Event>, j: nat, h: nat)
    requires |ns| == |evs| + 1 && j <= h < |evs|
    ensures LastChange(p, ns, evs, j, h + 1) <==>
            !Aligns(p, evs[h], ns[h]) && Exposed(p, evs[h], ns[h]) == None && LastChange(p, ns, evs, j, h)
  {
    assert Still(p, ns, evs, j, h + 1) <==>
           !Aligns(p, evs[h], ns[h]) && Exposed(p, evs[h], ns[h]) == None && Still(p, ns, evs, j, h);
  }

  // The operations.

  lemma AttemptRestartable(p: Params, st: State, call: Call)
    requires Restartable(st) && Attempt(p, st, call).Candidate?
    ensures Restartable(Attempt(p, st, call).st)
  {
    AttemptCommittable(p, st, call);
    EditKeepsNoOrphans(p, st, call, EditOf(p, st, call).st);
  }

  /** No operation leaves an orphaned reservation, not even those that do not reconcile. */
  lemma EditKeepsNoOrphans(p: Params, st: State, c: Call, e: State)
    requires WellFormed(st) && NoOrphans(st) && EditOf(p, st, c) == Candidate(e)
    ensures NoOrphans(e) && e.version == st.version
  {
    match c.op
    case CreateLB(_, _) => assert Referenced(e.lbs) == Referenced(st.lbs);
    case UpdateLBLabel(name, text) => 
      var i := LBIndex(st.lbs, p.o.canon(name).value);
      Ownership.SameRefs(st.lbs, i, st.lbs[i].(labelText := text));
    case DeleteLB(name) =>
      ReconciledHasNoOrphans(st.(lbs := RemoveAt(st.lbs, LBIndex(st.lbs, p.o.canon(name).value))));
    case PutMapping(name, spec, replace) =>
      PutHasNoOrphans(p, st, LBIndex(st.lbs, p.o.canon(name).value), spec, c.now, c.id);
    case DeleteMapping(name, port) =>
      var i := LBIndex(st.lbs, p.o.canon(name).value);
      var rest := RemoveAt(st.lbs[i].mappings, MappingIndex(st.lbs[i].mappings, port));
      ReconciledHasNoOrphans(st.(lbs := SetMappings(st.lbs, i, rest)));
    case AllocatePort(_, _) =>
    case ReturnPort(port) =>
      forall a | a in e.allocs ensures a in st.allocs {
        WithoutPortExactly(st.allocs, port, a);
      }
  }

  lemma ReconciledHasNoOrphans(st: State)
    ensures NoOrphans(Reconciled(st))
  {
    forall a | a in Reconciled(st).allocs ensures !Orphan(a, Referenced(st.lbs)) {
      KeptExactly(st.allocs, Referenced(st.lbs), a);
    }
  }

  lemma PutHasNoOrphans(p: Params, st: State, i: nat, spec: MappingSpec, now: Time, id: string)
    requires i < |st.lbs| && PutAt(p, st, i, spec, now, id).Candidate?
    ensures NoOrphans(PutAt(p, st, i, spec, now, id).st)
  {
    if spec.allocate {
      var a := AutoAlloc(GrantIn(p, st, id).alloc, st.lbs[i].name, spec, now);
      ReconciledHasNoOrphans(st.(lbs := PlaceMapping(st.lbs, i, AutoMapping(spec, a)), allocs := st.allocs + [a]));
    } else {
      ReconciledHasNoOrphans(st.(lbs := PlaceMapping(st.lbs, i, PlainMapping(spec))));
    }
  }

  // A run in which a state that readers saw is lost.

  function Reserve(): Call {
    Call(Op.AllocatePort("", ""), 0, "id")
  }

  function Reserved(): State {
    EMPTY_STATE.(allocs := [PortAllocation("id", 9000, "", "", false, 0)])
  }

  lemma ReserveIsAccepted()
    ensures Attempt(Witness.Permissive(), EMPTY_STATE, Reserve()) == Candidate(Reserved()) && Restartable(Reserved())
  {
    AcceptsIff(Witness.Permissive(), Reserved());
  }

  /** Reserving a port is refused because the directory sync fails, and the file shows it; the daemon is stopped,
      starts again and serves it; the machine crashes, and it is gone. Every step succeeds as the code has it. */
  lemma ServedStateIsLost(d: Disk)
    requires DiskOk(d) && d.pending == [] && ReadNow(d) == Holds(EMPTY_STATE)
    ensures var p, after := Witness.Permissive(), SaveEffect(d, Reserved(), SyncDirFails);
            && Step(p, Ran(Reserve(), SyncDirFails), Node(EMPTY_STATE, d), Node(EMPTY_STATE, after))
            && Step(p, Restarted, Node(EMPTY_STATE, after), Node(Reserved(), after))
            && (exists left :: Step(p, Crashed(left), Node(Reserved(), after), Node(EMPTY_STATE, left)))
  {
    var after := SaveEffect(d, Reserved(), SyncDirFails);
    ReserveIsAccepted();
    LoadedIsSaved(Reserved());
    SaveEnds(d, Reserved(), SyncDirFails);
    var left := after.(pending := []);
    SaveTraceReadable(d, Reserved(), SyncDirFails, |SaveTrace(d, Reserved(), SyncDirFails)| - 1);
    assert CrashTo(after, left) && ReadNow(left) == Holds(EMPTY_STATE);
    assert Step(Witness.Permissive(), Crashed(left), Node(Reserved(), after), Node(EMPTY_STATE, left));
  }
}
