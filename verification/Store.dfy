/** The store (internal/store/store.go) and the startup sequence (setupServer in cmd/rgdevenv/serve.go). */
module Store {
  import opened Model
  import opened Heap
  import Disk
  import Registry
  import Structure

  datatype LoadResult = Loaded(st: State) | LoadFailed

  /** loadState's decision; a missing file is a first start. */
  function LoadState(d: Disk.Disk): LoadResult {
    LoadFrom(Disk.ReadNow(d))
  }

  function LoadFrom(r: Disk.Read): LoadResult {
    match r
    case Missing => Loaded(EMPTY_STATE)
    case Torn => LoadFailed
    case Holds(st) =>
      if st.version > CURRENT_VERSION then LoadFailed
      else if st.version == 0 then Loaded(st.(version := CURRENT_VERSION))
      else Loaded(st)
  }

  class Store {
    var disk: Disk.Disk
    var snap: StateObj
    /** Every snapshot published since the store was opened; the last one is current. */
    ghost var published: seq<StateObj>
    /** Every disk the store went through since it was opened. */
    ghost var trail: seq<Disk.Disk>

    /** Everything reachable from the published snapshots. */
    ghost var held: set<object>

    ghost predicate Valid()
      reads this, held
    {
      && published != [] && snap == published[|published| - 1] && this !in held
      && forall s | s in published :: s in held && s.Repr <= held && s.Valid()
    }

    /** Open publishes what it loaded, durable or not. */
    constructor (disk: Disk.Disk, snap: StateObj)
      requires snap.Valid()
      ensures Valid() && this.disk == disk && this.snap == snap && published == [snap] && trail == []
        && held == snap.Repr
    {
      this.disk := disk;
      this.snap := snap;
      published := [snap];
      trail := [];
      held := snap.Repr;
    }

    /** fault is the step that fails, if any. */
    method Save(st: StateObj, fault: Disk.SaveFault) returns (ok: bool)
      requires Valid() && st.Valid() && this !in st.Repr
      modifies this`disk, this`trail
      ensures Valid() && Kept()
      ensures ok <==> fault == Disk.NoFault
      ensures disk == Disk.SaveEffect(old(disk), st.View(), fault)
      ensures trail == old(trail) + Disk.SaveTrace(old(disk), st.View(), fault)
    {
      ghost var trace;
      ok, trace := WriteOut(st.View(), fault);
      trail := trail + trace;
    }

    /** Temp file, encode, sync, close, rename, sync the directory; the temp name is removed on every exit. */
    method WriteOut(st: State, fault: Disk.SaveFault) returns (ok: bool, ghost trace: seq<Disk.Disk>)
      modifies this`disk
      ensures ok <==> fault == Disk.NoFault
      ensures trace == Disk.SaveTrace(old(disk), st, fault) && disk == trace[|trace| - 1]
    {
      ghost var d0 := disk;
      trace := [d0];
      if fault == Disk.CreateFails {
        return false, trace;
      }
      var tmp := |disk.files|;
      disk := Disk.CreateTemp(disk);
      ghost var d1 := disk;
      if fault == Disk.EncodeFails {
        disk := Disk.RemoveTemp(disk, tmp);
        return false, [d0, d1, disk];
      }
      disk := Disk.Write(disk, tmp, st);
      ghost var d2 := disk;
      if fault == Disk.SyncFails {
        disk := Disk.RemoveTemp(disk, tmp);
        return false, [d0, d1, d2, disk];
      }
      disk := Disk.Sync(disk, tmp);
      ghost var d3 := disk;
      if fault == Disk.CloseFails || fault == Disk.RenameFails {
        disk := Disk.RemoveTemp(disk, tmp);
        return false, [d0, d1, d2, d3, disk];
      }
      disk := Disk.Rename(disk, tmp);
      ghost var d4 := disk;
      if fault == Disk.SyncDirFails {
        disk := Disk.RemoveTemp(disk, tmp);
        return false, [d0, d1, d2, d3, d4, disk];
      }
      disk := Disk.SyncDir(disk);
      ghost var d5 := disk;
      disk := Disk.RemoveTemp(disk, tmp);
      return true, [d0, d1, d2, d3, d4, d5, disk];
    }

    /** Swaps the pointer; whether st is on disk is the caller's affair. */
    method Publish(st: StateObj)
      requires Valid() && st.Valid() && this !in st.Repr
      modifies this`snap, this`published, this`held
      ensures Valid() && snap == st && published == old(published) + [st] && held == old(held) + st.Repr
      ensures Kept()
    {
      snap := st;
      held := held + st.Repr;
      published := published + [st];
    }

    /** Save, then publish: what becomes current here no crash can take back. */
    method Install(cand: StateObj, fault: Disk.SaveFault) returns (ok: bool)
      requires Valid() && cand.Valid() && this !in cand.Repr && cand !in published
      modifies this
      ensures Valid() && Kept()
      ensures ok <==> fault == Disk.NoFault
      ensures disk == Disk.SaveEffect(old(disk), old(cand.View()), fault)
      ensures trail == old(trail) + Disk.SaveTrace(old(disk), old(cand.View()), fault)
      ensures cand.View() == old(cand.View()) && (ok ==> Disk.OnlyHolds(disk, cand.View()))
      ensures if ok then snap == cand && published == old(published) + [cand] && held == old(held) + cand.Repr
              else snap == old(snap) && published == old(published) && held == old(held)
    {
      ok := Save(cand, fault);
      if ok {
        Disk.SavedIsDurable(old(disk), cand.View());
        Publish(cand);
      }
    }

    /** No snapshot ever published was withdrawn or has changed. */
    twostate predicate Kept()
      requires old(Valid()) && Valid()
      reads this, held
    {
      && old(published) <= published
      && forall s | s in old(published) :: s.View() == old(s.View())
    }
  }

  /** A start gets past loading and structural validation. */
  ghost predicate Loadable(d: Disk.Disk) {
    LoadState(d).Loaded? && WellFormed(LoadState(d).st)
  }

  /** ... and finds no orphaned reservation. */
  ghost predicate Clean(d: Disk.Disk) {
    Loadable(d) && Registry.NoOrphans(LoadState(d).st)
  }

  /** Starting on disk d publishes st and leaves disk e; it succeeds only on a well-formed file. */
  ghost predicate Starts(d: Disk.Disk, st: State, e: Disk.Disk) {
    && Loadable(d)
    && st == Registry.Reconciled(LoadState(d).st)
    && e == if Clean(d) then d else Disk.SaveEffect(d, st, Disk.NoFault)
  }

  // The same, said of what the file reads as only.

  /** A file the daemon can start from: none, or a complete one of a version it knows that is well formed. */
  ghost predicate Usable(r: Disk.Read) {
    r.Missing? || (r.Holds? && r.st.version <= 1 && WellFormed(r.st))
  }

  /** A reservation made for a mapping that is not there. */
  ghost predicate Unneeded(lbs: seq<LoadBalancer>, a: PortAllocation) {
    a.auto && forall b, m | b in lbs && m in b.mappings :: m.allocationID == "" || m.allocationID != a.id
  }

  ghost predicate Tidy(r: Disk.Read) {
    r.Holds? ==> forall a | a in r.st.allocs :: !Unneeded(r.st.lbs, a)
  }

  /** st is what a start makes of the file: the same load balancers, version 0 read as 1, and the reservations that are
      needed, in their order. */
  ghost predicate Brings(r: Disk.Read, st: State) {
    if r.Holds? then
      && st.version == (if r.st.version == 0 then 1 else r.st.version) && st.lbs == r.st.lbs
      && (forall a :: a in st.allocs <==> a in r.st.allocs && !Unneeded(r.st.lbs, a))
      && Registry.InOrder(st.allocs, r.st.allocs)
    else
      st == State(1, [], [])
  }

  lemma OrphanIsUnneeded(lbs: seq<LoadBalancer>, a: PortAllocation)
    requires a.id != ""
    ensures Registry.Orphan(a, Registry.Referenced(lbs)) <==> Unneeded(lbs, a)
  {
    if a.auto && a.id !in Registry.Referenced(lbs) {
      forall b, m | b in lbs && m in b.mappings ensures m.allocationID == "" || m.allocationID != a.id {
        assert m.allocationID != "" ==> m.allocationID in Registry.Referenced(lbs);
      }
    }
  }

  lemma LoadableIff(d: Disk.Disk)
    ensures Loadable(d) <==> Usable(Disk.ReadNow(d))
    ensures LoadState(d).LoadFailed? <==>
      Disk.ReadNow(d).Torn? || (Disk.ReadNow(d).Holds? && Disk.ReadNow(d).st.version > 1)
    ensures Loadable(d) ==> (Clean(d) <==> Tidy(Disk.ReadNow(d)))
  {
    if Loadable(d) {
      var st := LoadState(d).st;
      forall a | a in st.allocs ensures Registry.Orphan(a, Registry.Referenced(st.lbs)) <==> Unneeded(st.lbs, a) {
        OrphanIsUnneeded(st.lbs, a);
      }
    }
  }

  lemma StartBrings(d: Disk.Disk, st: State, e: Disk.Disk)
    requires Starts(d, st, e)
    ensures Brings(Disk.ReadNow(d), st)
  {
    var l := LoadState(d).st;
    BringsKept(l);
  }

  lemma BringsKept(l: State)
    requires WellFormed(l)
    ensures var kept := Registry.Reconciled(l).allocs;
            && (forall a :: a in kept <==> a in l.allocs && !Unneeded(l.lbs, a))
            && Registry.InOrder(kept, l.allocs)
  {
    forall a ensures a in Registry.Reconciled(l).allocs <==> a in l.allocs && !Unneeded(l.lbs, a) {
      Registry.KeptExactly(l.allocs, Registry.Referenced(l.lbs), a);
      if a in l.allocs {
        OrphanIsUnneeded(l.lbs, a);
      }
    }
    Registry.KeptInOrder(l.allocs, Registry.Referenced(l.lbs));
  }

  /** left: the disk a failed start leaves behind. */
  datatype SetupResult = Ready(store: Store) | LoadError | InvalidState | SaveError(left: Disk.Disk)

  /** Open, validate, free orphaned reservations (in place, saved and republished), or refuse to start. */
  method Setup(disk: Disk.Disk, fault: Disk.SaveFault) returns (r: SetupResult, ghost changed: bool)
    ensures r.LoadError? <==>
      Disk.ReadNow(disk).Torn? || (Disk.ReadNow(disk).Holds? && Disk.ReadNow(disk).st.version > 1)
    ensures r.InvalidState? <==> !r.LoadError? && !Usable(Disk.ReadNow(disk))
    ensures r.Ready? || r.SaveError? ==> changed == !Tidy(Disk.ReadNow(disk))
    ensures r.SaveError? ==> changed && fault != Disk.NoFault
    ensures r.SaveError? ==> r.left == Disk.SaveEffect(disk, Registry.Reconciled(LoadState(disk).st), fault)
    ensures r.Ready? <==> Usable(Disk.ReadNow(disk)) && (Tidy(Disk.ReadNow(disk)) || fault == Disk.NoFault)
    ensures r.Ready? ==> fresh(r.store) && r.store.Valid() && Starts(disk, r.store.snap.View(), r.store.disk)
    ensures r.Ready? ==> Brings(Disk.ReadNow(disk), r.store.snap.View())
  {
    changed := false;
    LoadableIff(disk);
    var l := LoadState(disk);
    if l == LoadFailed {
      return LoadError, changed;
    }
    var snap := Decode(l.st);
    var store := new Store(disk, snap);
    var f := Structure.Validate(snap.View());
    if f.Some? {
      return InvalidState, changed;
    }
    var ok;
    ok, changed := FreeOrphans(store, fault);
    if ok {
      StartBrings(disk, store.snap.View(), store.disk);
    }
    r := if ok then Ready(store) else SaveError(store.disk);
  }

  /** Frees orphaned reservations in the snapshot itself: nobody reads it yet. */
  method FreeOrphans(store: Store, fault: Disk.SaveFault) returns (ok: bool, changed: bool)
    requires store.Valid() && store.published == [store.snap]
    modifies store, store.snap
    ensures changed == !old(Registry.NoOrphans(store.snap.View()))
    ensures ok <==> !changed || fault == Disk.NoFault
    ensures store.Valid() && store.snap == old(store.snap)
      && store.snap.View() == old(Registry.Reconciled(store.snap.View()))
    ensures fresh(store.snap.Repr - old(store.snap.Repr))
    ensures store.disk
            == if changed then Disk.SaveEffect(old(store.disk), store.snap.View(), fault) else old(store.disk)
  {
    ghost var before := store.snap.View();
    var kept;
    kept, changed := Registry.Reconcile(store.snap.View());
    ok := true;
    if changed {
      Rewrite(store, kept);
      ok := SaveAndRepublish(store, fault);
    } else {
      assert Registry.Reconciled(before) == before;
    }
  }

  method SaveAndRepublish(store: Store, fault: Disk.SaveFault) returns (ok: bool)
    requires store.Valid()
    modifies store
    ensures ok <==> fault == Disk.NoFault
    ensures store.Valid() && store.snap == old(store.snap) && store.snap.View() == old(store.snap.View())
    ensures store.disk == Disk.SaveEffect(old(store.disk), store.snap.View(), fault)
  {
    ok := store.Save(store.snap, fault);
    if ok {
      store.Publish(store.snap);
    }
  }

  /** snap.PortAllocations = kept, on the snapshot the store already points to. */
  method Rewrite(store: Store, kept: seq<PortAllocation>)
    requires store.Valid() && store.published == [store.snap]
    modifies store`held, store.snap
    ensures store.Valid() && fresh(store.snap.Repr - old(store.snap.Repr))
    ensures store.snap.View() == old(store.snap.View()).(allocs := kept)
  {
    store.snap.SetAllocs(kept);
    store.held := store.held + store.snap.Repr;
  }
}
