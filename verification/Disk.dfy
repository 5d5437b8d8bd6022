/** The file system under store.Save (internal/store/store.go): what is visible now and what a crash may leave. */
module Disk {
  import opened Model

  /** What reading the state file gives; the codec is taken as faithful, so a complete file holds its state. */
  datatype Read = Missing | Torn | Holds(st: State)

  /** content None: not completely written. Until synced, a crash may leave anything in the file. */
  datatype File = File(content: Option<State>, synced: bool)

  /** durable: the file the state path names on stable storage; pending: renames onto the path since the
      directory was last synced, oldest first; temps: files that still have their temporary name. */
  datatype Disk = Disk(files: seq<File>, durable: Option<nat>, pending: seq<nat>, temps: set<nat>)

  const EMPTY_DISK := Disk([], None, [], {})

  function Contents(d: Disk, inode: Option<nat>): Read {
    if inode == None then Missing
    else if inode.value < |d.files| && d.files[inode.value].content.Some? then Holds(d.files[inode.value].content.value)
    else Torn
  }

  /** Reading the path without a crash: the latest rename is visible. */
  function ReadNow(d: Disk): Read {
    Contents(d, if d.pending == [] then d.durable else Some(d.pending[|d.pending| - 1]))
  }

  ghost predicate Solid(d: Disk, inode: nat) {
    inode < |d.files| && d.files[inode].synced && d.files[inode].content.Some?
  }

  /** Every file the path may name is complete and synced. */
  ghost predicate DiskOk(d: Disk) {
    && (d.durable.Some? ==> Solid(d, d.durable.value))
    && (forall n | n in d.pending :: Solid(d, n))
  }

  /** A crash keeps synced files, may ruin the others, and keeps any subset of the pending renames. */
  ghost predicate CrashTo(d: Disk, e: Disk) {
    && |e.files| == |d.files|
    && (forall i | 0 <= i < |d.files| && d.files[i].synced :: e.files[i] == d.files[i])
    && (e.durable == d.durable || (e.durable.Some? && e.durable.value in d.pending))
    && e.pending == []
  }

  /** What the path may read as after a crash. */
  ghost function Readable(d: Disk): set<Read> {
    {Contents(d, d.durable)} + set n | n in d.pending :: Contents(d, Some(n))
  }

  /** Readable is exact: a crash can leave each of these readings, and no other. */
  lemma CrashReadsExactly(d: Disk, r: Read)
    requires DiskOk(d)
    ensures r in Readable(d) <==> exists e :: CrashTo(d, e) && ReadNow(e) == r
  {
    if r == Contents(d, d.durable) {
      var e := d.(pending := []);
      assert CrashTo(d, e) && ReadNow(e) == r;
    } else if r in Readable(d) {
      var n :| n in d.pending && r == Contents(d, Some(n));
      var e := d.(pending := [], durable := Some(n));
      assert CrashTo(d, e) && ReadNow(e) == r;
    }
  }

  /** A crash leaves a disk that is again in order. */
  lemma CrashKeepsOk(d: Disk, e: Disk)
    requires DiskOk(d) && CrashTo(d, e)
    ensures DiskOk(e) && ReadNow(e) in Readable(d) && Readable(e) == {ReadNow(e)}
  {
  }

  datatype SaveFault = NoFault | CreateFails | EncodeFails | SyncFails | CloseFails | RenameFails | SyncDirFails

  function CreateTemp(d: Disk): Disk {
    d.(files := d.files + [File(None, false)], temps := d.temps + {|d.files|})
  }

  function Write(d: Disk, n: nat, st: State): Disk
    requires n < |d.files|
  {
    d.(files := d.files[n := File(Some(st), false)])
  }

  function Sync(d: Disk, n: nat): Disk
    requires n < |d.files|
  {
    d.(files := d.files[n := d.files[n].(synced := true)])
  }

  function Rename(d: Disk, n: nat): Disk {
    d.(pending := d.pending + [n], temps := d.temps - {n})
  }

  function SyncDir(d: Disk): Disk {
    if d.pending == [] then d else d.(durable := Some(d.pending[|d.pending| - 1]), pending := [])
  }

  function RemoveTemp(d: Disk, n: nat): Disk {
    d.(temps := d.temps - {n})
  }

  /** Every disk a Save passes through, in order; the last one is where it returns. */
  function SaveTrace(d: Disk, st: State, fault: SaveFault): (t: seq<Disk>)
    ensures |t| > 0
  {
    var n := |d.files|;
    var created := CreateTemp(d);
    var written := Write(created, n, st);
    var synced := Sync(written, n);
    var renamed := Rename(synced, n);
    match fault
    case CreateFails => [d]
    case EncodeFails => [d, created, RemoveTemp(created, n)]
    case SyncFails => [d, created, written, RemoveTemp(written, n)]
    case CloseFails => [d, created, written, synced, RemoveTemp(synced, n)]
    case RenameFails => [d, created, written, synced, RemoveTemp(synced, n)]
    case SyncDirFails => [d, created, written, synced, renamed, RemoveTemp(renamed, n)]
    case NoFault => [d, created, written, synced, renamed, SyncDir(renamed), RemoveTemp(SyncDir(renamed), n)]
  }

  function SaveEffect(d: Disk, st: State, fault: SaveFault): Disk {
    var t := SaveTrace(d, st, fault);
    t[|t| - 1]
  }

  /** The rename was issued: from here on a crash may expose the new state. */
  predicate Renamed(fault: SaveFault) {
    fault == SyncDirFails || fault == NoFault
  }

  /** e names the same files as d, and they hold what they held. */
  ghost predicate SamePath(d: Disk, e: Disk) {
    && e.durable == d.durable && e.pending == d.pending
    && |d.files| <= |e.files| && forall k | 0 <= k < |d.files| :: e.files[k] == d.files[k]
  }

  lemma SamePathReads(d: Disk, e: Disk)
    requires DiskOk(d) && SamePath(d, e)
    ensures DiskOk(e) && Readable(e) == Readable(d) && ReadNow(e) == ReadNow(d)
  {
    assert forall n | n in d.pending :: Contents(e, Some(n)) == Contents(d, Some(n));
  }

  /** The readings possible at each point of a Save. */
  function ReadableAt(before: set<Read>, st: State, fault: SaveFault, i: nat): set<Read> {
    if i < 4 || !Renamed(fault) then before
    else if fault == SyncDirFails || i == 4 then before + {Holds(st)}
    else {Holds(st)}
  }

  lemma TraceBeforeRename(d: Disk, st: State, fault: SaveFault, i: nat)
    requires i < |SaveTrace(d, st, fault)| && (i < 4 || !Renamed(fault))
    ensures SamePath(d, SaveTrace(d, st, fault)[i])
  {
  }

  lemma TraceAfterRename(d: Disk, st: State, fault: SaveFault, i: nat)
    requires DiskOk(d) && 4 <= i < |SaveTrace(d, st, fault)| && Renamed(fault)
    ensures DiskOk(SaveTrace(d, st, fault)[i]) && ReadNow(SaveTrace(d, st, fault)[i]) == Holds(st)
    ensures Readable(SaveTrace(d, st, fault)[i]) == ReadableAt(Readable(d), st, fault, i)
  {
    var n := |d.files|;
    var synced := Sync(Write(CreateTemp(d), n, st), n);
    var renamed := Rename(synced, n);
    SyncedReads(d, st);
    RenamedReads(synced, n, st);
    var e := SaveTrace(d, st, fault)[i];
    if i == 4 || fault == SyncDirFails {
      assert SamePath(renamed, e);
      SamePathReads(renamed, e);
    } else {
      assert SamePath(SyncDir(renamed), e);
      SamePathReads(SyncDir(renamed), e);
    }
  }

  lemma SyncedReads(d: Disk, st: State)
    requires DiskOk(d)
    ensures var synced := Sync(Write(CreateTemp(d), |d.files|, st), |d.files|);
            && DiskOk(synced) && Readable(synced) == Readable(d) && |d.files| < |synced.files|
            && synced.files[|d.files|] == File(Some(st), true)
  {
    var synced := Sync(Write(CreateTemp(d), |d.files|, st), |d.files|);
    assert SamePath(d, synced);
    SamePathReads(d, synced);
  }

  lemma RenamedReads(d: Disk, n: nat, st: State)
    requires DiskOk(d) && n < |d.files| && d.files[n] == File(Some(st), true)
    ensures DiskOk(Rename(d, n)) && ReadNow(Rename(d, n)) == Holds(st)
      && Readable(Rename(d, n)) == Readable(d) + {Holds(st)}
    ensures DiskOk(SyncDir(Rename(d, n))) && ReadNow(SyncDir(Rename(d, n))) == Holds(st)
      && Readable(SyncDir(Rename(d, n))) == {Holds(st)}
  {
    var renamed := Rename(d, n);
    assert Contents(renamed, Some(n)) == Holds(st);
    assert forall k: nat :: Contents(renamed, Some(k)) == Contents(d, Some(k));
    assert SyncDir(renamed).durable == Some(n) && SyncDir(renamed).pending == [];
  }

  /** At every point of a Save, faulty or not, a crash leaves a complete state: one that was readable
      before, or the new one and then only if the rename was issued. Once Save succeeds only the new
      state can be read. */
  lemma SaveIsCrashSafe(d: Disk, st: State, fault: SaveFault, i: nat, e: Disk)
    requires DiskOk(d)
    requires i < |SaveTrace(d, st, fault)| && CrashTo(SaveTrace(d, st, fault)[i], e)
    ensures DiskOk(SaveTrace(d, st, fault)[i]) && DiskOk(e)
    ensures ReadNow(e) in Readable(d) + {Holds(st)}
    ensures i < 4 || (fault != NoFault && fault != SyncDirFails) ==> ReadNow(e) in Readable(d)
    ensures fault == NoFault && i == |SaveTrace(d, st, fault)| - 1 ==> ReadNow(e) == Holds(st)
  {
    SaveTraceReadable(d, st, fault, i);
    CrashKeepsOk(SaveTrace(d, st, fault)[i], e);
  }

  lemma SaveTraceReadable(d: Disk, st: State, fault: SaveFault, i: nat)
    requires DiskOk(d) && i < |SaveTrace(d, st, fault)|
    ensures DiskOk(SaveTrace(d, st, fault)[i])
    ensures Readable(SaveTrace(d, st, fault)[i]) == ReadableAt(Readable(d), st, fault, i)
  {
    if i < 4 || !Renamed(fault) {
      TraceBeforeRename(d, st, fault, i);
      SamePathReads(d, SaveTrace(d, st, fault)[i]);
    } else {
      TraceAfterRename(d, st, fault, i);
    }
  }

  /** Where a Save ends: the visible state changes exactly when the rename happened, which includes the one
      failure that comes after it, and no temporary name is left behind. */
  lemma SaveEnds(d: Disk, st: State, fault: SaveFault)
    requires DiskOk(d)
    ensures DiskOk(SaveEffect(d, st, fault))
    ensures ReadNow(SaveEffect(d, st, fault))
            == if fault == NoFault || fault == SyncDirFails then Holds(st) else ReadNow(d)
    ensures |d.files| !in d.temps ==> SaveEffect(d, st, fault).temps == d.temps
  {
    var i := |SaveTrace(d, st, fault)| - 1;
    if Renamed(fault) {
      TraceAfterRename(d, st, fault, i);
    } else {
      TraceBeforeRename(d, st, fault, i);
      SamePathReads(d, SaveTrace(d, st, fault)[i]);
    }
  }

  /** Whatever happens, the path reads as st: the file is complete and synced, and no rename is outstanding. */
  ghost predicate OnlyHolds(d: Disk, st: State) {
    d.pending == [] && d.durable.Some? && Solid(d, d.durable.value) && d.files[d.durable.value].content == Some(st)
  }

  /** A Save that succeeds makes its state durable, whatever the disk was like before. */
  lemma SavedIsDurable(d: Disk, st: State)
    ensures OnlyHolds(SaveEffect(d, st, NoFault), st)
  {
  }

  lemma OnlyHoldsSurvives(d: Disk, st: State, e: Disk)
    requires OnlyHolds(d, st) && CrashTo(d, e)
    ensures ReadNow(d) == Holds(st) && ReadNow(e) == Holds(st) && OnlyHolds(e, st)
  {
  }
}
