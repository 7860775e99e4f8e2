/**
 The in-memory storage double: content and name durability, torn writes, crashes,
 and armed-versus-fired fault accounting.

 The flags the store keeps are proved equal to facts about the history of
 operations: `Present`, `LastPut`, `LastCreation` and the fsyncs that followed.
 */
module Storage {
  import opened Options

  type Path = string
  type Bytes = seq<int>

  datatype FileState = FileState(content: Bytes, contentDurable: bool, nameDurable: bool, torn: bool)
  datatype FaultCount = FaultCount(armed: nat, fired: nat)
  datatype StorageError = NotFound | TornWrite | FsyncFailed

  datatype SyncResult = Synced | Missing | Failed

  /** One past operation, with the result the caller saw. */
  datatype Entry =
    | PutOp(path: Path, data: Bytes, torn: bool)
    | DeleteOp(path: Path)
    | FsyncFileOp(path: Path, result: SyncResult)
    | FsyncDirOp(dir: Path)
    | ArmFsyncFailure
    | ArmTornWrite
    | CrashOp

  /** Everything before the last '/', or "" when there is none. */
  function ParentDir(path: Path): Path {
    if path == "" then ""
    else if path[|path| - 1] == '/' then path[..|path| - 1]
    else ParentDir(path[..|path| - 1])
  }

  /** `ParentDir` is the split at the last separator. */
  lemma {:induction false} ParentDirSplits(dir: Path, name: Path)
    requires '/' !in name
    ensures ParentDir(dir + "/" + name) == dir && ParentDir(name) == ""
  {
    if name == "" {
      assert (dir + "/" + name)[..|dir|] == dir;
    } else {
      var full, front := dir + "/" + name, name[..|name| - 1];
      assert full[..|full| - 1] == dir + "/" + front;
      assert forall c <- front :: c in name;
      assert name[|name| - 1] in name;
      ParentDirSplits(dir, front);
    }
  }

  // ------------------------------------------------------------------ history

  function Front(log: seq<Entry>): seq<Entry>
    requires log != []
  {
    log[..|log| - 1]
  }

  /** Position of the path's last put, -1 if there is none. */
  function LastPut(log: seq<Entry>, p: Path): int
    ensures -1 <= LastPut(log, p) < |log|
    ensures LastPut(log, p) >= 0 ==> log[LastPut(log, p)].PutOp?
  {
    if log == [] then -1
    else
      var e := log[|log| - 1];
      if e.PutOp? && e.path == p then |log| - 1 else LastPut(Front(log), p)
  }

  /** Position of the last put that created the path's directory entry. */
  function LastCreation(log: seq<Entry>, p: Path): int
    ensures -1 <= LastCreation(log, p) < |log|
    decreases |log|, 1
  {
    if log == [] then -1
    else
      var e := log[|log| - 1];
      if e.PutOp? && e.path == p && !Present(Front(log), p) then |log| - 1 else LastCreation(Front(log), p)
  }

  /** Has a file fsync of the path succeeded after position `i`? */
  predicate SyncedAfter(log: seq<Entry>, p: Path, i: int) {
    exists j | 0 <= j < |log| :: i < j && log[j] == FsyncFileOp(p, Synced)
  }

  /** Has the directory been fsynced after position `i`? */
  predicate DirSyncedAfter(log: seq<Entry>, dir: Path, i: int) {
    exists j | 0 <= j < |log| :: i < j && log[j] == FsyncDirOp(dir)
  }

  /** A successful content fsync after the last put, and a directory fsync after the last creation. */
  predicate Survives(log: seq<Entry>, p: Path)
    decreases |log|, 2
  {
    SyncedAfter(log, p, LastPut(log, p)) && DirSyncedAfter(log, ParentDir(p), LastCreation(log, p))
  }

  /** Is the path visible after this history? */
  predicate Present(log: seq<Entry>, p: Path)
    ensures Present(log, p) ==> LastPut(log, p) >= 0
    decreases |log|, 0
  {
    if log == [] then false
    else
      match log[|log| - 1]
      case PutOp(q, _, _) => q == p || Present(Front(log), p)
      case DeleteOp(q) => q != p && Present(Front(log), p)
      case CrashOp => Present(Front(log), p) && Survives(Front(log), p)
      case _ => Present(Front(log), p)
  }

  // ---------------------------------------------------------------- agreement

  /** What the history says a visible file looks like. */
  ghost predicate Agrees(log: seq<Entry>, files: map<Path, FileState>, p: Path) {
    && (p in files <==> Present(log, p))
    && (p in files ==>
          var f, i := files[p], LastPut(log, p);
          && i >= 0
          && f.torn == log[i].torn
          && f.content == (if f.torn then log[i].data[..|log[i].data| / 2] else log[i].data)
          && (f.contentDurable <==> SyncedAfter(log, p, i))
          && (f.nameDurable <==> DirSyncedAfter(log, ParentDir(p), LastCreation(log, p))))
  }

  lemma Snoc(log: seq<Entry>, e: Entry)
    ensures Front(log + [e]) == log && (log + [e])[|log|] == e
  {
  }

  lemma SyncedSnoc(log: seq<Entry>, e: Entry, p: Path, i: int)
    requires i < |log|
    ensures SyncedAfter(log + [e], p, i) <==> SyncedAfter(log, p, i) || e == FsyncFileOp(p, Synced)
  {
    var all := log + [e];
    assert all[|log|] == e;
    if SyncedAfter(log, p, i) {
      var j :| 0 <= j < |log| && i < j && log[j] == FsyncFileOp(p, Synced);
      assert all[j] == FsyncFileOp(p, Synced);
    }
  }

  lemma DirSyncedSnoc(log: seq<Entry>, e: Entry, dir: Path, i: int)
    requires i < |log|
    ensures DirSyncedAfter(log + [e], dir, i) <==> DirSyncedAfter(log, dir, i) || e == FsyncDirOp(dir)
  {
    var all := log + [e];
    assert all[|log|] == e;
    if DirSyncedAfter(log, dir, i) {
      var j :| 0 <= j < |log| && i < j && log[j] == FsyncDirOp(dir);
      assert all[j] == FsyncDirOp(dir);
    }
  }

  // Each operation, taken alone, keeps the agreement for every path.

  lemma PutAgrees(log: seq<Entry>, files: map<Path, FileState>, p: Path, q: Path, data: Bytes, torn: bool)
    requires Agrees(log, files, p) && Agrees(log, files, q)
    ensures Agrees(log + [PutOp(q, data, torn)], files[q := Written(files, q, data, torn)], p)
  {
    var e := PutOp(q, data, torn);
    var all := log + [e];
    Snoc(log, e);
    SyncedSnoc(log, e, p, LastPut(log, p));
    DirSyncedSnoc(log, e, ParentDir(p), LastCreation(log, p));
    if p == q {
      assert LastPut(all, p) == |log|;
      assert !SyncedAfter(all, p, |log|);
      assert !DirSyncedAfter(all, ParentDir(p), |log|);
    } else {
      assert LastPut(all, p) == LastPut(log, p);
    }
  }

  lemma DeleteAgrees(log: seq<Entry>, files: map<Path, FileState>, p: Path, q: Path)
    requires Agrees(log, files, p)
    ensures Agrees(log + [DeleteOp(q)], files - {q}, p)
  {
    var e := DeleteOp(q);
    Snoc(log, e);
    SyncedSnoc(log, e, p, LastPut(log, p));
    DirSyncedSnoc(log, e, ParentDir(p), LastCreation(log, p));
  }

  lemma SyncAgrees(log: seq<Entry>, files: map<Path, FileState>, p: Path, q: Path)
    requires Agrees(log, files, p) && q in files
    ensures Agrees(log + [FsyncFileOp(q, Synced)], files[q := files[q].(contentDurable := true)], p)
  {
    var e := FsyncFileOp(q, Synced);
    Snoc(log, e);
    SyncedSnoc(log, e, p, LastPut(log, p));
    DirSyncedSnoc(log, e, ParentDir(p), LastCreation(log, p));
  }

  /** Operations that touch no file: arming, and an fsync that did not succeed. */
  lemma IdleAgrees(log: seq<Entry>, files: map<Path, FileState>, p: Path, e: Entry)
    requires Agrees(log, files, p)
    requires e.ArmFsyncFailure? || e.ArmTornWrite? || (e.FsyncFileOp? && e.result != Synced)
    ensures Agrees(log + [e], files, p)
  {
    Snoc(log, e);
    SyncedSnoc(log, e, p, LastPut(log, p));
    DirSyncedSnoc(log, e, ParentDir(p), LastCreation(log, p));
  }

  lemma DirAgrees(log: seq<Entry>, files: map<Path, FileState>, p: Path, dir: Path)
    requires Agrees(log, files, p)
    ensures Agrees(log + [FsyncDirOp(dir)], DirSynced(files, dir), p)
  {
    var e := FsyncDirOp(dir);
    Snoc(log, e);
    SyncedSnoc(log, e, p, LastPut(log, p));
    DirSyncedSnoc(log, e, ParentDir(p), LastCreation(log, p));
  }

  lemma CrashAgrees(log: seq<Entry>, files: map<Path, FileState>, p: Path)
    requires Agrees(log, files, p)
    ensures Agrees(log + [CrashOp], Retained(files), p)
  {
    var e := CrashOp;
    Snoc(log, e);
    SyncedSnoc(log, e, p, LastPut(log, p));
    DirSyncedSnoc(log, e, ParentDir(p), LastCreation(log, p));
  }

  function Written(files: map<Path, FileState>, q: Path, data: Bytes, torn: bool): FileState {
    FileState(if torn then data[..|data| / 2] else data, false, q in files && files[q].nameDurable, torn)
  }

  function NameSynced(f: FileState, p: Path, dir: Path): FileState {
    if ParentDir(p) == dir then f.(nameDurable := true) else f
  }

  function DirSynced(files: map<Path, FileState>, dir: Path): map<Path, FileState> {
    map p | p in files :: NameSynced(files[p], p, dir)
  }

  function Retained(files: map<Path, FileState>): map<Path, FileState> {
    map p | p in files && files[p].contentDurable && files[p].nameDurable :: files[p]
  }

  // ------------------------------------------------------------------- faults

  datatype Fault = FsyncFails | PutTears

  predicate Arms(e: Entry, fault: Fault) {
    if fault.PutTears? then e.ArmTornWrite? else e.ArmFsyncFailure?
  }

  predicate Fires(e: Entry, fault: Fault) {
    if fault.PutTears? then e.PutOp? && e.torn else e.FsyncFileOp? && e.result == Failed
  }

  /** Is the fault armed and not yet spent? A crash disarms it. */
  predicate Pending(log: seq<Entry>, fault: Fault) {
    if log == [] then false
    else
      var e := log[|log| - 1];
      Arms(e, fault) || (Pending(Front(log), fault) && !Fires(e, fault) && !e.CrashOp?)
  }

  function Tally(log: seq<Entry>, fault: Fault): FaultCount {
    if log == [] then FaultCount(0, 0)
    else
      var e, t := log[|log| - 1], Tally(Front(log), fault);
      FaultCount(t.armed + (if Arms(e, fault) then 1 else 0), t.fired + (if Fires(e, fault) then 1 else 0))
  }

  /** The only result the operation can have after this history. */
  predicate Follows(log: seq<Entry>, e: Entry) {
    match e
    case PutOp(_, _, torn) => torn == Pending(log, PutTears)
    case FsyncFileOp(p, result) =>
      result == (if Pending(log, FsyncFails) then Failed else if Present(log, p) then Synced else Missing)
    case _ => true
  }

  /** The history records what really happened. */
  predicate Genuine(log: seq<Entry>) {
    log == [] || (Genuine(Front(log)) && Follows(Front(log), log[|log| - 1]))
  }

  /** Over every history a fault fires only while armed: never more often than it was armed. */
  lemma {:induction false} FiredWithinArmed(log: seq<Entry>, fault: Fault)
    requires Genuine(log)
    ensures Tally(log, fault).fired + (if Pending(log, fault) then 1 else 0) <= Tally(log, fault).armed
  {
    if log != [] {
      FiredWithinArmed(Front(log), fault);
    }
  }

  // ------------------------------------------------------------------- replay

  /** Everything the store keeps: files, the two armed flags, and the two fault accounts. */
  datatype Disk = Disk(files: map<Path, FileState>, failNextFsync: bool, tearNextPut: bool,
                       fsyncFaults: FaultCount, tearFaults: FaultCount)

  const FRESH := Disk(map[], false, false, FaultCount(0, 0), FaultCount(0, 0))

  function Fired(c: FaultCount): FaultCount { c.(fired := c.fired + 1) }

  function Rearmed(c: FaultCount): FaultCount { c.(armed := c.armed + 1) }

  /** One operation on the store. */
  function Apply(d: Disk, e: Entry): Disk {
    match e
    case PutOp(q, data, _) =>
      d.(files := d.files[q := Written(d.files, q, data, d.tearNextPut)],
         tearNextPut := false,
         tearFaults := if d.tearNextPut then Fired(d.tearFaults) else d.tearFaults)
    case DeleteOp(q) => d.(files := d.files - {q})
    case FsyncFileOp(q, _) =>
      if d.failNextFsync then d.(failNextFsync := false, fsyncFaults := Fired(d.fsyncFaults))
      else if q in d.files then d.(files := d.files[q := d.files[q].(contentDurable := true)])
      else d
    case FsyncDirOp(dir) => d.(files := DirSynced(d.files, dir))
    case ArmFsyncFailure => d.(failNextFsync := true, fsyncFaults := Rearmed(d.fsyncFaults))
    case ArmTornWrite => d.(tearNextPut := true, tearFaults := Rearmed(d.tearFaults))
    case CrashOp => d.(files := Retained(d.files), failNextFsync := false, tearNextPut := false)
  }

  function Replay(log: seq<Entry>): Disk {
    if log == [] then FRESH else Apply(Replay(Front(log)), log[|log| - 1])
  }

  /** The armed flags and the fault accounts say what the history says. */
  lemma {:induction false} ReplayFaults(log: seq<Entry>)
    requires Genuine(log)
    ensures Replay(log).failNextFsync == Pending(log, FsyncFails)
    ensures Replay(log).tearNextPut == Pending(log, PutTears)
    ensures Replay(log).fsyncFaults == Tally(log, FsyncFails)
    ensures Replay(log).tearFaults == Tally(log, PutTears)
  {
    if log != [] {
      ReplayFaults(Front(log));
    }
  }

  lemma ApplyAgrees(log: seq<Entry>, e: Entry, d: Disk, p: Path)
    requires Agrees(log, d.files, p) && (e.PutOp? || e.FsyncFileOp? ==> Agrees(log, d.files, e.path))
    requires Follows(log, e)
    requires d.failNextFsync == Pending(log, FsyncFails) && d.tearNextPut == Pending(log, PutTears)
    ensures Agrees(log + [e], Apply(d, e).files, p)
  {
    match e
    case PutOp(q, data, torn) => PutAgrees(log, d.files, p, q, data, torn);
    case DeleteOp(q) => DeleteAgrees(log, d.files, p, q);
    case FsyncFileOp(q, result) =>
      if result == Synced {
        SyncAgrees(log, d.files, p, q);
      } else {
        IdleAgrees(log, d.files, p, e);
      }
    case FsyncDirOp(dir) => DirAgrees(log, d.files, p, dir);
    case CrashOp => CrashAgrees(log, d.files, p);
    case _ => IdleAgrees(log, d.files, p, e);
  }

  /** After any history the durability flags of every path are the facts they stand for. */
  lemma {:induction false} ReplayAgrees(log: seq<Entry>, p: Path)
    requires Genuine(log)
    ensures Agrees(log, Replay(log).files, p)
  {
    if log != [] {
      var front, e := Front(log), log[|log| - 1];
      ReplayAgrees(front, p);
      if e.PutOp? || e.FsyncFileOp? {
        ReplayAgrees(front, e.path);
      }
      ReplayFaults(front);
      ApplyAgrees(front, e, Replay(front), p);
      assert front + [e] == log;
    }
  }

  /**
   Any history, then a crash: exactly the visible files survive whose last put was followed
   by a successful file fsync and whose last creation was followed by a directory fsync.
   */
  lemma CrashKeepsExactlySynced(log: seq<Entry>, p: Path)
    requires Genuine(log)
    ensures p in Replay(log + [CrashOp]).files <==> Present(log, p) && Survives(log, p)
    ensures p in Replay(log + [CrashOp]).files ==> Replay(log + [CrashOp]).files[p] == Replay(log).files[p]
  {
    Snoc(log, CrashOp);
    ReplayAgrees(log, p);
  }

  // -------------------------------------------------------------------- store

  /** The directory fsync's loop over every entry. */
  method SyncNames(before: map<Path, FileState>, dir: Path) returns (files: map<Path, FileState>)
    ensures files == DirSynced(before, dir)
  {
    files := before;
    var todo := files.Keys;
    while todo != {}
      invariant todo <= files.Keys == before.Keys
      invariant forall p <- before :: files[p] == if p in todo then before[p] else NameSynced(before[p], p, dir)
      decreases |todo|
    {
      var path :| path in todo;
      if ParentDir(path) == dir {
        files := files[path := files[path].(nameDurable := true)];
      }
      todo := todo - {path};
    }
  }

  class InMemStorage {
    var files: map<Path, FileState>
    var failNextFsync: bool
    var tearNextPut: bool
    var fsyncFaults: FaultCount
    var tearFaults: FaultCount
    ghost var log: seq<Entry>

    ghost function View(): Disk reads this {
      Disk(files, failNextFsync, tearNextPut, fsyncFaults, tearFaults)
    }

    /** The state is what the whole history of calls makes it. */
    ghost predicate Valid() reads this {
      Genuine(log) && View() == Replay(log)
    }

    constructor ()
      ensures Valid() && log == []
    {
      files := map[];
      failNextFsync := false;
      tearNextPut := false;
      fsyncFaults := FaultCount(0, 0);
      tearFaults := FaultCount(0, 0);
      log := [];
    }

    method ArmNextFsync()
      requires Valid()
      modifies this
      ensures Valid() && log == old(log) + [ArmFsyncFailure]
    {
      fsyncFaults := fsyncFaults.(armed := fsyncFaults.armed + 1);
      failNextFsync := true;
      Snoc(log, ArmFsyncFailure);
      log := log + [ArmFsyncFailure];
    }

    method ArmNextPut()
      requires Valid()
      modifies this
      ensures Valid() && log == old(log) + [ArmTornWrite]
    {
      tearFaults := tearFaults.(armed := tearFaults.armed + 1);
      tearNextPut := true;
      Snoc(log, ArmTornWrite);
      log := log + [ArmTornWrite];
    }

    /** Survivors are exactly the visible files the history says were synced on both axes. */
    method Crash()
      requires Valid()
      modifies this
      ensures Valid() && log == old(log) + [CrashOp]
      ensures forall p :: p in files <==> Present(old(log), p) && Survives(old(log), p)
      ensures forall p <- files :: p in old(files) && files[p] == old(files)[p]
    {
      forall p: Path
        ensures p in Replay(log + [CrashOp]).files <==> Present(log, p) && Survives(log, p)
      {
        CrashKeepsExactlySynced(log, p);
      }
      Snoc(log, CrashOp);
      files := Retained(files);
      failNextFsync := false;
      tearNextPut := false;
      log := log + [CrashOp];
    }

    method Put(path: Path, data: Bytes)
      requires Valid()
      modifies this
      ensures Valid() && log == old(log) + [PutOp(path, data, old(tearNextPut))]
    {
      ReplayFaults(log);
      Snoc(log, PutOp(path, data, tearNextPut));
      log := log + [PutOp(path, data, tearNextPut)];
      var torn := tearNextPut;
      if torn {
        tearNextPut := false;
        tearFaults := tearFaults.(fired := tearFaults.fired + 1);
      }
      var stored := if torn then data[..|data| / 2] else data;
      var nameDurable := path in files && files[path].nameDurable;
      files := files[path := FileState(stored, false, nameDurable, torn)];
    }

    /** A successful read returns the last put's bytes in full; a torn file never reads back. */
    method Get(path: Path) returns (r: Result<Bytes, StorageError>)
      requires Valid()
      ensures r.Ok? ==> LastPut(log, path) >= 0 && r.value == log[LastPut(log, path)].data
      ensures r == Err(NotFound) <==> !Present(log, path)
      ensures r == Err(TornWrite) <==> Present(log, path) && log[LastPut(log, path)].torn
      ensures r != Err(FsyncFailed)
    {
      ReplayAgrees(log, path);
      if path !in files {
        return Err(NotFound);
      }
      r := if files[path].torn then Err(TornWrite) else Ok(files[path].content);
    }

    method Delete(path: Path) returns (r: Result<(), StorageError>)
      requires Valid()
      modifies this
      ensures Valid() && log == old(log) + [DeleteOp(path)]
      ensures r == if Present(old(log), path) then Ok(()) else Err(NotFound)
    {
      ReplayAgrees(log, path);
      r := if path in files then Ok(()) else Err(NotFound);
      files := files - {path};
      Snoc(log, DeleteOp(path));
      log := log + [DeleteOp(path)];
    }

    /** Fails once per arming, even on a missing path; otherwise makes present content durable. */
    method FsyncFile(path: Path) returns (r: Result<(), StorageError>)
      requires Valid()
      modifies this
      ensures Valid()
      ensures r.Ok? ==> log == old(log) + [FsyncFileOp(path, Synced)]
      ensures r == Err(NotFound) ==> log == old(log) + [FsyncFileOp(path, Missing)]
      ensures r == Err(FsyncFailed) ==> log == old(log) + [FsyncFileOp(path, Failed)]
      ensures r != Err(TornWrite)
    {
      ReplayAgrees(log, path);
      ReplayFaults(log);
      ghost var e := FsyncFileOp(path, if failNextFsync then Failed else if path in files then Synced else Missing);
      Snoc(log, e);
      log := log + [e];
      if failNextFsync {
        failNextFsync := false;
        fsyncFaults := fsyncFaults.(fired := fsyncFaults.fired + 1);
        r := Err(FsyncFailed);
      } else if path in files {
        files := files[path := files[path].(contentDurable := true)];
        r := Ok(());
      } else {
        r := Err(NotFound);
      }
    }

    method FsyncDir(dir: Path)
      requires Valid()
      modifies this
      ensures Valid() && log == old(log) + [FsyncDirOp(dir)]
    {
      files := SyncNames(files, dir);
      Snoc(log, FsyncDirOp(dir));
      log := log + [FsyncDirOp(dir)];
    }
  }
}
