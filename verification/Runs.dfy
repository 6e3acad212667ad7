/** Runs: any sequence of calls, in any order. */
module Runs {
  import opened Bytes
  import opened Bitmaps
  import opened Codec
  import opened FileTrees
  import opened Volumes
  import opened Consistency
  import opened Writing
  import opened Mounted
  import opened Behind
  import opened Metadata
  import opened Accounting
  import opened Truncating
  import opened Paths
  import opened Names
  import opened NameChanges
  import opened DirSteps
  import opened DirOps
  import opened FileCalls
  import opened Unlinking
  import opened Rmdir
  import opened Moving
  import opened ModeCalls
  import opened Budget

  /** The calls that change the file system, with the times and ids that they take from their surroundings. */
  datatype Op =
    | Create(path: seq<byte>, m: Meta)
    | Mkdir(path: seq<byte>, m: Meta)
    | Write(path: seq<byte>, buf: seq<byte>, offset: nat, now: u32)
    | Truncate(path: seq<byte>, len: int, now: u32)
    | Unlink(path: seq<byte>, now: u32, later: u32)
    | Rmdir(path: seq<byte>, now: u32)
    | Rename(path: seq<byte>, dst: seq<byte>, now: u32)
    | Chmod(path: seq<byte>, mode: u32)
    | Utime(path: seq<byte>, modtime: u32)

  // ---- the effect of one call ---------------------------------------------------------------------------

  ghost predicate MadeNode(s: State, s': State, path: seq<byte>, isDir: bool) {
    exists d: nat, i: nat, p: nat :: CreatedNode(s, s', path, isDir, d, i, p)
  }

  ghost predicate TruncateEffect(s: State, s': State, path: seq<byte>, len: int, r: int) {
    var i := PathInode(s, path);
    && r == TruncateResult(s, path, len)
    && if r != 0 then s' == s else OnlyTruncated(s, s', i)
  }

  ghost predicate UnlinkEffect(s: State, s': State, path: seq<byte>, r: int) {
    var i := PathInode(s, path);
    && r == FileCheck(s, path)
    && if r != 0 then s' == s
       else if |Tokens(path)| > MAX_PATH_LEN then OnlyTruncated(s, s', i)
       else i > 0 && exists d: nat :: Unlinked(s, s', path, d, i)
  }

  ghost predicate RmdirEffect(s: State, s': State, path: seq<byte>, r: int) {
    var i := PathInode(s, path);
    && r == RmdirResult(s, path)
    && if r != 0 then s' == s
       else i > 0 && s'.used == s.used - Footprint(s.owner, i) && LeakedBlocks(s'.owner) == LeakedBlocks(s.owner)
            && exists d: nat :: NodeGone(s, s', path, d, i)
  }

  ghost predicate RenameEffect(s: State, s': State, src: seq<byte>, dst: seq<byte>, r: int) {
    && r == RenameResult(s, src, dst)
    && if r != 0 || Source(s, src) <= 0 then s' == s else exists d: nat :: Moved(s, s', src, dst, d)
  }

  /** The inode that a path leads to. */
  ghost function InodeAt(s: State, path: seq<byte>): Inode {
    var i := PathInode(s, path);
    if 0 < i < |s.inodes| then s.inodes[i] else ZERO_INODE
  }

  /** The inode that the path leads to becomes nd; no path and no contents change. */
  ghost predicate InodeEffect(s: State, s': State, path: seq<byte>, nd: Inode, r: int) {
    var i := PathInode(s, path);
    && r == (if i > 0 then 0 else i)
    && if r != 0 then s' == s
       else && 0 < i < |s.inodes| && s'.inodes == s.inodes[i := nd]
            && s' == s.(disk := s'.disk, inodes := s'.inodes) && |s'.disk| == |s.disk| && SamePaths(s, s')
            && SameContents(s, s')
  }

  /** When each call returns what, by the inodes that its paths and their parents lead to. */
  ghost predicate Codes(s: State, op: Op, r: int) {
    var i := PathInode(s, op.path);
    match op
    case Create(path, _) => MakeCodes(s, path, r)
    case Mkdir(path, _) => MakeCodes(s, path, r)
    case Write(_, buf, offset, _) =>
      && (r == -EISDIR <==> DirAt(s, i)) && (r == -ENOENT <==> i == -ENOENT) && (r == -ENOTDIR <==> i == -ENOTDIR)
      && (r == -EINVAL <==> FileAt(s, i) && offset > |Contents(s, i)|)
      && (r >= 0 || r == -ENOSPC <==> FileAt(s, i) && offset <= |Contents(s, i)|)
    case Truncate(_, len, _) =>
      && (r == -EINVAL <==> len != 0) && (r == 0 <==> len == 0 && FileAt(s, i))
      && (r == -EISDIR <==> len == 0 && DirAt(s, i)) && (r == -ENOENT <==> len == 0 && i == -ENOENT)
      && (r == -ENOTDIR <==> len == 0 && i == -ENOTDIR)
    case Unlink(_, _, _) =>
      && (r == 0 <==> FileAt(s, i)) && (r == -EISDIR <==> DirAt(s, i))
      && (r == -ENOENT <==> i == -ENOENT) && (r == -ENOTDIR <==> i == -ENOTDIR)
    case Rmdir(_, _) =>
      && (r == 0 <==> DirAt(s, i) && forall x :: 0 <= x < N_DIRENTS ==> !DirOf(s.inodes[i], s.disk)[x].valid)
      && (r == -ENOTEMPTY <==> DirAt(s, i) && exists x :: 0 <= x < N_DIRENTS && DirOf(s.inodes[i], s.disk)[x].valid)
      && (r == -ENOTDIR <==> i == -ENOTDIR || FileAt(s, i)) && (r == -ENOENT <==> i == -ENOENT)
    case Rename(src, dst, _) =>
      var j, d, e := PathInode(s, dst), PathInode(s, Dirname(src)), PathInode(s, Dirname(dst));
      && (r == 0 <==> i > 0 && j <= 0 && d == e) && (r == -ENOENT <==> i <= 0) && (r == -EEXIST <==> i > 0 && j > 0)
      && (r == -EINVAL <==> i > 0 && j <= 0 && d != e)
    case _ => r == if i > 0 then 0 else i
  }

  ghost predicate MakeCodes(s: State, path: seq<byte>, r: int) {
    var d, f := PathInode(s, Dirname(path)), PathInode(s, path);
    && (r == 0 <==> DirAt(s, d) && f <= 0 && HasRoom(s, d)) && (r == -EEXIST <==> DirAt(s, d) && f > 0)
    && (r == -ENOSPC <==> DirAt(s, d) && f <= 0 && !HasRoom(s, d))
    && (r == -ENOTDIR <==> d == -ENOTDIR || FileAt(s, d)) && (r == -ENOENT <==> d == -ENOENT)
  }

  /** The call op leads from s to s' and returns r. */
  ghost predicate Effect(s: State, op: Op, r: int, s': State) {
    && Codes(s, op, r)
    && match op
      case Create(path, _) => r == CreateResult(s, path) && (if r != 0 then s' == s else MadeNode(s, s', path, false))
      case Mkdir(path, _) => r == CreateResult(s, path) && (if r != 0 then s' == s else MadeNode(s, s', path, true))
      case Write(path, buf, offset, now) => WriteEffect(s, s', path, buf, offset, now, r)
      case Truncate(path, len, _) => TruncateEffect(s, s', path, len, r)
      case Unlink(path, _, _) => UnlinkEffect(s, s', path, r)
      case Rmdir(path, _) => RmdirEffect(s, s', path, r)
      case Rename(src, dst, _) => RenameEffect(s, s', src, dst, r)
      case Chmod(path, mode) =>
        var nd := InodeAt(s, path);
        InodeEffect(s, s', path, nd.(mode := ChmodMode(nd.mode, mode)), r)
      case Utime(path, modtime) => InodeEffect(s, s', path, InodeAt(s, path).(mtime := modtime), r)
  }

  /** The calls that the code handles. Paths are C strings; a directory keeps its file type; an empty directory is not
      removed by a path that is its own parent; the bytes of a file are not taken for directory entries. */
  ghost predicate Allowed(s: State, op: Op) {
    match op
    case Create(path, _) => 0 !in path
    case Mkdir(path, m) => 0 !in path && DirModeOk(m.mode)
    case Unlink(path, _, _) => 0 !in path && (|Tokens(path)| > MAX_PATH_LEN ==> NullDirEmpty(s))
    case Rmdir(path, _) => 0 !in path && (OwnParent(path) ==> RmdirResult(s, path) != 0)
    case Rename(src, dst, _) => 0 !in src && 0 !in dst && (RenameResult(s, src, dst) == 0 ==> SourceInDir(s, src))
    case Chmod(path, mode) => ChmodFits(s, path, mode)
    case _ => true
  }

  /** Block 0, read as a directory, has no valid entry. */
  ghost predicate NullDirEmpty(s: State) {
    |s.disk| > 0 && NoEntries(Entries(s.disk[0]))
  }

  ghost predicate ChmodFits(s: State, path: seq<byte>, mode: u32) {
    var i := PathInode(s, path);
    0 < i < |s.inodes| && IsDir(s.inodes[i]) ==> DirModeOk(mode)
  }

  /** Does the call lose blocks? A write that runs out of space does, unless it stops where everything it has taken can
      be reached from the disk; a truncate (by itself or in an unlink) of a file of more than 518 data blocks does. */
  ghost predicate Loses(s: State, op: Op, r: int) {
    match op
    case Write(path, _, _, _) => r == -ENOSPC && LosesWrite(s, path)
    case Truncate(path, _, _) => r == 0 && LongFile(s, path)
    case Unlink(path, _, _) => r == 0 && LongFile(s, path)
    case _ => false
  }

  ghost predicate LosesWrite(s: State, path: seq<byte>) {
    var i := PathInode(s, path);
    i > 0 && i in s.sh.extent && Stranded(s, i) != 0
  }

  ghost predicate LongFile(s: State, path: seq<byte>) {
    var i := PathInode(s, path);
    i > 0 && i in s.sh.extent && s.sh.extent[i] > TWO_TABLES
  }

  /** Is the call a write that runs out of space? */
  predicate Short(op: Op, r: int) {
    op.Write? && r == -ENOSPC
  }

  /** Does the call, made in state s, call update_disk? A rename may find no entry to change. */
  ghost predicate Updates(s: State, op: Op, r: int) {
    (r == 0 && (op.Rename? ==> Source(s, op.path) > 0)) || (op.Write? && r > 0)
  }

  /** Does the call take blocks without calling update_disk? That is a write that takes the last free block and then
      fails. */
  ghost predicate Outgrows(s: State, op: Op, r: int) {
    Short(op, r) && |s.used| < |s.disk|
  }

  /** What the disk records of a state stays as it is, and the state still has it. */
  ghost predicate MetaSame(s: State, s': State) {
    s'.inodes == s.inodes && s'.live == s.live && s'.used == s.used
  }

  /** Performs a call that makes a node. */
  method PerformMake(v: Volume, op: Op) returns (r: int)
    requires Valid(v) && Allowed(StateOf(v), op) && (op.Create? || op.Mkdir?)
    modifies v`used, v`live, v`owner, v`shadow, v.inodeMap, v.blockMap, v.disk, v.inodes
    ensures Valid(v) && Effect(old(StateOf(v)), op, r, StateOf(v))
    ensures Updates(old(StateOf(v)), op, r) ==> v.Synced()
    ensures Short(op, r) ==> OutOfSpace(v.sb.First(), old(StateOf(v)), StateOf(v), op.path)
    ensures v.disk.Length > 0 && v.disk[0] == old(v.disk[0])
  {
    hide Valid, CreateResult, CreatedNode, FileCheck, SameFiles, SamePaths, SameContents, WriteEffect, TruncateResult,
      OnlyTruncated, Unlinked, RmdirResult, NodeGone, RenameResult, Moved, Holds, Footprint, LeakedBlocks, Resolve,
      Route, IsDirMode, DirModeOk, ChmodMode, EntryRoute, SourceInDir, Entries, NoEntries, OwnParent, OutOfSpace,
      Records, HasRoom, Contents, Bin;
    ghost var d, i, p;
    match op {
      case Create(path, m) => r, d, i, p := FsCreate(v, path, m);
      case Mkdir(path, m) => r, d, i, p := FsMkdir(v, path, m);
    }
  }

  /** Performs a call that removes a directory or renames a node. */
  method PerformMove(v: Volume, op: Op) returns (r: int)
    requires Valid(v) && Allowed(StateOf(v), op) && (op.Rmdir? || op.Rename?)
    modifies v`used, v`live, v`owner, v`shadow, v.inodeMap, v.blockMap, v.disk, v.inodes
    ensures Valid(v) && Effect(old(StateOf(v)), op, r, StateOf(v))
    ensures Updates(old(StateOf(v)), op, r) ==> v.Synced()
    ensures Short(op, r) ==> OutOfSpace(v.sb.First(), old(StateOf(v)), StateOf(v), op.path)
    ensures v.disk.Length > 0 && v.disk[0] == old(v.disk[0])
  {
    hide Valid, CreateResult, CreatedNode, FileCheck, SameFiles, SamePaths, SameContents, WriteEffect, TruncateResult,
      OnlyTruncated, Unlinked, RmdirResult, NodeGone, RenameResult, Moved, Holds, Footprint, LeakedBlocks, Resolve,
      Route, IsDirMode, DirModeOk, ChmodMode, EntryRoute, SourceInDir, Entries, NoEntries, OwnParent, OutOfSpace,
      Records, HasRoom, Contents, Bin;
    ghost var d;
    match op {
      case Rmdir(path, now) => r, d := FsRmdir(v, path, now);
      case Rename(src, dst, now) => r, d := FsRename(v, src, dst, now);
    }
  }

  /** Performs a call that changes the contents of a file, or its inode. */
  method PerformFile(v: Volume, op: Op) returns (r: int)
    requires Valid(v) && Allowed(StateOf(v), op) && !(op.Create? || op.Mkdir? || op.Rmdir? || op.Rename?)
    modifies v`used, v`live, v`owner, v`shadow, v.inodeMap, v.blockMap, v.disk, v.inodes
    ensures Valid(v) && Effect(old(StateOf(v)), op, r, StateOf(v))
    ensures Updates(old(StateOf(v)), op, r) ==> v.Synced()
    ensures Short(op, r) ==> OutOfSpace(v.sb.First(), old(StateOf(v)), StateOf(v), op.path)
    ensures v.disk.Length > 0 && v.disk[0] == old(v.disk[0])
  {
    hide Valid, CreateResult, CreatedNode, FileCheck, SameFiles, SamePaths, SameContents, WriteEffect, TruncateResult,
      OnlyTruncated, Unlinked, RmdirResult, NodeGone, RenameResult, Moved, Holds, Footprint, LeakedBlocks, Resolve,
      Route, IsDirMode, DirModeOk, ChmodMode, EntryRoute, SourceInDir, Entries, NoEntries, OwnParent, OutOfSpace,
      Records, HasRoom, Contents, Bin;
    ghost var d;
    match op {
      case Write(path, buf, offset, now) => r := FsWrite(v, path, buf, offset, now);
      case Truncate(path, len, now) => r := FsTruncate(v, path, len, now);
      case Unlink(path, now, later) => r, d := FsUnlink(v, path, now, later);
      case Chmod(path, mode) => r := FsChmod(v, path, mode);
      case Utime(path, modtime) => r := FsUtime(v, path, modtime);
    }
  }

  /** Performs one call. */
  method Perform(v: Volume, op: Op) returns (r: int)
    requires Valid(v) && Allowed(StateOf(v), op)
    modifies v`used, v`live, v`owner, v`shadow, v.inodeMap, v.blockMap, v.disk, v.inodes
    ensures Valid(v) && Effect(old(StateOf(v)), op, r, StateOf(v))
    ensures Updates(old(StateOf(v)), op, r) ==> v.Synced()
    ensures Short(op, r) ==> OutOfSpace(v.sb.First(), old(StateOf(v)), StateOf(v), op.path)
    ensures v.disk.Length > 0 && v.disk[0] == old(v.disk[0])
  {
    hide Valid, Allowed, Effect, Updates, Holds, OutOfSpace;
    if op.Create? || op.Mkdir? {
      r := PerformMake(v, op);
    } else if op.Rmdir? || op.Rename? {
      r := PerformMove(v, op);
    } else {
      r := PerformFile(v, op);
    }
  }

  /** The same, and what it means for the metadata on the disk and in memory. */
  method Apply(v: Volume, op: Op) returns (r: int)
    requires Valid(v) && Allowed(StateOf(v), op)
    modifies v`used, v`live, v`owner, v`shadow, v.inodeMap, v.blockMap, v.disk, v.inodes
    ensures Valid(v) && Effect(old(StateOf(v)), op, r, StateOf(v))
    ensures Updates(old(StateOf(v)), op, r) ==> v.Synced()
    ensures !Updates(old(StateOf(v)), op, r) ==> SameBelow(v.sb.First(), old(v.disk[..]), v.disk[..])
    ensures !Updates(old(StateOf(v)), op, r) && !Outgrows(old(StateOf(v)), op, r) ==>
      MetaSame(old(StateOf(v)), StateOf(v))
    ensures Outgrows(old(StateOf(v)), op, r) ==> |v.used| == v.disk.Length
    ensures Short(op, r) ==> OutOfSpace(v.sb.First(), old(StateOf(v)), StateOf(v), op.path)
    ensures v.disk.Length > 0 && v.disk[0] == old(v.disk[0])
  {
    hide Valid, Inv, Effect, Holds, Allowed, SuperOf, StandsFor, OutOfSpace, BlocksOk, Source;
    ghost var s := StateOf(v);
    ValidParts(v);
    DiskFacts(v);
    r := Perform(v, op);
    ResultKinds(s, op, r, StateOf(v));
    ValidParts(v);
    if Short(op, r) { ShortMeta(v.sb.First(), s, op, StateOf(v)); }
  }

  /** A write that runs out of space marks all blocks and writes no metadata. */
  lemma ShortMeta(first: nat, s: State, op: Op, s': State)
    requires Inv(first, s) && Inv(first, s') && op.Write? && Effect(s, op, -ENOSPC, s')
    requires OutOfSpace(first, s, s', op.path)
    ensures SameBelow(first, s.disk, s'.disk) && |s'.used| == |s'.disk| && |s.used| <= |s.disk|
    ensures |s.used| == |s.disk| ==> MetaSame(s, s')
  {
    hide Codes, Inv, Recoverable, Exposed, Exposure, FreeZero, AllOf, PathInode, FileStep, Contents, SameFiles,
      SamePaths, Clean, Needed, Stranded, LeakedBlocks, Footprint;
    MarkedCount(first, s');
    MarkedCount(first, s);
  }

  /** What a call can return, and that a call that fails changes nothing unless it is a write. */
  lemma ResultKinds(s: State, op: Op, r: int, s': State)
    requires Effect(s, op, r, s')
    ensures r != 0 && !Short(op, r) && !Updates(s, op, r) ==> s' == s
    ensures !Updates(s, op, r) && !Short(op, r) ==> s' == s
    ensures r > 0 ==> op.Write?
  {
    hide Codes, CreateResult, MadeNode, TruncateResult, FileCheck, RmdirResult, RenameResult, OnlyTruncated, SameFiles,
      SamePaths, Unlinked, NodeGone, Moved, SameContents, ChmodMode, WriteCost, Clean, PathInode, Footprint,
      LeakedBlocks, FileStep, Contents;
  }

  // ---- many calls ------------------------------------------------------------------------------------------

  /** A run: the calls ops return rs and lead from ss[0] through ss[1], ss[2], .. */
  ghost predicate Trace(first: nat, ops: seq<Op>, rs: seq<int>, ss: seq<State>) {
    && |rs| == |ops| && |ss| == |ops| + 1
    && (forall k :: 0 <= k <= |ops| ==> Inv(first, ss[k]))
    && (forall k :: 0 <= k < |ops| ==> Effect(ss[k], ops[k], rs[k], ss[k + 1]))
    && (forall k :: 0 <= k < |ops| && Short(ops[k], rs[k]) ==> OutOfSpace(first, ss[k], ss[k + 1], ops[k].path))
  }

  lemma TraceStates(first: nat, ops: seq<Op>, rs: seq<int>, ss: seq<State>)
    requires Trace(first, ops, rs, ss)
    ensures |rs| == |ops| && |ss| == |ops| + 1 && forall k :: 0 <= k <= |ops| ==> Inv(first, ss[k])
  {
    hide Inv, Effect, OutOfSpace;
  }

  lemma TraceEffect(first: nat, ops: seq<Op>, rs: seq<int>, ss: seq<State>, k: nat)
    requires Trace(first, ops, rs, ss) && k < |ops|
    ensures Effect(ss[k], ops[k], rs[k], ss[k + 1])
  {
    hide Inv, Effect, OutOfSpace;
  }

  lemma TraceStart(first: nat, s: State)
    requires Inv(first, s)
    ensures Trace(first, [], [], [s])
  {
    hide Inv;
  }

  lemma TraceNext(first: nat, ops: seq<Op>, rs: seq<int>, ss: seq<State>, op: Op, r: int, s: State)
    requires Trace(first, ops, rs, ss) && Inv(first, s) && Effect(ss[|ops|], op, r, s)
    requires Short(op, r) ==> OutOfSpace(first, ss[|ops|], s, op.path)
    ensures Trace(first, ops + [op], rs + [r], ss + [s])
  {
    hide Inv, Effect, OutOfSpace;
  }

  /** The last state up to the n-th whose bitmaps and inode table the disk records, if it records those of ss[0]. A
      write that takes the last free block and fails leaves it behind, until a call succeeds. */
  ghost function OnDisk(ops: seq<Op>, rs: seq<int>, ss: seq<State>, n: nat): (m: nat)
    requires n <= |ops| && n <= |rs| && n < |ss|
    ensures m <= n
  {
    if n == 0 then 0
    else
      var m := OnDisk(ops, rs, ss, n - 1);
      if Updates(ss[n - 1], ops[n - 1], rs[n - 1]) || (m == n - 1 && !Outgrows(ss[n - 1], ops[n - 1], rs[n - 1]))
      then n else m
  }

  lemma {:induction false} OnDiskPrefix(ops: seq<Op>, rs: seq<int>, ss: seq<State>, r: int, s: State, n: nat)
    requires n <= |ops| && n <= |rs| && n < |ss|
    ensures OnDisk(ops, rs + [r], ss + [s], n) == OnDisk(ops, rs, ss, n)
  {
    hide Updates, Outgrows;
    if n > 0 { OnDiskPrefix(ops, rs, ss, r, s, n - 1); }
  }

  /** The disk records state number m of a run, and if that is not the last one, memory has marked every block. */
  ghost predicate Recorded(sb: Super, s: State, ss: seq<State>, m: nat) {
    && m < |ss| && Records(sb, s.disk, ss[m])
    && (m + 1 < |ss| ==> |s.used| == |s.disk| && ss[m].used != s.used)
  }

  lemma RecordedNext(sb: Super, ops: seq<Op>, rs: seq<int>, ss: seq<State>, r: int, s: State, s': State)
    requires |rs| < |ops| && |ss| == |rs| + 1 && ss[|rs|] == s && |s'.disk| == |s.disk|
    requires Recorded(sb, s, ss, OnDisk(ops, rs, ss, |rs|))
    requires var op := ops[|rs|];
      && (Updates(s, op, r) ==> Records(sb, s'.disk, s'))
      && (!Updates(s, op, r) ==> SameBelow(sb.First(), s.disk, s'.disk))
      && (!Updates(s, op, r) && !Outgrows(s, op, r) ==> MetaSame(s, s'))
      && (Outgrows(s, op, r) ==> |s'.used| == |s'.disk|)
    ensures Recorded(sb, s', ss + [s'], OnDisk(ops, rs + [r], ss + [s'], |rs| + 1))
  {
    hide Records, Updates;
    var m, op := OnDisk(ops, rs, ss, |rs|), ops[|rs|];
    OnDiskPrefix(ops, rs, ss, r, s', |rs|);
    if !Updates(s, op, r) {
      if m == |rs| && !Outgrows(s, op, r) {
        RecordsKept(sb, s.disk, s, s'.disk, s');
      } else {
        RecordsKept(sb, s.disk, ss[m], s'.disk, ss[m]);
      }
    }
  }

  lemma RecordedSynced(v: Volume, ss: seq<State>, m: nat)
    requires v.MapsOk() && ss != [] && ss[|ss| - 1] == StateOf(v) && Recorded(v.sb, StateOf(v), ss, m)
    ensures v.Synced() <==> m == |ss| - 1
  {
    hide Records, Volume.MapsOk, Holds;
    SyncedRecords(v);
    if v.Synced() && m < |ss| - 1 { RecordsUnique(v.sb, v.disk[..], ss[m], StateOf(v)); }
  }

  /** Is block 0, read as a directory, without valid entries? */
  method NullDirCheck(v: Volume) returns (b: bool)
    requires Valid(v)
    ensures b <==> NullDirEmpty(StateOf(v))
  {
    hide Valid, Inv, Entries, NoEntries, FromByte, SuperOf, Volume.MapsOk, BlocksOk;
    ValidParts(v);
    DiskFacts(v);
    var fd := new Dirent[N_DIRENTS](_ => Dirent(false, false, 0, seq(NAME_SIZE, _ => 0)));
    ReadDir(v, fd, 0);
    b := AllInvalid(fd);
  }

  /** Would fs_rmdir return an error? */
  method RmdirFails(v: Volume, path: seq<byte>) returns (b: bool)
    requires Valid(v)
    ensures b <==> RmdirResult(StateOf(v), path) != 0
  {
    hide Valid, Route, Resolve, IsDir, DirOf, NoEntries;
    var inum := Translate(v, path);
    if inum <= 0 || !IsDir(v.inodes[inum]) { return true; }
    var fd, empty := ReadEntries(v, inum);
    b := !empty;
  }

  /** Does fs_rename fail its checks, or find a directory to change? */
  method RenameFits(v: Volume, src: seq<byte>, dst: seq<byte>) returns (b: bool)
    requires Valid(v)
    ensures b <==> (RenameResult(StateOf(v), src, dst) == 0 ==> SourceInDir(StateOf(v), src))
  {
    hide Valid, Route, Resolve, IsDir, RenameResult;
    var r, _, _, _ := RenameCheck(v, src, dst);
    if r != 0 { return true; }
    var parent, _ := SplitPath(src);
    var inum := Translate(v, parent);
    b := inum > 0 && IsDir(v.inodes[inum]);
  }

  /** Does the code handle the call in this state? */
  method Fits(v: Volume, op: Op) returns (b: bool)
    requires Valid(v)
    ensures b <==> Allowed(StateOf(v), op)
  {
    hide Valid, Tokens, Route, DirModeOk, IsDir, Resolve, NullDirEmpty, RmdirResult, RenameResult, SourceInDir;
    match op {
      case Create(path, _) => b := 0 !in path;
      case Mkdir(path, m) => b := 0 !in path && DirModeOk(m.mode);
      case Unlink(path, _, _) =>
        b := NullDirCheck(v);
        b := 0 !in path && (|Tokens(path)| > MAX_PATH_LEN ==> b);
      case Rmdir(path, _) =>
        b := RmdirFails(v, path);
        b := 0 !in path && (OwnParent(path) ==> b);
      case Rename(src, dst, _) =>
        b := RenameFits(v, src, dst);
        b := 0 !in src && 0 !in dst && b;
      case Chmod(path, mode) =>
        var i := Translate(v, path);
        b := i > 0 && IsDir(v.inodes[i]) ==> DirModeOk(mode);
      case _ => b := true;
    }
  }

  /** Performs the calls one after the other, up to the first that the code does not handle. The invariant holds after
      every call. The disk records the bitmaps and the inode table of the state that OnDisk gives, and a remount would
      find what is in memory exactly if that is the last one. */
  method Run(v: Volume, ops: seq<Op>) returns (rs: seq<int>, ghost ss: seq<State>)
    requires Valid(v)
    modifies v`used, v`live, v`owner, v`shadow, v.inodeMap, v.blockMap, v.disk, v.inodes
    ensures |rs| <= |ops| && |ss| == |rs| + 1 && ss[0] == old(StateOf(v)) && ss[|rs|] == StateOf(v)
    ensures old(v.Synced()) ==> Records(v.sb, v.disk[..], ss[OnDisk(ops, rs, ss, |rs|)])
    ensures old(v.Synced()) ==> (v.Synced() <==> OnDisk(ops, rs, ss, |rs|) == |rs|)
    ensures v.disk.Length > 0 && v.disk[0] == old(v.disk[0])
    ensures |rs| < |ops| ==> !Allowed(StateOf(v), ops[|rs|])
    ensures Valid(v) && Trace(v.sb.First(), ops[..|rs|], rs, ss)
  {
    hide Valid, Inv, Effect, Allowed, Holds, Trace, FromByte, SuperOf, BlocksOk, Recorded, Updates, Outgrows, Records,
      OnDisk, MetaSame, Volume.MapsOk, OutOfSpace;
    ghost var first := v.sb.First();
    ValidParts(v);
    DiskFacts(v);
    rs, ss := [], [StateOf(v)];
    assert Trace(first, [], [], ss) by { TraceStart(first, StateOf(v)); }
    if v.Synced() { RecordedStart(v, ops); }
    var k := 0;
    while k < |ops|
      invariant 0 <= k <= |ops| && |rs| == k && |ss| == k + 1 && Valid(v) && v.disk[0] == old(v.disk[0])
      invariant Trace(first, ops[..k], rs, ss) && ss[0] == old(StateOf(v)) && ss[k] == StateOf(v)
      invariant old(v.Synced()) ==> Recorded(v.sb, StateOf(v), ss, OnDisk(ops, rs, ss, k))
    {
      ghost var s := StateOf(v);
      var b := Fits(v, ops[k]);
      if !b { break; }
      var r := Apply(v, ops[k]);
      ValidParts(v);
      SyncedRecords(v);
      TraceNext(first, ops[..k], rs, ss, ops[k], r, StateOf(v));
      assert ops[..k] + [ops[k]] == ops[..k + 1];
      if old(v.Synced()) { RecordedNext(v.sb, ops, rs, ss, r, s, StateOf(v)); }
      rs, ss := rs + [r], ss + [StateOf(v)];
      k := k + 1;
    }
    if old(v.Synced()) {
      ValidParts(v);
      RecordedSynced(v, ss, OnDisk(ops, rs, ss, k));
      RecordedParts(v.sb, StateOf(v), ss, OnDisk(ops, rs, ss, k));
    }
  }

  lemma RecordedStart(v: Volume, ops: seq<Op>)
    requires v.MapsOk() && v.Synced()
    ensures Recorded(v.sb, StateOf(v), [StateOf(v)], OnDisk(ops, [], [StateOf(v)], 0))
  {
    hide Records, Volume.MapsOk, Holds;
    SyncedRecords(v);
  }

  lemma RecordedParts(sb: Super, s: State, ss: seq<State>, m: nat)
    requires Recorded(sb, s, ss, m)
    ensures m < |ss| && Records(sb, s.disk, ss[m])
  {
    hide Records;
  }

  // ---- the blocks that a run loses ----------------------------------------------------------------------------

  lemma SameSize(a: set<nat>, b: set<nat>)
    requires a <= b
    ensures |a| <= |b| && (|a| == |b| <==> a == b)
  {
    FewerThan(a, b);
    PartCount(b, a);
    if |a| == |b| { assert b - a == {}; }
  }

  lemma WriteLeaks(s: State, s': State, path: seq<byte>, buf: seq<byte>, offset: nat, now: u32, r: int)
    requires WriteEffect(s, s', path, buf, offset, now, r)
    ensures LeakedBlocks(s.owner) <= LeakedBlocks(s'.owner)
    ensures LeakedBlocks(s'.owner) == LeakedBlocks(s.owner) <==> !(r == -ENOSPC && LosesWrite(s, path))
  {
    hide PathInode, FileStep, Contents, SameFiles, SamePaths, Needed, Stranded, LeakedBlocks, Footprint, Clean;
    var i := PathInode(s, path);
    if FileCheck(s, path) >= 0 && offset <= s.inodes[i].size && r < 0 {
      SameSize(LeakedBlocks(s.owner), LeakedBlocks(s'.owner));
    }
  }

  lemma UnlinkLeaks(first: nat, s: State, s': State, path: seq<byte>)
    requires Inv(first, s) && UnlinkEffect(s, s', path, 0)
    ensures LeakedBlocks(s.owner) <= LeakedBlocks(s'.owner)
    ensures LeakedBlocks(s'.owner) == LeakedBlocks(s.owner) <==> !LongFile(s, path)
  {
    hide Inv, PathInode, Footprint, ClearedBlocks, LeakedBlocks, Aside, SameBut, FileCheck, AfterRemove, Find,
      SameFiles, SamePaths, FileStep, Contents, NullInode;
    var i := PathInode(s, path);
    assert LeakedBlocks(s'.owner) == LeakedBlocks(s.owner) + (Footprint(s.owner, i) - ClearedBlocks(s.owner, i));
    ClearsAll(first, s, i);
    ClearedIff(s.owner, i);
    if Footprint(s.owner, i) - ClearedBlocks(s.owner, i) != {} { NotLeakedYet(s.owner, i); }
  }

  /** Every call but those of Loses loses no block, and those do lose some. */
  lemma EffectLeaks(first: nat, s: State, op: Op, r: int, s': State)
    requires Inv(first, s) && Inv(first, s') && Effect(s, op, r, s')
    ensures LeakedBlocks(s.owner) <= LeakedBlocks(s'.owner)
    ensures LeakedBlocks(s'.owner) == LeakedBlocks(s.owner) <==> !Loses(s, op, r)
  {
    hide Codes, Inv, PathInode, CreateResult, MadeNode, WriteEffect, Truncated, LongFile, FileCheck, NodeGone,
      LosesWrite, RmdirResult, LeakedBlocks, Footprint, ChmodMode, SameContents, SamePaths, InodeAt, SameFiles;
    match op {
      case Create(path, _) => if r == 0 { MadeLeaks(s, s', path, false); }
      case Mkdir(path, _) => if r == 0 { MadeLeaks(s, s', path, true); }
      case Write(path, buf, offset, now) => WriteLeaks(s, s', path, buf, offset, now, r);
      case Truncate(path, _, _) => if r == 0 { TruncateLeaks(first, s, s', path); }
      case Unlink(path, _, _) => if r == 0 { UnlinkLeaks(first, s, s', path); } else {}
      case Rmdir(path, _) =>
      case Rename(src, dst, _) =>
      case Chmod(path, mode) =>
      case Utime(path, modtime) =>
    }
  }

  lemma MadeLeaks(s: State, s': State, path: seq<byte>, isDir: bool)
    requires MadeNode(s, s', path, isDir)
    ensures LeakedBlocks(s'.owner) == LeakedBlocks(s.owner)
  {
    hide Find, SameBut, Aside, LeakedBlocks, AfterCreate, IsDir, Contents;
  }

  lemma TruncateLeaks(first: nat, s: State, s': State, path: seq<byte>)
    requires Inv(first, s) && Inv(first, s') && TruncateEffect(s, s', path, 0, 0)
    ensures LeakedBlocks(s.owner) <= LeakedBlocks(s'.owner)
    ensures LeakedBlocks(s'.owner) == LeakedBlocks(s.owner) <==> !LongFile(s, path)
  {
    hide Inv, PathInode, Truncated, SameFiles, SamePaths, LeakedBlocks, Footprint, TruncateResult;
    TruncateCost(first, s, s', PathInode(s, path));
  }

  /** A run loses blocks exactly if one of its calls does. */
  lemma {:induction false} RunLeaks(first: nat, ops: seq<Op>, rs: seq<int>, ss: seq<State>, n: nat)
    requires Trace(first, ops, rs, ss) && n <= |ops|
    ensures LeakedBlocks(ss[0].owner) <= LeakedBlocks(ss[n].owner)
    ensures LeakedBlocks(ss[n].owner) == LeakedBlocks(ss[0].owner) <==> forall k :: 0 <= k < n ==>
      !Loses(ss[k], ops[k], rs[k])
  {
    hide Inv, Effect, Loses, LeakedBlocks, OutOfSpace;
    if n > 0 {
      RunLeaks(first, ops, rs, ss, n - 1);
      EffectLeaks(first, ss[n - 1], ops[n - 1], rs[n - 1], ss[n]);
    }
  }

  // ---- how deep a run can go -----------------------------------------------------------------------------------

  /** No path of more than ten names leads anywhere. */
  ghost predicate ShortPaths(s: State) {
    forall q: seq<Name> :: Find(TreeOf(s), q) > 0 ==> |q| <= MAX_PATH_LEN
  }

  lemma RouteShort(path: seq<byte>)
    ensures |Route(path)| <= MAX_PATH_LEN
  {
  }

  lemma MadeShort(s: State, s': State, path: seq<byte>, isDir: bool)
    requires ShortPaths(s) && MadeNode(s, s', path, isDir)
    ensures ShortPaths(s')
  {
    hide Find, SameBut, Aside, LeakedBlocks, IsDir, Contents, Route, Dirname, ZeroBlock, NullInode;
    var d: nat, i: nat, p: nat :| CreatedNode(s, s', path, isDir, d, i, p);
    RouteShort(path);
    forall q: seq<Name> | Find(TreeOf(s'), q) > 0 ensures |q| <= MAX_PATH_LEN {
      assert Find(TreeOf(s'), q) == AfterCreate(TreeOf(s), Route(path), i, isDir, q);
    }
  }

  lemma GoneShort(s: State, s': State, path: seq<byte>, d: nat, i: nat)
    requires ShortPaths(s) && NodeGone(s, s', path, d, i)
    ensures ShortPaths(s')
  {
    hide Find, SameBut, Aside, Route, Dirname;
    forall q: seq<Name> | Find(TreeOf(s'), q) > 0 ensures |q| <= MAX_PATH_LEN {
      assert Find(TreeOf(s'), q) == AfterRemove(TreeOf(s), Route(path), q);
    }
  }

  lemma MovedShort(s: State, s': State, src: seq<byte>, dst: seq<byte>, d: nat)
    requires ShortPaths(s) && Moved(s, s', src, dst, d)
    ensures ShortPaths(s')
  {
    hide Find, SameBut, Aside, Route, Dirname;
    forall q: seq<Name> | Find(TreeOf(s'), q) > 0 ensures |q| <= MAX_PATH_LEN {
      assert Find(TreeOf(s'), q) == AfterMove(TreeOf(s), EntryRoute(src), Route(dst), q);
    }
  }

  lemma SameShort(s: State, s': State)
    requires ShortPaths(s) && SamePaths(s, s')
    ensures ShortPaths(s')
  {
    hide Find;
  }

  lemma EffectShort(s: State, op: Op, r: int, s': State)
    requires Effect(s, op, r, s') && ShortPaths(s)
    ensures ShortPaths(s')
  {
    hide Codes, PathInode, CreateResult, MadeNode, Truncated, FileCheck, NodeGone, Moved, RmdirResult, RenameResult,
      LeakedBlocks, Footprint, ClearedBlocks, ChmodMode, SameContents, SamePaths, InodeAt, SameFiles, ShortPaths, Wrote,
      WriteCost, TruncateResult;
    match op {
      case Create(path, _) => if r == 0 { MadeShort(s, s', path, false); }
      case Mkdir(path, _) => if r == 0 { MadeShort(s, s', path, true); }
      case Write(path, buf, offset, now) => if s' != s { SameShort(s, s'); }
      case Truncate(path, _, _) => if r == 0 { SameShort(s, s'); }
      case Unlink(path, _, _) =>
        if r == 0 && |Tokens(path)| > MAX_PATH_LEN {
          SameShort(s, s');
        } else if r == 0 {
          var d: nat :| Unlinked(s, s', path, d, PathInode(s, path));
          GoneShort(s, s', path, d, PathInode(s, path));
        }
      case Rmdir(path, _) =>
        if r == 0 {
          var d: nat :| NodeGone(s, s', path, d, PathInode(s, path));
          GoneShort(s, s', path, d, PathInode(s, path));
        }
      case Rename(src, dst, _) =>
        if r == 0 && Source(s, src) > 0 {
          var d: nat :| Moved(s, s', src, dst, d);
          MovedShort(s, s', src, dst, d);
        }
      case Chmod(path, mode) => if r == 0 { SameShort(s, s'); }
      case Utime(path, modtime) => if r == 0 { SameShort(s, s'); }
    }
  }

  /** No call makes anything that is more than ten names deep. */
  lemma {:induction false} RunShort(first: nat, ops: seq<Op>, rs: seq<int>, ss: seq<State>, n: nat)
    requires Trace(first, ops, rs, ss) && ShortPaths(ss[0]) && n <= |ops|
    ensures ShortPaths(ss[n])
  {
    hide Inv, Effect, ShortPaths, OutOfSpace;
    if n > 0 {
      RunShort(first, ops, rs, ss, n - 1);
      EffectShort(ss[n - 1], ops[n - 1], rs[n - 1], ss[n]);
    }
  }

  // ---- runs that leave nothing marked that is not in use ---------------------------------------------------------

  lemma MadeClean(first: nat, s: State, s': State, path: seq<byte>, isDir: bool)
    requires Inv(first, s) && Inv(first, s') && Clean(s) && MadeNode(s, s', path, isDir)
    ensures Clean(s')
  {
    hide Inv, Clean, Find, SameBut, Aside, LeakedBlocks, AfterCreate, IsDir;
    var d: nat, i: nat, p: nat :| CreatedNode(s, s', path, isDir, d, i, p);
    InvKeys(first, s);
    InvKeys(first, s');
    ContentsSize(first, s', i);
    StaysClean(first, s, s', d, i);
  }

  lemma SameClean(s: State, s': State)
    requires Clean(s) && s'.sh == s.sh && s'.owner == s.owner && |s'.inodes| == |s.inodes|
    requires forall i :: 0 <= i < |s.inodes| ==> s'.inodes[i].size == s.inodes[i].size
    ensures Clean(s')
  {
    hide Tight;
  }

  /** A file of at most 518 blocks has only blocks that fs_truncate releases. */
  lemma ShortFile(first: nat, s: State, path: seq<byte>, i: nat)
    requires Inv(first, s) && i in s.sh.trees && i == PathInode(s, path) && i > 0 && !LongFile(s, path)
    ensures Footprint(s.owner, i) == ClearedBlocks(s.owner, i)
  {
    hide Inv, PathInode, Footprint, ClearedBlocks;
    ClearsAll(first, s, i);
  }

  lemma TruncateClean(first: nat, s: State, s': State, path: seq<byte>, i: nat)
    requires Inv(first, s) && Inv(first, s') && Clean(s) && i == PathInode(s, path) && i > 0 && i < |s.inodes|
    requires i in s.sh.trees
    requires Truncated(s, s', i) && !LongFile(s, path)
    ensures Clean(s')
  {
    hide Inv, Clean, PathInode, Footprint, ClearedBlocks, LeakedBlocks, Aside, FileStep, Contents, NullInode, LongFile,
      IsDir;
    ShortFile(first, s, path, i);
    FileAside(s, s', 0, i);
    StepNodes(s, s', i);
    assert LeakedBlocks(s.owner) + {} == LeakedBlocks(s.owner);
    StaysClean(first, s, s', 0, i);
  }

  lemma UnlinkClean(first: nat, s: State, s': State, path: seq<byte>)
    requires Inv(first, s) && Inv(first, s') && Clean(s) && UnlinkEffect(s, s', path, 0) && !LongFile(s, path)
    ensures Clean(s')
  {
    hide Inv, Clean, PathInode, Footprint, ClearedBlocks, LeakedBlocks, Aside, SameBut, LongFile, FileCheck,
      AfterRemove, Find;
    var i := PathInode(s, path);
    if |Tokens(path)| > MAX_PATH_LEN {
      TruncateClean(first, s, s', path, i);
      return;
    }
    var d: nat :| Unlinked(s, s', path, d, i);
    ShortFile(first, s, path, i);
    assert LeakedBlocks(s.owner) + {} == LeakedBlocks(s.owner);
    StaysClean(first, s, s', d, i);
  }

  lemma RmdirClean(first: nat, s: State, s': State, path: seq<byte>)
    requires Inv(first, s) && Inv(first, s') && Clean(s) && RmdirEffect(s, s', path, 0)
    ensures Clean(s')
  {
    hide Inv, Clean, PathInode, Footprint, LeakedBlocks, Aside, SameBut, RmdirResult, AfterRemove, Find;
    var i := PathInode(s, path);
    var d: nat :| NodeGone(s, s', path, d, i);
    StaysClean(first, s, s', d, i);
  }

  lemma RenameClean(first: nat, s: State, s': State, src: seq<byte>, dst: seq<byte>)
    requires Inv(first, s) && Inv(first, s') && Clean(s) && RenameEffect(s, s', src, dst, 0)
    ensures Clean(s')
  {
    hide Inv, Clean, PathInode, LeakedBlocks, Aside, SameBut, RenameResult, AfterMove, Find;
    if Source(s, src) <= 0 { return; }
    var d: nat :| Moved(s, s', src, dst, d);
    InvKeys(first, s);
    StaysClean(first, s, s', d, 0);
  }

  /** Every call that loses no block, and is no write that runs out of space, keeps a clean state clean. */
  lemma EffectClean(first: nat, s: State, op: Op, r: int, s': State)
    requires Inv(first, s) && Inv(first, s') && Clean(s) && Effect(s, op, r, s') && !Loses(s, op, r) && !Short(op, r)
    ensures Clean(s')
  {
    hide Codes, Inv, Clean, PathInode, CreateResult, MadeNode, UnlinkEffect, RmdirEffect, RenameEffect, Wrote,
      SameFiles, SamePaths, WriteCost, Truncated, LongFile, FileCheck, ChmodMode, SameContents;
    ResultKinds(s, op, r, s');
    match op {
      case Create(path, _) => if r == 0 { MadeClean(first, s, s', path, false); }
      case Mkdir(path, _) => if r == 0 { MadeClean(first, s, s', path, true); }
      case Write(path, buf, offset, now) => WriteClean(s, s', path, buf, offset, now, r);
      case Truncate(path, _, _) => if r == 0 { TruncateClean(first, s, s', path, PathInode(s, path)); }
      case Unlink(path, _, _) => if r == 0 { UnlinkClean(first, s, s', path); }
      case Rmdir(path, _) => if r == 0 { RmdirClean(first, s, s', path); }
      case Rename(src, dst, _) => if r == 0 { RenameClean(first, s, s', src, dst); }
      case Chmod(path, mode) => if r == 0 { SameClean(s, s'); }
      case Utime(path, modtime) => if r == 0 { SameClean(s, s'); }
    }
  }

  lemma WriteClean(s: State, s': State, path: seq<byte>, buf: seq<byte>, offset: nat, now: u32, r: int)
    requires Clean(s) && WriteEffect(s, s', path, buf, offset, now, r) && r != -ENOSPC
    ensures Clean(s')
  {
    hide PathInode, FileStep, Contents, SameFiles, SamePaths, Needed, Kept, Clean;
  }

  /** In a run in which no write runs out of space and no file of more than 518 blocks is truncated, nothing is ever
      marked that is not in use, and every file has the blocks that its size needs. */
  lemma {:induction false} RunClean(first: nat, ops: seq<Op>, rs: seq<int>, ss: seq<State>, n: nat)
    requires Trace(first, ops, rs, ss) && Clean(ss[0]) && n <= |ops|
    requires forall k :: 0 <= k < |ops| ==> !Loses(ss[k], ops[k], rs[k]) && !Short(ops[k], rs[k])
    ensures Clean(ss[n])
  {
    hide Inv, Clean, Effect, Loses, OutOfSpace;
    if n > 0 {
      RunClean(first, ops, rs, ss, n - 1);
      EffectClean(first, ss[n - 1], ops[n - 1], rs[n - 1], ss[n]);
    }
  }
}
