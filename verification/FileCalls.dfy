/** fs_read, fs_write and fs_truncate: the calls on a file named by a path. */
module FileCalls {
  import opened Bytes
  import opened Codec
  import opened FileTrees
  import opened Volumes
  import opened Consistency
  import opened FileContents
  import opened Writing
  import opened Mounted
  import opened Behind
  import opened Metadata
  import opened Truncating
  import opened Reading
  import opened Paths
  import opened Names
  import opened NameChanges
  import opened DirSteps
  import opened DirOps

  /** The inode that a path leads to. */
  ghost function PathInode(s: State, path: seq<byte>): int {
    Find(TreeOf(s), Route(path))
  }

  /** No path leads anywhere else. */
  ghost predicate SamePaths(s: State, s': State) {
    forall q: seq<Name> :: Find(TreeOf(s'), q) == Find(TreeOf(s), q)
  }

  /** Inode i is a directory, or a regular file. */
  ghost predicate DirAt(s: State, i: int) {
    0 < i < |s.inodes| && IsDir(s.inodes[i])
  }

  ghost predicate FileAt(s: State, i: int) {
    0 < i < |s.inodes| && !IsDir(s.inodes[i])
  }

  /** A path leads to a directory or to a file, or it fails in one of two ways. */
  lemma FileCodes(v: Volume, path: seq<byte>)
    requires Valid(v)
    ensures var s, i := StateOf(v), PathInode(StateOf(v), path);
      && (i > 0 <==> DirAt(s, i) || FileAt(s, i)) && (i > 0 ==> i in s.sh.trees)
      && (i <= 0 ==> i == -ENOENT || i == -ENOTDIR)
  {
    hide Inv, Resolve, Route, IsDir, SuperOf, Volume.MapsOk, TreeOk;
    InvTree(v.sb.First(), StateOf(v));
    FindLive(TreeOf(StateOf(v)), Route(path));
  }

  /** What a call on a file returns before it looks at the file itself. */
  ghost function FileCheck(s: State, path: seq<byte>): (r: int)
    ensures r <= 0
  {
    var i := PathInode(s, path);
    if i <= 0 then i else if i < |s.inodes| && IsDir(s.inodes[i]) then -EISDIR else 0
  }

  /** A change to a regular file, as seen by all the others. */
  lemma FileStepEffect(first: nat, s: State, s': State, i: nat)
    requires Inv(first, s) && FileStep(s, s', i)
    ensures SameFiles(s, s', i) && SamePaths(s, s')
  {
    hide Inv, FileStep, SameFiles, Find, IsDir;
    StepOthers(first, s, s', i);
    InvTree(first, s);
    StepSameDirs(first, s, s', i);
    forall q: seq<Name> ensures Find(TreeOf(s'), q) == Find(TreeOf(s), q) {
      FindKeptAt(s, s', q);
    }
  }

  lemma FindKeptAt(s: State, s': State, q: seq<Name>)
    requires TreeOk(TreeOf(s)) && SameDirs(TreeOf(s), 0, s'.inodes, s'.disk)
    ensures Find(TreeOf(s'), q) == Find(TreeOf(s), q)
  {
    hide TreeOk, SameDirs, Resolve;
    FindKept(TreeOf(s), s'.inodes, s'.disk, q);
  }

  lemma StepSameDirs(first: nat, s: State, s': State, i: nat)
    requires Inv(first, s) && FileStep(s, s', i)
    ensures SameDirs(TreeOf(s), 0, s'.inodes, s'.disk)
  {
    hide NamesOk, InodesOk, BlocksOk, FileOk, DirOf, IsDir;
    StepDirs(s, s', i);
  }

  /** fs_read. */
  method FsRead(v: Volume, path: seq<byte>, buf: array<byte>, len: nat, offset: nat) returns (r: int)
    requires Valid(v) && len <= buf.Length && buf !in v.Arrays()
    modifies buf
    ensures r < 0 ==> buf[..] == old(buf[..])
    ensures var s, i := StateOf(v), PathInode(StateOf(v), path);
      && (r >= 0 <==> FileAt(s, i)) && (r == -EISDIR <==> DirAt(s, i))
      && (r == -ENOENT <==> i == -ENOENT) && (r == -ENOTDIR <==> i == -ENOTDIR)
    ensures r >= 0 ==> r <= len && var f := Contents(StateOf(v), PathInode(StateOf(v), path));
      if offset >= |f| then r == 0 else offset + r <= |f| && (r == len || offset + r == |f|)
    ensures r >= 0 ==> var f := Contents(StateOf(v), PathInode(StateOf(v), path));
      && (forall k :: 0 <= k < r && offset + k < |f| ==> buf[k] == f[offset + k])
      && (forall k :: r <= k < buf.Length ==> buf[k] == old(buf[k]))
  {
    hide Valid, Inv, Resolve, Route, WalkSafe, IsDir, FileData;
    ghost var s := StateOf(v);
    FileCodes(v, path);
    var inum := Translate(v, path);
    if inum < 0 { return inum; }
    if IsDir(v.inodes[inum]) { return -EISDIR; }
    r := ReadInode(v, inum, buf, len, offset);
    assert StateOf(v) == s by { ValidParts(v); }
  }

  /** What fs_write returns and does. */
  ghost predicate WriteEffect(s: State, s': State, path: seq<byte>, buf: seq<byte>, offset: nat, now: u32, r: int) {
    var i := PathInode(s, path);
    if FileCheck(s, path) < 0 then r == FileCheck(s, path) && s' == s
    else
      && 0 < i < |s.inodes|
      && if offset > s.inodes[i].size then r == -EINVAL && s' == s
         else Wrote(s, s', i, offset, buf, r) && WroteRest(s, s', i, offset, |buf|, now, r)
  }

  /** The rest of its effect on file i: the other fields of its inode, the other files, the paths and the free
      blocks. */
  ghost predicate WroteRest(s: State, s': State, i: nat, offset: nat, len: nat, now: u32, r: int) {
    && i < |s.inodes| && i < |s'.inodes|
    && SameIdentity(s.inodes[i], s'.inodes[i], if r >= 0 then now else s.inodes[i].mtime)
    && SameFiles(s, s', i) && SamePaths(s, s') && WriteCost(s, s', i, offset, len, r)
  }

  /** How a write to the path that runs out of space leaves the disk. */
  ghost predicate OutOfSpace(first: nat, s: State, s': State, path: seq<byte>) {
    PathInode(s, path) > 0 && LeftBehind(first, s, s', PathInode(s, path))
  }

  /** fs_write. */
  method FsWrite(v: Volume, path: seq<byte>, buf: seq<byte>, offset: nat, now: u32) returns (r: int)
    requires Valid(v)
    modifies v`used, v`owner, v`shadow, v.blockMap, v.disk, v.inodes
    ensures r < 0 && r != -ENOSPC ==> StateOf(v) == old(StateOf(v))
    ensures var s, i := old(StateOf(v)), PathInode(old(StateOf(v)), path);
      && (r == -EISDIR <==> DirAt(s, i)) && (r == -ENOENT <==> i == -ENOENT) && (r == -ENOTDIR <==> i == -ENOTDIR)
      && (r == -EINVAL <==> FileAt(s, i) && offset > |Contents(s, i)|)
      && (r >= 0 || r == -ENOSPC <==> FileAt(s, i) && offset <= |Contents(s, i)|)
      && (r == -ENOSPC ==> offset + |buf| > |Contents(s, i)|)
    ensures r >= 0 ==> v.Synced() && (r == |buf| <==> offset + |buf| <= MAX_BLOCKS * BLOCK_SIZE)
    ensures r >= 0 ==> r <= |buf| && (r == |buf| || offset + r == MAX_BLOCKS * BLOCK_SIZE)
    ensures r >= 0 || r == -ENOSPC ==> var i := PathInode(old(StateOf(v)), path);
      var f, g := old(Contents(StateOf(v), i)), Contents(StateOf(v), i);
      var n := if r >= 0 then r else |f| - offset;
      && |g| == (if offset + n > |f| then offset + n else |f|)
      && (forall k :: 0 <= k < |g| ==> g[k] == if offset <= k < offset + n then buf[k - offset] else f[k])
      && v.inodes[i].size == |g|
    ensures r >= 0 || r == -ENOSPC ==> var i := PathInode(old(StateOf(v)), path);
      v.inodes[..] == old(v.inodes[..])[i := old(v.inodes[i]).(size := v.inodes[i].size,
        mtime := if r >= 0 then now else old(v.inodes[i]).mtime, direct := v.inodes[i].direct,
        indir1 := v.inodes[i].indir1, indir2 := v.inodes[i].indir2)]
    ensures r == -ENOSPC ==> OutOfSpace(v.sb.First(), old(StateOf(v)), StateOf(v), path)
    ensures r == -ENOSPC && old(v.Synced()) ==>
      Records(v.sb, v.disk[..], old(StateOf(v))) && (v.Synced() <==> |old(v.used)| == v.disk.Length)
    ensures r == -ENOSPC && |old(v.used)| == v.disk.Length ==> (v.Synced() <==> old(v.Synced()))
    ensures v.disk.Length > 0 && v.disk[0] == old(v.disk[0])
    ensures Valid(v) && WriteEffect(old(StateOf(v)), StateOf(v), path, buf, offset, now, r)
  {
    hide Valid, Inv, Resolve, Route, WalkSafe, IsDir, Contents, SameFiles, SamePaths, Holds, Clean, WriteCost,
      SameIdentity, FileStep, FromByte, SuperOf, LeftBehind, Records;
    ValidParts(v);
    DiskFacts(v);
    FileCodes(v, path);
    ghost var s := StateOf(v);
    var inum := Translate(v, path);
    if inum < 0 { return inum; }
    if IsDir(v.inodes[inum]) { return -EISDIR; }
    var size := v.inodes[inum].size;
    ContentsSize(v.sb.First(), s, inum);
    if offset > size { return -EINVAL; }
    SyncedRecords(v);
    r := WriteInode(v, inum, buf, offset, now);
    WroteEffect(v.sb.First(), s, StateOf(v), inum, offset, buf, r);
    ValidParts(v);
    WroteBytes(v.sb.First(), s, StateOf(v), inum, offset, buf, r, if r >= 0 then now else s.inodes[inum].mtime);
    if r < 0 {
      SyncedRecords(v);
      BehindRecords(v.sb, s, StateOf(v), inum, offset, |buf|);
    }
  }

  /** The bytes and the inode of a file after a write, one by one. */
  lemma WroteBytes(first: nat, s: State, s': State, i: nat, offset: nat, buf: seq<byte>, r: int, mtime: u32)
    requires Wrote(s, s', i, offset, buf, r) && SameIdentity(s.inodes[i], s'.inodes[i], mtime) && Inv(first, s')
    ensures var f, g := Contents(s, i), Contents(s', i); var n := if r >= 0 then r else |f| - offset;
      && offset <= |f| && 0 <= n <= |buf| && |g| == (if offset + n > |f| then offset + n else |f|)
      && (forall k :: 0 <= k < |g| ==> g[k] == if offset <= k < offset + n then buf[k - offset] else f[k])
      && s'.inodes[i].size == |g|
      && s'.inodes == s.inodes[i := s.inodes[i].(size := s'.inodes[i].size, mtime := mtime,
           direct := s'.inodes[i].direct, indir1 := s'.inodes[i].indir1, indir2 := s'.inodes[i].indir2)]
    ensures r >= 0 ==> r <= |buf| && (r == |buf| || offset + r == MAX_BLOCKS * BLOCK_SIZE)
    ensures r < 0 ==> offset + |buf| > |Contents(s, i)|
  {
    hide Inv, FileData, IsDir, Blk;
    ContentsSize(first, s', i);
  }

  /** What the disk records after a write that has run out of space. */
  lemma BehindRecords(sb: Super, s: State, s': State, i: nat, offset: nat, len: nat)
    requires Inv(sb.First(), s) && Inv(sb.First(), s') && LeftBehind(sb.First(), s, s', i)
    requires WriteCost(s, s', i, offset, len, -ENOSPC)
    ensures Records(sb, s.disk, s) ==> Records(sb, s'.disk, s)
    ensures Records(sb, s.disk, s) ==> (Records(sb, s'.disk, s') <==> |s.used| == |s.disk|)
    ensures |s.used| == |s.disk| ==> (Records(sb, s'.disk, s') <==> Records(sb, s.disk, s))
  {
    hide Inv, Records, Recoverable, Exposed, Exposure, FreeZero, AllOf, Clean, LeakedBlocks, Footprint, Needed,
      Stranded;
    MarkedCount(sb.First(), s);
    MarkedCount(sb.First(), s');
    if Records(sb, s.disk, s) {
      RecordsKept(sb, s.disk, s, s'.disk, s);
      if Records(sb, s'.disk, s') { RecordsUnique(sb, s'.disk, s, s'); }
    }
    if |s.used| == |s.disk| {
      if Records(sb, s.disk, s) { RecordsKept(sb, s.disk, s, s'.disk, s'); }
      if Records(sb, s'.disk, s') { RecordsKept(sb, s'.disk, s', s.disk, s); }
    }
  }

  lemma MarkedCount(first: nat, s: State)
    requires Inv(first, s)
    ensures |s.used| <= |s.disk|
    ensures (forall p: nat :: p < |s.disk| ==> p in s.used) ==> |s.used| == |s.disk|
  {
    hide FilesOk, InodesOk, NamesOk;
    UsedBound(first, s.disk, s.used, s.owner);
  }

  lemma WroteEffect(first: nat, s: State, s': State, i: nat, offset: nat, buf: seq<byte>, r: int)
    requires Inv(first, s) && Wrote(s, s', i, offset, buf, r)
    ensures SameFiles(s, s', i) && SamePaths(s, s')
  {
    hide Inv, FileStep, SameFiles, SamePaths, FileData;
    FileStepEffect(first, s, s', i);
  }

  /** What fs_truncate returns. */
  ghost function TruncateResult(s: State, path: seq<byte>, len: int): (r: int)
    ensures r <= 0
  {
    if len != 0 then -EINVAL else FileCheck(s, path)
  }

  /** What fs_truncate does: it empties file i, and changes no other file and no path. */
  ghost predicate OnlyTruncated(s: State, s': State, i: int) {
    0 < i < |s.inodes| && i in s.sh.trees && Truncated(s, s', i) && SameFiles(s, s', i) && SamePaths(s, s')
  }

  /** fs_truncate. */
  method FsTruncate(v: Volume, path: seq<byte>, len: int, now: u32) returns (r: int)
    requires Valid(v)
    modifies v`used, v`owner, v`shadow, v.blockMap, v.disk, v.inodes
    ensures Valid(v)
    ensures r == TruncateResult(old(StateOf(v)), path, len)
    ensures r != 0 ==> StateOf(v) == old(StateOf(v))
    ensures r == 0 ==> var s, i := old(StateOf(v)), PathInode(old(StateOf(v)), path);
      OnlyTruncated(s, StateOf(v), i) && v.inodes[..] == s.inodes[i := Emptied(s.inodes[i], now)]
    ensures r == 0 ==> v.Synced()
    ensures v.disk.Length > 0 && v.disk[0] == old(v.disk[0])
    ensures var s, i := old(StateOf(v)), PathInode(old(StateOf(v)), path);
      && (r == -EINVAL <==> len != 0) && (r == 0 <==> len == 0 && FileAt(s, i))
      && (r == -EISDIR <==> len == 0 && DirAt(s, i)) && (r == -ENOENT <==> len == 0 && i == -ENOENT)
      && (r == -ENOTDIR <==> len == 0 && i == -ENOTDIR)
    ensures r == 0 ==> var i := PathInode(old(StateOf(v)), path);
      && 0 < i < v.inodes.Length && Contents(StateOf(v), i) == []
      && v.inodes[..] == old(v.inodes[..])[i := old(v.inodes[i]).(size := 0, mtime := now,
           direct := [0, 0, 0, 0, 0, 0], indir1 := 0, indir2 := 0)]
  {
    hide Valid, Inv, Resolve, Route, WalkSafe, IsDir, Truncated, SameFiles, SamePaths, Holds, FromByte, SuperOf,
      Volume.MapsOk, Contents, BlocksOk;
    ValidParts(v);
    DiskFacts(v);
    FileCodes(v, path);
    if len != 0 { return -EINVAL; }
    var inum := Translate(v, path);
    if inum < 0 { return inum; }
    if IsDir(v.inodes[inum]) { return -EISDIR; }
    ghost var s := StateOf(v);
    TruncateInode(v, inum, now);
    TruncatedEffect(v.sb.First(), s, StateOf(v), inum);
    TruncatedEmpty(s, StateOf(v), inum);
    return 0;
  }

  lemma TruncatedEmpty(s: State, s': State, i: nat)
    requires Truncated(s, s', i)
    ensures i < |s'.inodes| && Contents(s', i) == []
  {
    hide Contents, ClearedBlocks, LeakedBlocks, Footprint, IsDir;
  }

  lemma TruncatedEffect(first: nat, s: State, s': State, i: nat)
    requires Inv(first, s) && Truncated(s, s', i)
    ensures SameFiles(s, s', i) && SamePaths(s, s')
  {
    hide Inv, FileStep, SameFiles, SamePaths, Contents, ClearedBlocks, LeakedBlocks, Footprint;
    FileStepEffect(first, s, s', i);
  }
}
