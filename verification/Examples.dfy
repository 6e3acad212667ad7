/** Small runs from mkfs on that show where the code fails. */
module Examples {
  import opened Bytes
  import opened Bitmaps
  import opened Codec
  import opened Utf8
  import opened FileTrees
  import opened Volumes
  import opened Consistency
  import opened Writing
  import opened Mounted
  import opened Behind
  import opened Metadata
  import opened FileBlockLists
  import opened Accounting
  import opened Budget
  import opened Paths
  import opened Names
  import opened NameChanges
  import opened DirSteps
  import opened DirOps
  import opened FileCalls
  import opened ModeCalls
  import opened Images
  import opened Fsck
  import opened Runs
  import opened Guarantees

  // ---- a file in a new file system ------------------------------------------------------------------------

  /** The blocks that are free after mkfs. */
  function FreeAtFirst(n: nat): int
    requires n < 0x20_0000
  {
    n - Layout(n).First() - 1
  }

  lemma RoomAtFirst(n: nat)
    requires 6 <= n < 0x20_0000
    ensures FreeAtFirst(n) > 0 && Layout(n).Inodes() > 2
  {
    LayoutFits(n);
    var inos := n / 4;
    assert DivRoundUp(inos, 8192) <= inos / 8192 + 1 && DivRoundUp(inos * 64, 1024) <= inos / 16 + 1;
    assert DivRoundUp(n, 8192) <= n / 8192 + 1;
  }

  /** A path of one component, other than ".". */
  predicate OneName(path: seq<byte>) {
    0 !in path && |Tokens(path)| == 1 && Route(path) != []
  }

  lemma InRoot(path: seq<byte>)
    requires OneName(path)
    ensures Route(Dirname(path)) == [] && Route(path) == [Cut(Basename(path))]
  {
    hide Tokens, Basename, Dirname, Cut;
    SplitRoute(path);
  }

  /** In a new file system, a file can be created in the root. */
  lemma CanCreate(n: nat, disk: seq<Block>, now: u32, s: State, path: seq<byte>)
    requires 6 <= n < 0x20_0000 && OneName(path) && |disk| == n && Layout(n).First() < n && Layout(n).Inodes() > 2
    requires s == NewState(Layout(n), disk, now) && NoEntries(DirOf(s.inodes[1], s.disk)) && IsDir(s.inodes[1])
    requires forall q: seq<Name> :: Find(TreeOf(s), q) == if q == [] then 1 else -ENOENT
    ensures CreateResult(s, path) == 0 && FreeFrom(DirOf(s.inodes[1], s.disk), 0) == 0
  {
    hide Layout, Tokens, Route, Dirname, Basename, Cut, DirOf, IsDirMode, Find, NewTree, RootInode, OneName;
    RoomAtFirst(n);
    InRoot(path);
    assert 2 !in s.live;
    assert Layout(n).First() + 1 !in s.used;
  }

  /** What the file at the path is: new and empty, in the first entry of the root. */
  ghost predicate NewFile(s: State, path: seq<byte>, i: nat) {
    && i > 0 && PathInode(s, path) == i && i in s.sh.trees && i < |s.inodes| && !IsDir(s.inodes[i])
    && s.inodes[i].size == 0
    && 1 < |s.inodes| && var e := DirOf(s.inodes[1], s.disk)[0];
       e.valid && |Cut(Basename(path))| < NAME_SIZE && Cut(Basename(path)) <= e.name
  }

  lemma NewFileIs(first: nat, s: State, s': State, path: seq<byte>, d: nat, i: nat, p: nat, m: Meta)
    requires Inv(first, s) && Inv(first, s') && OneName(path) && CreatedNode(s, s', path, false, d, i, p)
    requires CreatedEntry(s, s', path, false, d, i, p, m) && 1 < |s.inodes|
    requires FreeFrom(DirOf(s.inodes[1], s.disk), 0) == 0
    ensures NewFile(s', path, i)
  {
    hide Inv, Tokens, Route, Dirname, Basename, Cut, DirOf, IsDirMode, Resolve, SameBut, Aside, LeakedBlocks, FreeFrom,
      MadeInode, Contents, OneName;
    InRoot(path);
    InvKeys(first, s');
    ContentsSize(first, s', i);
    assert Find(TreeOf(s), []) == 1 by { RootFound(TreeOf(s)); }
    assert Find(TreeOf(s'), Route(path)) == i;
  }

  /** A new file system: nothing but an empty root. */
  ghost predicate Fresh(n: nat, s: State, now: u32) {
    && 5 <= n < 0x20_0000 && 1 < Layout(n).Inodes() && Layout(n).First() < n
    && s == NewState(Layout(n), s.disk, now) && |s.disk| == n && 1 < |s.inodes| && IsDir(s.inodes[1])
    && NoEntries(DirOf(s.inodes[1], s.disk)) && NullDirEmpty(s)
    && forall q: seq<Name> :: Find(TreeOf(s), q) == if q == [] then 1 else -ENOENT
  }

  /** mkfs and mount. */
  method NewVolume(n: nat, now: u32) returns (v: Volume)
    requires 5 <= n < 0x20_0000
    ensures fresh(v) && fresh(v.Arrays()) && Valid(v) && v.Synced() && v.sb == Layout(n) && v.disk.Length == n
    ensures Clean(StateOf(v)) && Fresh(n, StateOf(v), now)
  {
    hide Valid, Inv, Clean, ImageOf, Holds, SuperOf, Layout, NewState, DirOf, NoEntries, Entries, Find, IsDirMode;
    LayoutFits(n);
    var disk;
    ghost var s, im, bm;
    disk, s, im, bm := Mkfs(n, now);
    v := Mount(disk, s, im, bm);
    ValidParts(v);
    InvKeys(v.sb.First(), s);
    LayoutSize(n);
  }

  /** mkfs, mount, and the creation of one file. */
  method MakeFile(n: nat, path: seq<byte>, m: Meta) returns (v: Volume, ghost i: nat)
    requires 6 <= n < 0x20_0000 && OneName(path)
    ensures fresh(v) && fresh(v.Arrays()) && Valid(v) && v.Synced() && v.sb == Layout(n) && v.disk.Length == n
    ensures Clean(StateOf(v)) && ShortPaths(StateOf(v)) && NewFile(StateOf(v), path, i)
    ensures n - |v.used| == FreeAtFirst(n)
  {
    hide Valid, Inv, Clean, ImageOf, Holds, SuperOf, Layout, ShortPaths, NewFile, Tokens, Route, CreatedNode,
      CreatedEntry, CreateResult, NewState, DirOf, NoEntries, FreeFrom, Find;
    v := NewVolume(n, m.now);
    ghost var s, first := StateOf(v), v.sb.First();
    ValidParts(v);
    RoomAtFirst(n);
    NewShort(s);
    CanCreate(n, s.disk, m.now, s, path);
    var r;
    ghost var d, p;
    r, d, i, p := FsCreate(v, path, m);
    ValidParts(v);
    MadeFile(n, s.disk, m.now, first, s, StateOf(v), path, d, i, p, m.(mode := OrBit(m.mode, S_IFREG)));
  }

  lemma MadeFile(n: nat, disk: seq<Block>, now: u32, first: nat, s: State, s': State, path: seq<byte>, d: nat, i: nat,
                 p: nat, m: Meta)
    requires 6 <= n < 0x20_0000 && Layout(n).First() == first && Layout(n).Inodes() > 2
    requires s == NewState(Layout(n), disk, now)
    requires Inv(first, s) && Inv(first, s') && Clean(s) && ShortPaths(s) && OneName(path)
    requires CreatedNode(s, s', path, false, d, i, p)
    requires CreatedEntry(s, s', path, false, d, i, p, m) && 1 < |s.inodes|
    requires FreeFrom(DirOf(s.inodes[1], s.disk), 0) == 0
    ensures Clean(s') && ShortPaths(s') && NewFile(s', path, i) && |s'.used| == first + 1
  {
    hide Inv, Clean, Layout, ShortPaths, NewFile, OneName, CreatedEntry, DirOf, FreeFrom, Find, AfterCreate, SameBut,
      Aside, Contents, LeakedBlocks, IsDir, Route;
    NewFileIs(first, s, s', path, d, i, p, m);
    MadeClean(first, s, s', path, false);
    MadeShort(s, s', path, false);
    BelowCount(first + 1);
  }

  // ---- a write that runs out of space ------------------------------------------------------------------------

  /** A write of n blocks to a new file on an image of n blocks runs out of space. It takes all free blocks, and loses
      those of them that it has not yet linked to the file on the disk. */
  method FillDisk(n: nat, path: seq<byte>, m: Meta) returns (v: Volume, r: int)
    requires 6 <= n <= MAX_BLOCKS && OneName(path)
    ensures Valid(v) && r == -ENOSPC && |v.used| == v.disk.Length == n && 0 < FreeAtFirst(n)
    ensures |LeakedBlocks(v.owner)| == FreeAtFirst(n) - Kept(0, FreeAtFirst(n))
  {
    hide Valid, Inv, Clean, Layout, ShortPaths, NewFile, OneName, WriteEffect, LeakedBlocks, Footprint, Kept, SuperOf,
      Holds, FromByte, FreeAtFirst;
    ghost var i;
    v, i := MakeFile(n, path, m);
    RoomAtFirst(n);
    ghost var s := StateOf(v);
    ValidParts(v);
    var buf := seq(n * BLOCK_SIZE, _ => 0);
    r := FsWrite(v, path, buf, 0, m.now);
    ValidParts(v);
    FilledDisk(v.sb.First(), s, StateOf(v), path, i, buf, m.now, r);
  }

  lemma FilledDisk(first: nat, s: State, s': State, path: seq<byte>, i: nat, buf: seq<byte>, now: u32, r: int)
    requires Inv(first, s) && Inv(first, s') && Clean(s) && NewFile(s, path, i)
    requires WriteEffect(s, s', path, buf, 0, now, r)
    requires |s.disk| <= MAX_BLOCKS && |buf| == |s.disk| * BLOCK_SIZE
    ensures r == -ENOSPC && |s'.used| == |s'.disk| == |s.disk|
    ensures |s.used| <= |s.disk| && |LeakedBlocks(s'.owner)| == |s.disk| - |s.used| - Kept(0, |s.disk| - |s.used|)
  {
    hide Inv, Clean, PathInode, IsDir, DirOf, Basename, Cut, SameFiles, SamePaths, Footprint, LeakedBlocks, Kept,
      Contents;
    var n := |s.disk|;
    CleanCost(first, s, i);
    InvKeys(first, s);
    UsedSome(first, s);
    NothingLeaked(s);
    BlocksForBound(0, 0);
    BlocksForBound(|buf|, n);
    BlocksForBound(|buf|, n - 1);
    assert BlockCount(0) == 0 && BlockCount(n) >= n;
    MarkedCount(first, s');
  }

  lemma UsedSome(first: nat, s: State)
    requires Inv(first, s)
    ensures 0 < |s.used| <= |s.disk|
  {
    hide FilesOk, InodesOk, NamesOk;
    UsedBound(first, s.disk, s.used, s.owner);
    assert 0 in s.used;
  }

  /** With 14 blocks, nine of which are free, two are lost; with 12, seven of which are free, none is. */
  lemma FillExamples()
    ensures FreeAtFirst(14) == 9 && 9 - Kept(0, 9) == 2
    ensures FreeAtFirst(12) == 7 && 7 - Kept(0, 7) == 0
  {
  }

  // ---- a long file ---------------------------------------------------------------------------------------------

  /** A file of 519 blocks is written and truncated: a block and a table are lost. */
  method TruncateLong(path: seq<byte>, m: Meta) returns (v: Volume, r: int)
    requires OneName(path)
    ensures Valid(v) && r == 0 && LeakedBlocks(v.owner) != {}
  {
    hide Valid, Inv, Clean, Layout, ShortPaths, NewFile, OneName, WriteEffect, LeakedBlocks, Footprint, Truncated,
      SameFiles, SamePaths, PathInode, TruncateResult, Emptied, SuperOf, Holds, FromByte, FreeAtFirst;
    ghost var i;
    assert FreeAtFirst(1024) == 1004 by { LongRoom(); }
    v, i := MakeFile(1024, path, m);
    ghost var s, first := StateOf(v), v.sb.First();
    ValidParts(v);
    var buf := seq((TWO_TABLES + 1) * BLOCK_SIZE, _ => 0);
    var written := FsWrite(v, path, buf, 0, m.now);
    ghost var s1 := StateOf(v);
    ValidParts(v);
    LongFileIs(first, s, s1, path, i, buf, m.now, written);
    r := FsTruncate(v, path, 0, m.now);
    ValidParts(v);
    TruncateSize(first, s1, StateOf(v), i);
  }

  lemma LongRoom()
    ensures FreeAtFirst(1024) == 1004
  {
  }

  lemma LongFileIs(first: nat, s: State, s': State, path: seq<byte>, i: nat, buf: seq<byte>, now: u32, r: int)
    requires Inv(first, s) && Inv(first, s') && Clean(s) && NewFile(s, path, i)
    requires WriteEffect(s, s', path, buf, 0, now, r)
    requires |buf| == (TWO_TABLES + 1) * BLOCK_SIZE && |s.disk| - |s.used| >= 523
    ensures Clean(s') && TruncateResult(s', path, 0) == 0 && PathInode(s', path) == i && i in s'.sh.trees
    ensures i < |s'.inodes|
    ensures s'.inodes[i].size == (TWO_TABLES + 1) * BLOCK_SIZE && LeakedBlocks(s'.owner) == {}
  {
    hide Inv, Clean, Resolve, DirOf, Basename, Cut, SameFiles, Footprint, LeakedBlocks, Kept, FileContents.FileData,
      IsDirMode, Route;
    CleanCost(first, s, i);
    NothingLeaked(s);
    BlocksForBound(0, 0);
    assert BlocksFor(|buf|) == 519 && BlockCount(0) == 0 && BlockCount(519) == 523;
    InvKeys(first, s');
    ContentsSize(first, s', i);
    assert Find(TreeOf(s'), Route(path)) == Find(TreeOf(s), Route(path));
  }

  // ---- a name that the checker cannot decode ------------------------------------------------------------------------

  /** After the creation of a file whose name starts with the byte 255, the checker stops with an error, although the
      file system is consistent. */
  method CheckBadName(n: nat, path: seq<byte>, m: Meta) returns (v: Volume, verdict: Verdict)
    requires 6 <= n < 0x20_0000 && OneName(path) && Basename(path) != [] && Basename(path)[0] == 0xFF
    ensures Valid(v) && verdict == DecodeError
  {
    hide Valid, Inv, Clean, Layout, ShortPaths, NewFile, OneName, Basename, DecodeAll, Overruns, LeakedBlocks, SuperOf,
      Holds, FromByte, FreeAtFirst, IsDirMode;
    ghost var i;
    v, i := MakeFile(n, path, m);
    ValidParts(v);
    InvKeys(v.sb.First(), StateOf(v));
    BadName(StateOf(v), path, i);
    verdict := CheckVolume(v, n);
  }

  lemma BadName(s: State, path: seq<byte>, i: nat)
    requires NewFile(s, path, i) && Basename(path) != [] && Basename(path)[0] == 0xFF && 1 in s.sh.trees
    requires IsDir(s.inodes[1])
    ensures !DecodeAll(TreeOf(s), s.sh.trees.Keys)
  {
    hide IsDirMode, Entries, Basename, PathInode, Decodes;
    var e := DirOf(s.inodes[1], s.disk)[0];
    assert Cut(Basename(path))[0] == 0xFF && e.name[0] == 0xFF;
    assert e.name[0..] == e.name && CharLen(e.name) == 0;
    StrayByte(e.name, 0);
    assert !EntriesDecode(Dir(TreeOf(s), 1));
  }

  /** The path "/" and the byte 255, and the path "/a". */
  lemma ExamplePaths()
    ensures OneName([SLASH, 0xFF]) && Basename([SLASH, 0xFF]) == [0xFF] && OneName([SLASH, 97])
  {
    OneByte(0xFF);
    OneByte(97);
  }

  lemma OneByte(b: byte)
    requires b != SLASH && b != 0 && b != DOT
    ensures OneName([SLASH, b]) && Basename([SLASH, b]) == [b]
  {
    var p := [SLASH, b];
    assert p[1..] == [b];
    SpanWhole([b]);
    assert [b][..1] == [b] && [b][1..] == [];
    assert Tokens([b]) == [[b]] + Tokens([]);
    assert Tokens(p) == [[b]];
    assert CutAll(Tokens(p))[0] == [b];
    SplitTokens(p);
  }

  // ---- a write that is cut short ---------------------------------------------------------------------------------

  /** A write of one block more than a file can have is cut short, although there is space for it. */
  method WriteShort(path: seq<byte>, m: Meta) returns (v: Volume, r: int)
    requires OneName(path)
    ensures Valid(v) && r == MAX_BLOCKS * BLOCK_SIZE
  {
    hide Valid, Inv, Clean, Layout, ShortPaths, NewFile, OneName, WriteEffect, LeakedBlocks, SuperOf, Holds, FromByte,
      FreeAtFirst, OutOfSpace, Records;
    ghost var i;
    assert FreeAtFirst(70000) == 68892 by { GreatRoom(); }
    v, i := MakeFile(70000, path, m);
    ghost var s := StateOf(v);
    ValidParts(v);
    var buf := seq((MAX_BLOCKS + 1) * BLOCK_SIZE, _ => 0);
    r := FsWrite(v, path, buf, 0, m.now);
    ShortWrite(v.sb.First(), s, StateOf(v), path, i, buf, m.now, r);
  }

  lemma GreatRoom()
    ensures FreeAtFirst(70000) == 68892
  {
  }

  lemma ShortWrite(first: nat, s: State, s': State, path: seq<byte>, i: nat, buf: seq<byte>, now: u32, r: int)
    requires Inv(first, s) && Clean(s) && NewFile(s, path, i) && WriteEffect(s, s', path, buf, 0, now, r)
    requires |buf| == (MAX_BLOCKS + 1) * BLOCK_SIZE && |s.disk| - |s.used| >= 66056
    ensures r == MAX_BLOCKS * BLOCK_SIZE
  {
    hide Inv, Clean, Resolve, DirOf, Basename, Cut, SameFiles, SamePaths, Footprint, LeakedBlocks, Contents,
      IsDirMode, Route;
    CleanCost(first, s, i);
    BlocksForBound(0, 0);
    assert BlocksFor(|buf|) == MAX_BLOCKS + 1 && BlockCount(0) == 0 && BlockCount(MAX_BLOCKS) == 66056;
  }

  // ---- a block that is handed out twice ----------------------------------------------------------------------------

  /** A file of seven blocks grows until the disk is full, when it needs a double-indirect block. By then the
      indirect block on the disk has been replaced, but the bitmap has not. After a remount every block that is handed
      out is one of the file's. */
  method HandOutTwice(path: seq<byte>, m: Meta) returns (v: Volume, u: Volume, p: int, ghost j: nat)
    requires OneName(path)
    ensures Valid(v) && u.disk == v.disk && u.Synced() && u.MapsOk() && !Valid(u)
    ensures 0 < p < u.disk.Length && p !in u.used && j in u.live && j < u.inodes.Length
    ensures p as u32 in FileBlocks(u.inodes[j], u.disk[..])
  {
    hide Valid, Inv, Clean, Layout, ShortPaths, NewFile, OneName, WriteEffect, LeakedBlocks, SuperOf, Holds, FromByte,
      FreeAtFirst, OutOfSpace, Records, Recoverable, Exposed, FileBlocks, Volume.MapsOk, Footprint, StandsFor, Table,
      BlocksOk, IsDirMode, Resolve, Tokens, Route, DirAt, FileAt, Contents;
    ghost var i;
    assert FreeAtFirst(272) == 263 by { SmallRoom(); }
    v, i := MakeFile(272, path, m);
    ghost var s, first := StateOf(v), v.sb.First();
    ValidParts(v);
    var buf := seq(7 * BLOCK_SIZE, _ => 0);
    var r := FsWrite(v, path, buf, 0, m.now);
    ghost var s1 := StateOf(v);
    ValidParts(v);
    SevenBlocks(first, s, s1, path, i, buf, m.now, r);
    var more := seq(272 * BLOCK_SIZE, _ => 0);
    r := FsWrite(v, path, more, 7 * BLOCK_SIZE, m.now);
    RunsOut(first, s1, StateOf(v), path, i, more, m.now, r);
    u := Remount(v, s1);
    p := GetNextBlock(u);
    FreeExposed(first, s1, v.disk[..]);
    j := ExposedFile(s1, v.disk[..], p);
  }

  /** All free blocks are exposed, and there are some. */
  lemma FreeExposed(first: nat, s: State, disk: seq<Block>)
    requires Inv(first, s) && |s.disk| == 272 && |s.used| == 17 && |Exposed(s, disk)| == 255
    requires forall p :: p in Exposed(s, disk) ==> p < 272
    ensures 0 in s.used && forall p: nat :: p < 272 && p !in s.used ==> p in Exposed(s, disk)
    ensures exists p: nat :: p < 272 && p !in s.used
  {
    hide FilesOk, InodesOk, NamesOk, ZeroBlock, FileBlocks;
    var free := Below(272) - s.used;
    BelowCount(272);
    assert s.used <= Below(272);
    PartCount(Below(272), s.used);
    SameSize(Exposed(s, disk), free);
  }

  lemma ExposedFile(s: State, disk: seq<Block>, p: nat) returns (j: nat)
    requires p in Exposed(s, disk)
    ensures j in s.live && j < |s.inodes| && p < 0x1_0000_0000 && p as u32 in FileBlocks(s.inodes[j], disk)
  {
    hide FileBlocks;
    var k, q :| k in s.live && k < |s.inodes| && q in FileBlocks(s.inodes[k], disk) && q as nat !in s.used
      && p == q as nat;
    j := k;
  }

  lemma SmallRoom()
    ensures FreeAtFirst(272) == 263
  {
  }

  /** The file has seven blocks and an indirect block, and 255 blocks are free. */
  ghost predicate Seven(s: State, path: seq<byte>, i: nat) {
    && Clean(s) && i == PathInode(s, path) && i > 0 && i in s.sh.trees && i in s.sh.extent && i < |s.inodes|
    && !IsDir(s.inodes[i]) && s.inodes[i].size == 7 * BLOCK_SIZE && s.sh.extent[i] == 7 && s.inodes[i].indir1 != 0
    && |Footprint(s.owner, i)| == 8 && |s.disk| == 272 && |s.used| == 17
  }

  lemma SevenBlocks(first: nat, s: State, s': State, path: seq<byte>, i: nat, buf: seq<byte>, now: u32, r: int)
    requires Inv(first, s) && Inv(first, s') && Clean(s) && NewFile(s, path, i)
    requires WriteEffect(s, s', path, buf, 0, now, r)
    requires |buf| == 7 * BLOCK_SIZE && |s.disk| == 272 && |s.used| == 9
    ensures r >= 0 && Seven(s', path, i)
  {
    hide Inv, Clean, Resolve, DirOf, Basename, Cut, SameFiles, Footprint, LeakedBlocks, FileContents.FileData,
      IsDirMode, Route, Tight, Stored, FileOk;
    CleanCost(first, s, i);
    assert BlocksFor(0) == 0 && BlockCount(0) == 0 && BlocksFor(7 * BLOCK_SIZE) == 7 && BlockCount(7) == 8;
    InvKeys(first, s');
    ContentsSize(first, s', i);
    CleanCost(first, s', i);
    CleanFile(s', i);
    InvFile(first, s', i);
    IndirThere(i, s'.inodes[i], s'.sh.trees[i], s'.disk, s'.owner);
    assert Find(TreeOf(s'), Route(path)) == Find(TreeOf(s), Route(path));
  }

  lemma IndirThere(i: nat, nd: Inode, t: Tree, disk: seq<Block>, owner: Owner)
    requires FileOk(i, nd, t, 7, disk, owner)
    ensures nd.indir1 != 0
  {
    hide Ptrs, DenseRun, Owned;
  }

  lemma RunsOut(first: nat, s: State, s': State, path: seq<byte>, i: nat, buf: seq<byte>, now: u32, r: int)
    requires Inv(first, s) && Seven(s, path, i) && WriteEffect(s, s', path, buf, 7 * BLOCK_SIZE, now, r)
    requires |buf| == 272 * BLOCK_SIZE && (r == -ENOSPC ==> OutOfSpace(first, s, s', path))
    ensures r == -ENOSPC && |Exposed(s, s'.disk)| == 255 && !Recoverable(first, s, s'.disk)
    ensures forall p :: p in Exposed(s, s'.disk) ==> p < 272
  {
    hide Inv, Clean, Resolve, SameFiles, SamePaths, Footprint, LeakedBlocks, Contents, IsDirMode, Route, Exposed,
      Recoverable, FreeZero;
    assert BlocksFor(279 * BLOCK_SIZE) == 279 && BlockCount(279) == 282;
  }
}
