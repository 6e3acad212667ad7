/** fs_rmdir. */
module Rmdir {
  import opened Bytes
  import opened Bitmaps
  import opened Codec
  import opened FileTrees
  import opened Volumes
  import opened Consistency
  import opened Mounted
  import opened Paths
  import opened Names
  import opened NameChanges
  import opened DirSteps
  import opened DirOps
  import opened FileCalls
  import opened Unlinking

  /** What fs_rmdir returns in state s. */
  ghost function RmdirResult(s: State, path: seq<byte>): (r: int)
    ensures r <= 0
  {
    var i := PathInode(s, path);
    if i <= 0 then i
    else if i >= |s.inodes| || !IsDir(s.inodes[i]) then -ENOTDIR
    else if !NoEntries(DirOf(s.inodes[i], s.disk)) then -ENOTEMPTY
    else 0
  }

  // ---- an empty directory is released -----------------------------------------------------------------

  /** Directory i has lost its block, and its inode and block are free. */
  ghost predicate DirReleased(s: State, m: State, i: nat) {
    && i < |s.inodes|
    && var p := s.inodes[i].direct[0] as nat;
       && p < |s.disk| && m.disk == s.disk[p := ZeroBlock()]
       && m.inodes == s.inodes[i := s.inodes[i].(direct := s.inodes[i].direct[0 := 0])]
       && m.used == s.used - {p} && m.owner == s.owner - {p} && m.live == s.live - {i} && m.sh == s.sh
  }

  /** A directory has exactly one block. */
  lemma DirFootprint(first: nat, s: State, i: nat)
    requires Inv(first, s) && i in s.sh.trees && i < |s.inodes| && IsDir(s.inodes[i])
    ensures Footprint(s.owner, i) == {s.inodes[i].direct[0] as nat}
    ensures NullInode(s.inodes[i].(direct := s.inodes[i].direct[0 := 0]))
  {
    hide Inv, FileOk, IsDir;
    InvTree(first, s);
    InvKeys(first, s);
    DirBlockOwned(s, i);
    var t := s.sh.trees[i];
    assert FileOk(i, s.inodes[i], t, 1, s.disk, s.owner);
    OneBlockTree(i, s.inodes[i], t, s.disk, s.owner);
  }

  method UnmarkBlock(v: Volume, p: nat)
    requires v.DiskOk() && p in v.owner && p < v.disk.Length && v.disk[p] == ZeroBlock()
    modifies v`used, v`owner, v.blockMap
    ensures v.DiskOk() && v.used == old(v.used) - {p} && v.owner == old(v.owner) - {p}
  {
    BitClear(v.blockMap, p, v.used);
    v.used := v.used - {p};
    v.owner := v.owner - {p};
  }

  method ReleaseDir(v: Volume, inum: nat)
    requires Valid(v) && inum in v.shadow.trees && inum < v.inodes.Length && IsDir(v.inodes[inum])
    modifies v`used, v`live, v`owner, v.inodeMap, v.blockMap, v.inodes, v.disk
    ensures v.DiskOk() && SuperOf(v.disk[0]) == v.sb
    ensures DirReleased(old(StateOf(v)), StateOf(v), inum)
    ensures v.disk.Length > 0 && v.disk[0] == old(v.disk[0])
  {
    hide Valid, Inv, IsDir, DirOf, Volume.DiskOk, SuperOf, ZeroBlock, Volume.MapsOk;
    ghost var s := StateOf(v);
    ValidParts(v);
    DiskFacts(v);
    DirBlockFacts(v.sb.First(), s, inum);
    var block := new byte[BLOCK_SIZE](_ => 0);
    assert block[..] == ZeroBlock() by { ZeroBytes(block[..]); }
    var p := v.inodes[inum].direct[0];
    BlockWrite(v, block, p);
    UnmarkBlock(v, p);
    v.inodes[inum] := v.inodes[inum].(direct := v.inodes[inum].direct[0 := 0]);
    UnmarkInode(v, inum);
  }

  lemma ZeroBytes(b: seq<byte>)
    requires |b| == BLOCK_SIZE && forall j :: 0 <= j < BLOCK_SIZE ==> b[j] == 0
    ensures b == ZeroBlock()
  {
  }

  // ---- the parent is still found -----------------------------------------------------------------------

  lemma ReleasedDirs(first: nat, s: State, m: State, i: nat)
    requires Inv(first, s) && i in s.sh.trees && i < |s.inodes| && IsDir(s.inodes[i]) && DirReleased(s, m, i)
    ensures SameDirs(TreeOf(s), i, m.inodes, m.disk)
  {
    hide Inv, IsDirMode, Entries, ZeroBlock;
    DirBlockFacts(first, s, i);
    forall e | e in s.sh.trees && e != i && e < |s.inodes| && IsDir(s.inodes[e])
      ensures DirOf(m.inodes[e], m.disk) == DirOf(s.inodes[e], s.disk)
    {
      DirBlockFacts(first, s, e);
    }
  }

  lemma {:induction false} FindPrefix(n: NameTree, ns: seq<Name>, k: nat)
    requires Find(n, ns) > 0 && k <= |ns|
    ensures Find(n, ns[..k]) > 0
    decreases |ns|
  {
    if k < |ns| {
      assert ns[..|ns| - 1][..k] == ns[..k];
      FindPrefix(n, ns[..|ns| - 1], k);
    } else {
      assert ns[..k] == ns;
    }
  }

  /** The walk along a path that resolves to another inode is safe, and leads where it led. */
  lemma RmdirWalk(first: nat, s: State, m: State, i: nat, ns: seq<Name>)
    requires Inv(first, s) && i in s.sh.trees && i < |s.inodes| && IsDir(s.inodes[i])
    requires NoEntries(DirOf(s.inodes[i], s.disk))
    requires DirReleased(s, m, i) && Find(TreeOf(s), ns) > 0
    ensures WalkSafe(m.inodes, m.disk, ns) && Resolve(m.inodes, m.disk, ns) == Find(TreeOf(s), ns)
  {
    hide Inv, TreeOk, IsDir, DirOf, NoEntries, SameDirs, LookupOf, FilesOk;
    InvTree(first, s);
    ReleasedDirs(first, s, m, i);
    forall k | 0 <= k <= |ns|
      ensures Resolve(m.inodes, m.disk, ns[..k]) == Find(TreeOf(s), ns[..k])
      ensures 0 < Find(TreeOf(s), ns[..k]) < |m.inodes|
      ensures (k < |ns| ==> HasBlock(m.inodes[Find(TreeOf(s), ns[..k])], |m.disk|))
    {
      RmdirPrefix(first, s, m, i, ns, k);
    }
    assert ns[..|ns|] == ns;
  }

  lemma RmdirPrefix(first: nat, s: State, m: State, i: nat, ns: seq<Name>, k: nat)
    requires Inv(first, s) && i in s.sh.trees && i < |s.inodes| && IsDir(s.inodes[i])
    requires NoEntries(DirOf(s.inodes[i], s.disk))
    requires DirReleased(s, m, i) && Find(TreeOf(s), ns) > 0 && k <= |ns| && SameDirs(TreeOf(s), i, m.inodes, m.disk)
    ensures Resolve(m.inodes, m.disk, ns[..k]) == Find(TreeOf(s), ns[..k])
    ensures 0 < Find(TreeOf(s), ns[..k]) < |m.inodes|
    ensures (k < |ns| ==> HasBlock(m.inodes[Find(TreeOf(s), ns[..k])], |m.disk|))
  {
    hide Inv, TreeOk, IsDirMode, DirOf, NoEntries, SameDirs, LookupOf, Resolve, Table, FilesOk;
    var n := TreeOf(s);
    InvTree(first, s);
    FindPrefix(n, ns, k);
    FindAvoids(n, i, m.inodes, m.disk, ns[..k]);
    FindLive(n, ns[..k]);
    if k < |ns| {
      FindPrefix(n, ns, k + 1);
      FindStep(n, ns[..k + 1]);
      assert ns[..k + 1][..k] == ns[..k];
      var e := Find(n, ns[..k]);
      if e == i { NoStep(n, i, ns[k]); }
      if IsDir(s.inodes[e]) { DirHasBlock(first, s, e); }
    }
  }

  // ---- the entry is dropped ------------------------------------------------------------------------------

  /** The loop of fs_rmdir over the entries of the parent; for a path that is its own parent, whose block is gone, over
      those of block 0. */
  method RmdirEntry(v: Volume, fd: array<Dirent>, inum: nat, leaf: Name, now: u32, ghost x: nat, ghost i: nat)
    requires v.DiskOk() && fd.Length == N_DIRENTS && fd !in v.Arrays() && EntryReady(StateOf(v), inum, leaf, x, i)
    modifies v`live, v.inodeMap, v.inodes, v.disk, fd
    ensures v.DiskOk() && v.disk[0] == old(v.disk[0])
    ensures if x < N_DIRENTS then EntryDropped(old(StateOf(v)), StateOf(v), inum, x, i, now)
      else StateOf(v) == old(StateOf(v))
  {
    hide Volume.DiskOk, IsDir, Entries, EntryDropped, EntryOrNone, FromByte;
    ghost var s := StateOf(v);
    DiskFacts(v);
    ReadDir(v, fd, v.inodes[inum].direct[0]);
    ghost var es := DirOf(v.inodes[inum], v.disk[..]);
    assert fd[..] == es;
    var k := 0;
    while k < N_DIRENTS
      invariant 0 <= k <= N_DIRENTS && v.DiskOk() && v.disk[0] == s.disk[0]
      invariant k <= x ==> StateOf(v) == s && fd[..] == es
      invariant k > x ==> fd[..] == es[x := es[x].(valid := false)] && EntryDropped(s, StateOf(v), inum, x, i, now)
    {
      OnlyMatch(es, fd[..], leaf, x, i, k);
      if fd[k].valid && CStr(fd[k].name) == leaf {
        ClearEntry(v, inum, fd, k, now);
      }
      k := k + 1;
    }
  }

  /** Releasing the directory and dropping its entry is its removal. */
  lemma RmdirRemoves(first: nat, s: State, m0: State, m: State, path: seq<byte>, d: nat, x: nat, i: nat, now: u32)
    requires Inv(first, s) && EntryOf(s, path, d, x, i) && IsDir(s.inodes[i]) && NoEntries(DirOf(s.inodes[i], s.disk))
    requires DirReleased(s, m0, i) && EntryDropped(m0, m, d, x, i, now)
    ensures Removing(s, m.(sh := DropNode(m.sh, i)), d, x, i, Cut(Basename(path)))
  {
    hide Inv, IsDirMode, Matches, Distinct, Find, Route, Basename, Dirname, Cut, Entries, Footprint, ZeroBlock,
      NoEntries, NullInode;
    DirFootprint(first, s, i);
    DirBlockFacts(first, s, i);
    DirBlockFacts(first, s, d);
    assert m0.live - {i} == m0.live;
  }

  /** The parent directory of a released directory. */
  lemma ParentKept(first: nat, s: State, m: State, i: nat, d: nat)
    requires Inv(first, s) && i in s.sh.trees && i < |s.inodes| && IsDir(s.inodes[i]) && DirReleased(s, m, i)
    requires d in s.sh.trees && d < |s.inodes| && IsDir(s.inodes[d]) && d != i
    ensures m.inodes[d] == s.inodes[d] && DirOf(m.inodes[d], m.disk) == DirOf(s.inodes[d], s.disk)
    ensures m.inodes[d].direct[0] in m.used && 0 < m.inodes[d].direct[0] < |m.disk|
  {
    hide Inv, IsDirMode, Entries, ZeroBlock;
    InvKeys(first, s);
    DirBlockFacts(first, s, i);
    DirBlockFacts(first, s, d);
  }

  /** The only block that is freed is the directory's. */
  lemma RmdirBlocks(first: nat, s: State, m0: State, m: State, d: nat, x: nat, i: nat, now: u32)
    requires Inv(first, s) && i in s.sh.trees && i < |s.inodes| && IsDir(s.inodes[i])
    requires DirReleased(s, m0, i) && EntryDropped(m0, m, d, x, i, now)
    ensures m.used == s.used - {s.inodes[i].direct[0] as nat} && LeakedBlocks(m.owner) == LeakedBlocks(s.owner)
  {
    hide Inv, IsDirMode, EntryCleared, ZeroBlock;
    DirBlockFacts(first, s, i);
  }

  /** Does the buffer hold a valid entry? */
  method AllInvalid(fd: array<Dirent>) returns (r: bool)
    requires fd.Length == N_DIRENTS
    ensures r <==> NoEntries(fd[..])
  {
    var i := 0;
    while i < N_DIRENTS
      invariant 0 <= i <= N_DIRENTS
      invariant forall z :: 0 <= z < i ==> !fd[z].valid
    {
      if fd[i].valid { return false; }
      i := i + 1;
    }
    return true;
  }

  lemma ReleasedNodes(s: State, m0: State, i: nat)
    requires DirReleased(s, m0, i)
    ensures m0.sh == s.sh && |m0.inodes| == |s.inodes|
  {
    hide ZeroBlock;
  }

  /** What fs_rmdir leaves in the inode table and in the parent directory. */
  ghost predicate RemovedInodes(s: State, s': State, d: nat, i: nat, now: u32) {
    && d < |s.inodes| && i < |s.inodes| && i in s.sh.place && EntryGone(s, s', d, s.sh.place[i].slot)
    && s'.inodes == s.inodes[i := s.inodes[i].(direct := s.inodes[i].direct[0 := 0])][d := s.inodes[d].(mtime := now)]
  }

  /** An empty directory that a path leads to. If the path is its own parent, block 0 has no valid entry. */
  ghost predicate RmdirReady(first: nat, s: State, path: seq<byte>, i: nat) {
    && Inv(first, s) && 0 !in path && i == PathInode(s, path) && |s.disk| > 0
    && i in s.sh.trees && i < |s.inodes| && IsDir(s.inodes[i]) && NoEntries(DirOf(s.inodes[i], s.disk))
    && (OwnParent(path) ==> NoEntries(Entries(s.disk[0])))
  }

  /** The parent d of the path can be found in m, and it has, at place x, the entry of inode i, or, if x is 32, none. */
  ghost predicate ParentReady(m: State, path: seq<byte>, d: nat, x: nat, i: nat) {
    && WalkSafe(m.inodes, m.disk, Route(Dirname(path))) && Resolve(m.inodes, m.disk, Route(Dirname(path))) == d
    && 1 < |m.inodes| && EntryReady(m, d, Cut(Basename(path)), x, i)
  }

  /** A released directory whose path is its own parent has no entries. */
  lemma OwnParentReady(first: nat, s: State, m: State, path: seq<byte>, i: nat)
    requires RmdirReady(first, s, path, i) && OwnParent(path) && DirReleased(s, m, i) && i > 0
    ensures ParentReady(m, path, i, N_DIRENTS, i)
  {
    hide Inv, Route, OwnParent, Dirname, Basename, Cut, Entries, ZeroBlock, IsDirMode, WalkSafe, Resolve, EntryReady;
    InvKeys(first, s);
    DirBlockFacts(first, s, i);
    ParentRoute(path);
    RmdirWalk(first, s, m, i, Route(path));
    NullDir(m, i, Cut(Basename(path)));
  }

  /** The parent of another released directory still has its entry. */
  lemma DirParent(first: nat, s: State, m: State, path: seq<byte>, i: nat) returns (d: nat, x: nat)
    requires RmdirReady(first, s, path, i) && !OwnParent(path) && DirReleased(s, m, i) && i > 0
    ensures ParentReady(m, path, d, x, i) && EntryOf(s, path, d, x, i) && x < N_DIRENTS
    ensures d < |s.inodes| && m.inodes[d] == s.inodes[d] && DirOf(m.inodes[d], m.disk) == DirOf(s.inodes[d], s.disk)
  {
    hide Inv, OwnParent, Route, Basename, Dirname, IsDir, DirOf, Cut, Matches, Distinct, NoEntries, WalkSafe, Find,
      Resolve, DirReleased, EntryOrNone;
    InvKeys(first, s);
    d, x := PathEntry(first, s, path);
    EntryFound(first, s, path, d, x, i);
    ParentKept(first, s, m, i, d);
    RmdirWalk(first, s, m, i, Route(Dirname(path)));
    ReleasedNodes(s, m, i);
  }

  /** The state that fs_rmdir leaves, when the path is not its own parent. */
  lemma RmdirDone(first: nat, s: State, m0: State, m: State, s': State, path: seq<byte>, d: nat, x: nat, i: nat,
                  now: u32)
    requires RmdirReady(first, s, path, i) && EntryOf(s, path, d, x, i) && !OwnParent(path)
    requires DirReleased(s, m0, i) && EntryDropped(m0, m, d, x, i, now)
    requires m0.inodes[d] == s.inodes[d] && DirOf(m0.inodes[d], m0.disk) == DirOf(s.inodes[d], s.disk)
    requires s' == m.(sh := DropNode(m.sh, i), disk := s'.disk) && SameOutside(m.disk, s'.disk, 1, first)
    ensures Inv(first, s') && NodeGone(s, s', path, d, i)
    ensures s'.used == s.used - {s.inodes[i].direct[0] as nat} && LeakedBlocks(s'.owner) == LeakedBlocks(s.owner)
    ensures RemovedInodes(s, s', d, i, now)
  {
    hide Inv, Tokens, Route, Basename, Dirname, IsDir, Cut, Matches, Distinct, NodeGone, EntryCleared, Removing,
      NoEntries, Resolve, LeakedBlocks, SameOutside, OwnParent;
    var s1 := m.(sh := DropNode(m.sh, i));
    RmdirRemoves(first, s, m0, m, path, d, x, i, now);
    RmdirBlocks(first, s, m0, m, d, x, i, now);
    RemoveSummary(first, s, s1, path, d, x, i);
    GoneMeta(first, s, s1, s'.disk, path, d, i);
    ReleasedNodes(s, m0, i);
    DropEntries(first, m0, m, s1, s'.disk, d, x, i, now);
  }

  /** No consistent state has this disk, this inode table and these inodes in use. */
  ghost predicate Broken(first: nat, s: State) {
    forall t: State :: t.disk == s.disk && t.inodes == s.inodes && t.live == s.live ==> !Inv(first, t)
  }

  /** A directory that was released while its path still leads to it: whatever owners and places are chosen, the state
      is not consistent. */
  lemma OrphanBreaks(first: nat, s: State, m: State, s': State, path: seq<byte>, i: nat)
    requires RmdirReady(first, s, path, i) && DirReleased(s, m, i) && i > 0
    requires s'.inodes == m.inodes && s'.live == m.live && SameOutside(m.disk, s'.disk, 1, first)
    ensures Broken(first, s')
  {
    hide Inv, Route, OwnParent, IsDirMode, DirOf, NoEntries, WalkSafe, ZeroBlock, FilesOk, TreeOk, Resolve, Entries;
    RmdirWalk(first, s, m, i, Route(path));
    forall t: State | t.disk == s'.disk && t.inodes == s'.inodes && t.live == s'.live
      ensures !Inv(first, t)
    {
      if Inv(first, t) {
        FindMeta(first, t, m.disk, Route(path));
        InvTree(first, t);
        FindLive(TreeOf(t), Route(path));
        InvKeys(first, t);
        assert false;
      }
    }
  }

  /** The part of fs_rmdir after its checks. */
  method RmdirNode(v: Volume, path: seq<byte>, inum: nat, fd: array<Dirent>, now: u32) returns (ghost d: nat)
    requires Valid(v) && inum > 0 && RmdirReady(v.sb.First(), StateOf(v), path, inum)
    requires fd.Length == N_DIRENTS && fd !in v.Arrays()
    modifies v`used, v`live, v`owner, v`shadow, v.inodeMap, v.blockMap, v.inodes, v.disk, fd
    ensures v.Synced()
    ensures OwnParent(path) ==> Broken(v.sb.First(), StateOf(v))
    ensures !OwnParent(path) ==> Valid(v) && NodeGone(old(StateOf(v)), StateOf(v), path, d, inum)
    ensures !OwnParent(path) ==> v.used == old(v.used) - {old(v.inodes[inum].direct[0]) as nat}
    ensures !OwnParent(path) ==> LeakedBlocks(v.owner) == LeakedBlocks(old(v.owner))
    ensures !OwnParent(path) ==> RemovedInodes(old(StateOf(v)), StateOf(v), d, inum, now)
    ensures v.disk.Length > 0 && v.disk[0] == old(v.disk[0])
  {
    hide Valid, Inv, OwnParent, Route, Basename, Dirname, IsDir, DirOf, Cut, NodeGone, EntryDropped, EntryOf,
      EntryReady, NoEntries, RemovedInodes, Volume.DiskOk, Holds, SuperOf, WalkSafe, Resolve, LeakedBlocks,
      DirReleased, FromByte, Volume.MapsOk, StandsFor, Broken, Entries;
    ghost var s, first := StateOf(v), v.sb.First();
    ValidParts(v);
    DiskFacts(v);
    ReleaseDir(v, inum);
    ghost var m0 := StateOf(v);
    ghost var x := N_DIRENTS;
    d := inum;
    if OwnParent(path) {
      OwnParentReady(first, s, m0, path, inum);
    } else {
      d, x := DirParent(first, s, m0, path, inum);
    }
    var parent, leaf := SplitPath(path);
    var dir := Translate(v, parent);
    RmdirEntry(v, fd, dir, leaf, now, x, inum);
    ghost var m := StateOf(v);
    if x < N_DIRENTS { v.shadow := DropNode(v.shadow, inum); }
    UpdateDisk(v);
    if x < N_DIRENTS {
      RmdirDone(first, s, m0, m, StateOf(v), path, d, x, inum, now);
      ValidFrom(v);
    } else {
      OrphanBreaks(first, s, m0, StateOf(v), path, inum);
    }
  }

  /** The entries of a directory, and whether all are invalid. */
  method ReadEntries(v: Volume, inum: nat) returns (fd: array<Dirent>, empty: bool)
    requires Valid(v) && inum in v.shadow.trees && inum < v.inodes.Length && IsDir(v.inodes[inum])
    ensures fresh(fd) && fd.Length == N_DIRENTS && fd[..] == DirOf(v.inodes[inum], v.disk[..])
    ensures empty <==> NoEntries(fd[..])
  {
    hide Valid, Inv, IsDir, Entries, FromByte, SuperOf;
    ValidParts(v);
    DirBlockFacts(v.sb.First(), StateOf(v), inum);
    fd := new Dirent[N_DIRENTS](_ => Dirent(false, false, 0, seq(NAME_SIZE, _ => 0)));
    ReadDir(v, fd, v.inodes[inum].direct[0]);
    empty := AllInvalid(fd);
  }

  /** fs_rmdir. It removes the directory, unless the path is its own parent: then no consistent state is left. */
  method FsRmdir(v: Volume, path: seq<byte>, now: u32) returns (r: int, ghost d: nat)
    requires Valid(v) && 0 !in path
    requires OwnParent(path) && RmdirResult(StateOf(v), path) == 0 ==> NoEntries(Entries(v.disk[0]))
    modifies v`used, v`live, v`owner, v`shadow, v.inodeMap, v.blockMap, v.inodes, v.disk
    ensures r == RmdirResult(old(StateOf(v)), path)
    ensures r != 0 ==> Valid(v) && StateOf(v) == old(StateOf(v))
    ensures r == 0 ==> v.Synced() && PathInode(old(StateOf(v)), path) > 0 && (Valid(v) <==> !OwnParent(path))
    ensures r == 0 && OwnParent(path) ==> Broken(v.sb.First(), StateOf(v))
    ensures r == 0 && Valid(v) ==> NodeGone(old(StateOf(v)), StateOf(v), path, d, PathInode(old(StateOf(v)), path))
    ensures r == 0 && Valid(v) ==> RemovedInodes(old(StateOf(v)), StateOf(v), d, PathInode(old(StateOf(v)), path), now)
    ensures r == 0 && Valid(v) ==> v.used == old(v.used) - Footprint(old(v.owner), PathInode(old(StateOf(v)), path))
    ensures r == 0 && Valid(v) ==> LeakedBlocks(v.owner) == LeakedBlocks(old(v.owner))
    ensures v.disk.Length > 0 && v.disk[0] == old(v.disk[0])
    ensures var s, i := old(StateOf(v)), PathInode(old(StateOf(v)), path);
      && (r == 0 <==> DirAt(s, i) && forall x :: 0 <= x < N_DIRENTS ==> !DirOf(s.inodes[i], s.disk)[x].valid)
      && (r == -ENOTEMPTY <==> DirAt(s, i) && exists x :: 0 <= x < N_DIRENTS && DirOf(s.inodes[i], s.disk)[x].valid)
      && (r == -ENOTDIR <==> i == -ENOTDIR || FileAt(s, i)) && (r == -ENOENT <==> i == -ENOENT)
  {
    hide Valid, Inv, OwnParent, Route, Resolve, WalkSafe, IsDir, NodeGone, RemovedInodes, Holds, LeakedBlocks,
      Footprint, NoEntries, DirOf, FromByte, Entries, Broken, Volume.MapsOk, SuperOf;
    d := 0;
    ghost var s := StateOf(v);
    ValidParts(v);
    DiskFacts(v);
    FileCodes(v, path);
    EmptyIs(s, path);
    var inum := Translate(v, path);
    if inum < 0 { return inum, d; }
    if !IsDir(v.inodes[inum]) { return -ENOTDIR, d; }
    var fd, empty := ReadEntries(v, inum);
    if !empty { return -ENOTEMPTY, d; }
    DirFootprint(v.sb.First(), s, inum);
    assert RmdirReady(v.sb.First(), s, path, inum);
    d := RmdirNode(v, path, inum, fd, now);
    if OwnParent(path) { BrokenInvalid(v); }
    return 0, d;
  }

  lemma EmptyIs(s: State, path: seq<byte>)
    ensures var i := PathInode(s, path); DirAt(s, i) ==>
      (NoEntries(DirOf(s.inodes[i], s.disk)) <==>
        forall x :: 0 <= x < N_DIRENTS ==> !DirOf(s.inodes[i], s.disk)[x].valid)
  {
    hide Resolve, Route, Entries, IsDir;
  }

  lemma BrokenInvalid(v: Volume)
    requires Broken(v.sb.First(), StateOf(v))
    ensures !Valid(v)
  {
    hide Inv, SuperOf, Volume.MapsOk;
  }
}
