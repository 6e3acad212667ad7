/** fs_unlink, and what it shares with fs_rmdir. */
module Unlinking {
  import opened Bytes
  import opened Codec
  import opened FileTrees
  import opened Volumes
  import opened Consistency
  import opened Mounted
  import opened Truncating
  import opened Paths
  import opened Names
  import opened NameChanges
  import opened DirSteps
  import opened DirOps
  import opened FileCalls

  // ---- the entry of a path ---------------------------------------------------------------------------

  /** Entry x of directory d, the parent of the path, has the path's leaf as its name and is that of inode i. */
  ghost predicate EntryOf(s: State, path: seq<byte>, d: nat, x: nat, i: nat) {
    && d == PathInode(s, Dirname(path)) && d in s.sh.trees && d < |s.inodes| && IsDir(s.inodes[d]) && d > 0
    && i in s.sh.place && s.sh.place[i] == Place(d, x) && i in s.sh.trees && i < |s.inodes| && i != d && i > 0
    && x < N_DIRENTS && Matches(DirOf(s.inodes[d], s.disk)[x], Cut(Basename(path)))
    && DirOf(s.inodes[d], s.disk)[x].inode == i && Distinct(DirOf(s.inodes[d], s.disk))
  }

  /** What the parent and the leaf of a path lead to has an entry in the parent. */
  lemma NamedEntry(first: nat, s: State, path: seq<byte>) returns (d: nat, x: nat)
    requires Inv(first, s) && Find(TreeOf(s), EntryRoute(path)) > 0
    ensures EntryOf(s, path, d, x, Find(TreeOf(s), EntryRoute(path)))
  {
    hide Inv, Tokens, Route, Basename, Dirname, IsDir, DirOf, Cut, Matches, LookupOf, BlocksOk, FilesOk, InodesOk;
    InvTree(first, s);
    var n := TreeOf(s);
    var p, leaf := EntryRoute(path), Cut(Basename(path));
    assert p[..|p| - 1] == Route(Dirname(path)) && p[|p| - 1] == leaf;
    FindStep(n, p);
    d := PathInode(s, Dirname(path));
    StepPlace(n, d, leaf);
    x := s.sh.place[Find(n, p)].slot;
    DirDistinct(n, d);
  }

  /** A path that resolves has an entry in its parent, unless it is its own parent. */
  lemma PathEntry(first: nat, s: State, path: seq<byte>) returns (d: nat, x: nat)
    requires Inv(first, s) && 0 !in path && !OwnParent(path) && PathInode(s, path) > 0
    ensures EntryOf(s, path, d, x, PathInode(s, path))
  {
    hide Inv, Route, EntryRoute, OwnParent, EntryOf, Find;
    ParentRoute(path);
    d, x := NamedEntry(first, s, path);
  }

  lemma DirDistinct(n: NameTree, d: nat)
    requires TreeOk(n) && d in n.nodes && d < |n.inodes| && IsDir(n.inodes[d])
    ensures Distinct(Dir(n, d))
  {
    hide DirOf, IsDir;
    assert DirOk(d, Dir(n, d), n.place);
  }

  // ---- the loop that clears the entry -----------------------------------------------------------------

  /** Entry x of directory d, for inode i, has been cleared, and the inode freed. */
  ghost predicate EntryDropped(s: State, m: State, d: nat, x: nat, i: nat, now: u32) {
    && d < |s.inodes| && |m.inodes| == |s.inodes| && EntryCleared(s.inodes[d], s.disk, m.disk, x, {})
    && m.inodes == s.inodes[d := s.inodes[d].(mtime := now)]
    && m.used == s.used && m.owner == s.owner && m.live == s.live - {i} && m.sh == s.sh
  }

  /** The entries es have, at place x, the only entry with the name leaf, for inode i; or, if x is 32, no entry with
      that name. */
  ghost predicate EntryOrNone(es: Dirents, leaf: Name, x: nat, i: nat) {
    if x < N_DIRENTS then Distinct(es) && Matches(es[x], leaf) && es[x].inode == i
    else x == N_DIRENTS && forall k :: 0 <= k < N_DIRENTS ==> !Matches(es[k], leaf)
  }

  /** The loop acts on entry x only. */
  lemma OnlyMatch(es: Dirents, fd: Dirents, leaf: Name, x: nat, i: nat, k: nat)
    requires EntryOrNone(es, leaf, x, i) && k < N_DIRENTS
    requires fd == (if k <= x then es else es[x := es[x].(valid := false)])
    ensures (fd[k].valid && CStr(fd[k].name) == leaf) <==> k == x
    ensures k == x ==> fd[k].inode == i
  {
  }

  /** The block that the loop over the entries reads as a directory, that of inode d, can be read and, if it has the
      entry, written. */
  ghost predicate EntryReady(s: State, d: nat, leaf: Name, x: nat, i: nat) {
    && d < |s.inodes| && i < |s.inodes| && s.inodes[d].direct[0] < |s.disk|
    && EntryOrNone(DirOf(s.inodes[d], s.disk), leaf, x, i)
    && (x < N_DIRENTS ==> s.inodes[d].direct[0] in s.used && 0 < s.inodes[d].direct[0])
  }

  lemma ReadyBound(s: State, d: nat, leaf: Name, x: nat, i: nat)
    requires EntryReady(s, d, leaf, x, i)
    ensures x <= N_DIRENTS
  {
    hide DirOf, Matches, Distinct;
  }

  /** The body of the loop over the entries, on the matching one. */
  method ClearEntry(v: Volume, inum: nat, fd: array<Dirent>, k: nat, now: u32)
    requires v.DiskOk() && inum < v.inodes.Length && k < N_DIRENTS
    requires v.inodes[inum].direct[0] in v.used && 0 < v.inodes[inum].direct[0] < v.disk.Length
    requires fd.Length == N_DIRENTS && fd !in v.Arrays() && fd[..] == DirOf(v.inodes[inum], v.disk[..])
    requires fd[k].inode < v.inodes.Length
    modifies v`live, v.inodeMap, v.inodes, v.disk, fd
    ensures v.DiskOk()
    ensures fd[..] == old(fd[..])[k := old(fd[k]).(valid := false)]
    ensures EntryDropped(old(StateOf(v)), StateOf(v), inum, k, old(fd[k]).inode, now)
    ensures v.disk[0] == old(v.disk[0])
  {
    hide Volume.DiskOk, Entries;
    DiskFacts(v);
    fd[k] := fd[k].(valid := false);
    WriteDir(v, fd, v.inodes[inum].direct[0]);
    UnmarkInode(v, fd[k].inode);
    v.inodes[inum] := v.inodes[inum].(mtime := now);
  }

  /** The loop of fs_unlink over the entries of the parent: the one entry with the name is cleared, and the disk
      updated. The state between the two is m. */
  method UnlinkEntry(v: Volume, inum: nat, leaf: Name, now: u32, ghost x: nat, ghost i: nat) returns (ghost m: State)
    requires v.DiskOk() && EntryReady(StateOf(v), inum, leaf, x, i)
    modifies v`live, v.inodeMap, v.inodes, v.disk
    ensures v.DiskOk() && v.disk.Length > 0 && v.disk[0] == old(v.disk[0])
    ensures old(v.Synced()) || x < N_DIRENTS ==> v.Synced()
    ensures x < N_DIRENTS ==> EntryDropped(old(StateOf(v)), m, inum, x, i, now)
    ensures StateOf(v) == m.(disk := v.disk[..]) && SameOutside(m.disk, v.disk[..], 1, v.sb.First())
    ensures x == N_DIRENTS ==> StateOf(v) == old(StateOf(v))
  {
    hide Volume.DiskOk, DirOf, EntryDropped, EntryOrNone, Holds, FromByte, SuperOf, Volume.MapsOk;
    ghost var s, first := StateOf(v), v.sb.First();
    m := s;
    DiskFacts(v);
    var fd := new Dirent[N_DIRENTS](_ => Dirent(false, false, 0, seq(NAME_SIZE, _ => 0)));
    ghost var es := DirOf(v.inodes[inum], v.disk[..]);
    ReadDir(v, fd, v.inodes[inum].direct[0]);
    assert fd[..] == es by { DirIs(v.inodes[inum], v.disk[..]); }
    var k := 0;
    while k < N_DIRENTS
      invariant 0 <= k <= N_DIRENTS && v.DiskOk() && v.disk[0] == s.disk[0]
      invariant k <= x ==> StateOf(v) == s && m == s && fd[..] == es
      invariant k <= x && old(v.Synced()) ==> v.Synced()
      invariant k > x ==> fd[..] == es[x := es[x].(valid := false)] && v.Synced()
      invariant k > x ==> EntryDropped(s, m, inum, x, i, now)
      invariant k > x ==> StateOf(v) == m.(disk := v.disk[..]) && SameOutside(m.disk, v.disk[..], 1, first)
    {
      OnlyMatch(es, fd[..], leaf, x, i, k);
      if fd[k].valid && CStr(fd[k].name) == leaf {
        ClearEntry(v, inum, fd, k, now);
        m := StateOf(v);
        UpdateDisk(v);
      }
      k := k + 1;
    }
  }

  lemma DirIs(nd: Inode, disk: seq<Block>)
    requires nd.direct[0] < |disk|
    ensures DirOf(nd, disk) == Entries(disk[nd.direct[0]])
  {
    hide Entries;
  }

  /** The loop finds the entry of a path. */
  lemma EntryFound(first: nat, s: State, path: seq<byte>, d: nat, x: nat, i: nat)
    requires Inv(first, s) && EntryOf(s, path, d, x, i)
    ensures EntryReady(s, d, Cut(Basename(path)), x, i)
  {
    hide Inv, IsDir, DirOf, Basename, Dirname, Cut, Matches, Distinct, Find, Route;
    InvKeys(first, s);
    DirBlockFacts(first, s, d);
  }

  /** Read through a null pointer, block 0 has no entry of any name. */
  lemma NullDir(s: State, d: nat, leaf: Name)
    requires d < |s.inodes| && s.inodes[d].direct[0] == 0 && |s.disk| > 0 && NoEntries(Entries(s.disk[0]))
    ensures EntryReady(s, d, leaf, N_DIRENTS, d)
  {
    hide Entries;
  }

  // ---- what a removal does ------------------------------------------------------------------------------

  /** What fs_unlink and fs_rmdir have done: the path and everything below it lead nowhere, all other paths lead
      where they led, and inode i is free; nothing has changed in the others but the entries of the parent. */
  ghost predicate NodeGone(s: State, s': State, path: seq<byte>, d: nat, i: nat) {
    && d == PathInode(s, Dirname(path)) && i == PathInode(s, path) && i in s.sh.trees && i < |s.inodes|
    && s'.sh.trees.Keys == s.sh.trees.Keys - {i} && s'.live == s.live - {i}
    && (forall q: seq<Name> :: Find(TreeOf(s'), q) == AfterRemove(TreeOf(s), Route(path), q))
    && SameBut(s, s', {d, i}) && Aside(s, s', d, i)
  }

  lemma RemovedPaths(s: State, s': State, d: nat, x: nat, i: nat, leaf: Name, p0: seq<Name>)
    requires Removed(TreeOf(s), TreeOf(s'), d, x, i, leaf) && Find(TreeOf(s), p0) == d
    ensures forall q: seq<Name> :: Find(TreeOf(s'), q) == AfterRemove(TreeOf(s), p0 + [leaf], q)
  {
    hide Removed, Find, AfterRemove;
    forall q: seq<Name> ensures Find(TreeOf(s'), q) == AfterRemove(TreeOf(s), p0 + [leaf], q) {
      FindRemoved(TreeOf(s), TreeOf(s'), d, x, i, leaf, p0, q);
    }
  }

  lemma RemoveModes(s: State, s': State, d: nat, x: nat, i: nat, leaf: Name)
    requires Removing(s, s', d, x, i, leaf)
    ensures forall j :: j in s.sh.trees && j !in {i} && j < |s.inodes| && j < |s'.inodes| ==>
      s'.inodes[j].mode == s.inodes[j].mode
  {
    hide RemoveReady, EntryCleared, DropNode, Footprint;
  }

  lemma RemoveSame(first: nat, s: State, s': State, d: nat, x: nat, i: nat, leaf: Name)
    requires Inv(first, s) && Removing(s, s', d, x, i, leaf) && DirStep(s, s', d, {i}, {})
    ensures SameBut(s, s', {d, i}) && Aside(s, s', d, i)
  {
    hide Inv, Removing, DirStep, SameBut, Aside, BlocksOk, FilesOk;
    InvTree(first, s);
    RemoveModes(s, s', d, x, i, leaf);
    DirStepSame(s, s', d, {i}, {});
    assert {i} + {d} == {d, i} && {i} + {} == {i};
    StepAside(s, s', d, i, {i}, {});
  }

  lemma RemoveSummary(first: nat, s: State, s': State, path: seq<byte>, d: nat, x: nat, i: nat)
    requires Inv(first, s) && EntryOf(s, path, d, x, i) && i == PathInode(s, path)
    requires Removing(s, s', d, x, i, Cut(Basename(path))) && 0 !in path && !OwnParent(path)
    ensures Inv(first, s') && NodeGone(s, s', path, d, i)
  {
    hide Inv, Removing, Removed, DirStep, Find, Route, Basename, Dirname, Cut, SameBut, Aside, IsDir, DirOf, Matches,
      Distinct, RemoveReady, AfterRemove, OwnParent;
    ParentRoute(path);
    RemoveKeepsInv(first, s, s', d, x, i, Cut(Basename(path)));
    RemovedPaths(s, s', d, x, i, Cut(Basename(path)), Route(Dirname(path)));
    RemovingParts(s, s', d, x, i, Cut(Basename(path)));
    RemoveSame(first, s, s', d, x, i, Cut(Basename(path)));
  }

  lemma GoneMeta(first: nat, s: State, s': State, disk: seq<Block>, path: seq<byte>, d: nat, i: nat)
    requires Inv(first, s') && NodeGone(s, s', path, d, i) && SameOutside(s'.disk, disk, 1, first)
    ensures Inv(first, s'.(disk := disk)) && NodeGone(s, s'.(disk := disk), path, d, i)
  {
    hide Inv, Find, Aside, FileContents.FileData, Route, Dirname, SameOutside, AfterRemove, IsDir;
    MetaKeepsInv(first, s', disk);
    FindMetaAll(first, s', disk);
    AsideMeta(first, s, s', disk, d, i);
  }

  /** The entries of directory d are those that it had, but for entry x, which is cleared. */
  ghost predicate EntryGone(s: State, s': State, d: nat, x: nat) {
    && d < |s.inodes| && d < |s'.inodes| && x < N_DIRENTS
    && (var es := DirOf(s.inodes[d], s.disk); DirOf(s'.inodes[d], s'.disk) == es[x := es[x].(valid := false)])
  }

  lemma DropEntries(first: nat, s: State, m: State, s1: State, disk: seq<Block>, d: nat, x: nat, i: nat, now: u32)
    requires EntryDropped(s, m, d, x, i, now) && s1 == m.(sh := s1.sh) && Inv(first, s1)
    requires d in s.sh.trees && d != i && d < |s.inodes| && IsDir(s.inodes[d]) && SameOutside(m.disk, disk, 1, first)
    requires s1.sh.trees.Keys == s.sh.trees.Keys - {i}
    ensures EntryGone(s, s1.(disk := disk), d, x) && s1.inodes == s.inodes[d := s.inodes[d].(mtime := now)]
  {
    hide Inv, Entries, IsDirMode, BlocksOk, Table, FilesOk, NamesOk;
    InvTree(first, s1);
    MetaDirs(first, s1, disk);
  }

  // ---- fs_unlink -------------------------------------------------------------------------------------------

  /** The entry of a file without blocks has been dropped: that is the removal of the file. */
  lemma DropRemoves(first: nat, s: State, m: State, path: seq<byte>, d: nat, x: nat, i: nat, now: u32)
    requires Inv(first, s) && EntryOf(s, path, d, x, i) && EntryDropped(s, m, d, x, i, now)
    requires !IsDir(s.inodes[i]) && NullInode(s.inodes[i]) && Footprint(s.owner, i) == {}
    ensures Removing(s, m.(sh := DropNode(m.sh, i)), d, x, i, Cut(Basename(path)))
  {
    hide Inv, IsDir, DirOf, Matches, Distinct, Find, Route, Basename, Dirname, Cut, Entries, Footprint;
    assert m.used - {} == m.used && m.owner - {} == m.owner;
  }

  /** Truncating a file and then dropping it removes it. */
  lemma TruncateThenGone(first: nat, s: State, s1: State, s2: State, path: seq<byte>, d: nat, i: nat)
    requires Inv(first, s) && i == PathInode(s, path) && i in s.sh.trees && i < |s.inodes|
    requires FileStep(s, s1, i) && SameFiles(s, s1, i) && SamePaths(s, s1) && NodeGone(s1, s2, path, d, i)
    ensures NodeGone(s, s2, path, d, i)
  {
    hide Inv, Find, Route, Dirname, FileContents.FileData, IsDir, FileStep, Aside;
    StepNodes(s, s1, i);
    FileAside(s, s1, d, i);
    AsideChain(s, s1, s2, d, i);
    forall q: seq<Name> ensures Find(TreeOf(s2), q) == AfterRemove(TreeOf(s), Route(path), q) {
      assert Find(TreeOf(s1), q) == Find(TreeOf(s), q);
    }
  }

  lemma StepNodes(s: State, s': State, i: nat)
    requires FileStep(s, s', i)
    ensures s'.sh.trees.Keys == s.sh.trees.Keys && s'.live == s.live && |s'.inodes| == |s.inodes|
    ensures !IsDir(s'.inodes[i])
  {
    hide IsDir;
  }

  /** What fs_unlink has done on success: the file is gone, its blocks are free again as far as fs_truncate reaches,
      and the others have leaked. */
  ghost predicate Unlinked(s: State, s': State, path: seq<byte>, d: nat, i: nat) {
    && NodeGone(s, s', path, d, i)
    && s'.used == s.used - ClearedBlocks(s.owner, i)
    && LeakedBlocks(s'.owner) == LeakedBlocks(s.owner) + (Footprint(s.owner, i) - ClearedBlocks(s.owner, i))
  }

  /** A path to a regular file that has at most ten components is not its own parent. */
  lemma FilePath(first: nat, s: State, path: seq<byte>, i: nat)
    requires Inv(first, s) && i == PathInode(s, path) && i < |s.inodes| && !IsDir(s.inodes[i])
    ensures OwnParent(path) <==> |Tokens(path)| > MAX_PATH_LEN
  {
    hide FilesOk, InodesOk, BlocksOk, IsDir, Route;
  }

  /** What the last part of fs_unlink has done on file i: its entry in directory d is gone. */
  ghost predicate Dropped(s: State, s': State, path: seq<byte>, d: nat, i: nat, now: u32) {
    && NodeGone(s, s', path, d, i) && d < |s.inodes| && s'.inodes == s.inodes[d := s.inodes[d].(mtime := now)]
    && i in s.sh.place && EntryGone(s, s', d, s.sh.place[i].slot)
  }

  lemma DropDone(first: nat, s: State, m: State, s': State, path: seq<byte>, d: nat, x: nat, i: nat, now: u32)
    requires Inv(first, s) && EntryOf(s, path, d, x, i) && i == PathInode(s, path) && 0 !in path && !OwnParent(path)
    requires EntryDropped(s, m, d, x, i, now) && SameOutside(m.disk, s'.disk, 1, first)
    requires !IsDir(s.inodes[i]) && NullInode(s.inodes[i]) && Footprint(s.owner, i) == {}
    requires s' == m.(sh := DropNode(m.sh, i), disk := s'.disk)
    ensures Inv(first, s') && Dropped(s, s', path, d, i, now)
  {
    hide Inv, OwnParent, Basename, Dirname, IsDir, DirOf, Cut, Matches, Distinct, Removing, Resolve, Footprint, Route,
      SameOutside, NullInode, EntryCleared, SameBut, Aside, AfterRemove;
    var s1 := m.(sh := DropNode(m.sh, i));
    DropRemoves(first, s, m, path, d, x, i, now);
    RemoveSummary(first, s, s1, path, d, x, i);
    DropEntries(first, s, m, s1, s'.disk, d, x, i, now);
    GoneMeta(first, s, s1, s'.disk, path, d, i);
  }

  /** The last part of fs_unlink, on a file that has been truncated. A path of more than ten components is its own
      parent, so that the entry is looked for in block 0. */
  method DropEntry(v: Volume, path: seq<byte>, now: u32, ghost i: nat) returns (ghost d: nat)
    requires Valid(v) && 0 !in path && i == PathInode(StateOf(v), path) && Footprint(v.owner, i) == {}
    requires i in v.shadow.trees && i < v.inodes.Length && !IsDir(v.inodes[i]) && NullInode(v.inodes[i])
    requires |Tokens(path)| > MAX_PATH_LEN ==> NoEntries(Entries(v.disk[0]))
    modifies v`live, v`shadow, v.inodeMap, v.inodes, v.disk
    ensures Valid(v) && (old(v.Synced()) ==> v.Synced())
    ensures |Tokens(path)| <= MAX_PATH_LEN ==> Dropped(old(StateOf(v)), StateOf(v), path, d, i, now)
    ensures |Tokens(path)| > MAX_PATH_LEN ==> StateOf(v) == old(StateOf(v))
    ensures v.disk.Length > 0 && v.disk[0] == old(v.disk[0])
  {
    hide Valid, Inv, Tokens, Route, Basename, Dirname, IsDir, DirOf, Cut, EntryDropped, EntryReady, EntryOf, Dropped,
      Volume.DiskOk, Holds, SuperOf, WalkSafe, Resolve, Footprint, OwnParent, Entries, NoEntries, FromByte;
    ghost var s, first := StateOf(v), v.sb.First();
    ValidParts(v);
    DiskFacts(v);
    InvKeys(first, s);
    FilePath(first, s, path, i);
    ghost var x := N_DIRENTS;
    d := i;
    if !OwnParent(path) {
      d, x := PathEntry(first, s, path);
      EntryParts(s, path, d, x, i);
      EntryFound(first, s, path, d, x, i);
    } else {
      ParentRoute(path);
      NullDir(s, i, Cut(Basename(path)));
    }
    var parent, leaf := SplitPath(path);
    var inum := Translate(v, parent);
    ghost var m := UnlinkEntry(v, inum, leaf, now, x, i);
    if x < N_DIRENTS {
      v.shadow := DropNode(v.shadow, i);
      DropDone(first, s, m, StateOf(v), path, d, x, i, now);
    }
    ValidFrom(v);
  }

  lemma EntryParts(s: State, path: seq<byte>, d: nat, x: nat, i: nat)
    requires EntryOf(s, path, d, x, i)
    ensures d == PathInode(s, Dirname(path)) && x < N_DIRENTS && d < |s.inodes| && i < |s.inodes|
  {
    hide DirOf, IsDir, Matches, Distinct, Find, Basename, Dirname, Cut;
  }

  /** What fs_unlink leaves in the inode table and in the parent directory. */
  ghost predicate UnlinkedInodes(s: State, s': State, d: nat, i: nat, now: u32, later: u32) {
    && d < |s.inodes| && i < |s.inodes| && i in s.sh.place && EntryGone(s, s', d, s.sh.place[i].slot)
    && s'.inodes == s.inodes[i := Emptied(s.inodes[i], now)][d := s.inodes[d].(mtime := later)]
  }

  lemma UnlinkInodes(first: nat, s: State, s1: State, s': State, d: nat, i: nat, now: u32, later: u32)
    requires Inv(first, s) && FileStep(s, s1, i) && s1.inodes[i] == Emptied(s.inodes[i], now)
    requires d < |s1.inodes| && s'.inodes == s1.inodes[d := s1.inodes[d].(mtime := later)] && IsDir(s.inodes[d])
    requires d in s.sh.trees
    requires i in s1.sh.place && EntryGone(s1, s', d, s1.sh.place[i].slot)
    ensures UnlinkedInodes(s, s', d, i, now, later)
  {
    hide Inv, Entries, IsDirMode, BlocksOk, FilesOk, NamesOk;
    InvTree(first, s);
    StepDirs(s, s1, i);
  }

  /** What fs_unlink does on success: it removes file i, or, if the path has more than ten components, just empties
      it. */
  ghost predicate UnlinkDone(s: State, s': State, path: seq<byte>, d: nat, i: int, now: u32, later: u32) {
    if |Tokens(path)| <= MAX_PATH_LEN
    then i > 0 && Unlinked(s, s', path, d, i) && UnlinkedInodes(s, s', d, i, now, later)
    else OnlyTruncated(s, s', i) && s'.inodes == s.inodes[i := Emptied(s.inodes[i], now)]
  }

  /** fs_unlink. The path is gone exactly if it has at most ten components. */
  method FsUnlink(v: Volume, path: seq<byte>, now: u32, later: u32) returns (r: int, ghost d: nat)
    requires Valid(v) && 0 !in path && (|Tokens(path)| > MAX_PATH_LEN ==> NoEntries(Entries(v.disk[0])))
    modifies v`used, v`live, v`owner, v`shadow, v.inodeMap, v.blockMap, v.disk, v.inodes
    ensures Valid(v)
    ensures r == FileCheck(old(StateOf(v)), path)
    ensures r != 0 ==> StateOf(v) == old(StateOf(v))
    ensures r == 0 ==> v.Synced() &&
                       UnlinkDone(old(StateOf(v)), StateOf(v), path, d, PathInode(old(StateOf(v)), path), now, later)
    ensures r == 0 ==> (PathInode(StateOf(v), path) <= 0 <==> |Tokens(path)| <= MAX_PATH_LEN)
    ensures v.disk.Length > 0 && v.disk[0] == old(v.disk[0])
    ensures var s, i := old(StateOf(v)), PathInode(old(StateOf(v)), path);
      && (r == 0 <==> FileAt(s, i)) && (r == -EISDIR <==> DirAt(s, i))
      && (r == -ENOENT <==> i == -ENOENT) && (r == -ENOTDIR <==> i == -ENOTDIR)
  {
    hide Valid, Inv, Tokens, Route, Find, SameFiles, SamePaths, FileStep, NodeGone, Holds, LeakedBlocks, Footprint,
      ClearedBlocks, IsDir, FromByte, SuperOf, BlocksOk, Contents, Entries, NoEntries;
    ghost var s := StateOf(v);
    ValidParts(v);
    DiskFacts(v);
    d := 0;
    r := FsTruncate(v, path, 0, now);
    if r < 0 { return; }
    ghost var i, s1 := PathInode(s, path), StateOf(v);
    StepNodes(s, s1, i);
    SamePathInode(s, s1, path);
    d := DropEntry(v, path, later, i);
    if |Tokens(path)| <= MAX_PATH_LEN {
      TruncateThenGone(v.sb.First(), s, s1, StateOf(v), path, d, i);
      ParentIsDir(v.sb.First(), s, s1, StateOf(v), path, i, d, later);
      UnlinkInodes(v.sb.First(), s, s1, StateOf(v), d, i, now, later);
      PathGone(s, StateOf(v), path, d, i);
    }
  }

  lemma PathGone(s: State, s': State, path: seq<byte>, d: nat, i: nat)
    requires NodeGone(s, s', path, d, i)
    ensures PathInode(s', path) == -ENOENT
  {
    hide Find, Route, SameBut, Aside;
    assert Find(TreeOf(s'), Route(path)) == AfterRemove(TreeOf(s), Route(path), Route(path));
  }

  /** The parent of the path is a directory. */
  lemma ParentIsDir(first: nat, s: State, s1: State, s': State, path: seq<byte>, i: nat, d: nat, now: u32)
    requires Inv(first, s) && 0 !in path && |Tokens(path)| <= MAX_PATH_LEN && i == PathInode(s, path) && i > 0
    requires i < |s.inodes| && !IsDir(s.inodes[i]) && SamePaths(s, s1) && Dropped(s1, s', path, d, i, now)
    ensures d in s.sh.trees && d < |s.inodes| && IsDir(s.inodes[d])
  {
    hide Inv, Tokens, Route, Basename, Dirname, Cut, Matches, Distinct, Find, IsDir, DirOf, Aside, SameBut,
      AfterRemove, EntryGone;
    FilePath(first, s, path, i);
    var e, x := PathEntry(first, s, path);
  }

  lemma SamePathInode(s: State, s': State, path: seq<byte>)
    requires SamePaths(s, s')
    ensures PathInode(s', path) == PathInode(s, path)
  {
  }
}
