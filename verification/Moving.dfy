/** fs_rename. */
module Moving {
  import opened Bytes
  import opened Codec
  import opened FileTrees
  import opened Volumes
  import opened Consistency
  import opened Mounted
  import FileContents
  import opened Paths
  import opened Names
  import opened NameChanges
  import opened DirSteps
  import opened DirOps
  import opened FileCalls
  import opened Unlinking

  /** The inode whose entry fs_rename changes: the one with the leaf of src in the parent of src. */
  ghost function Source(s: State, src: seq<byte>): int {
    Find(TreeOf(s), EntryRoute(src))
  }

  /** The parent of src is a directory. */
  ghost predicate SourceInDir(s: State, src: seq<byte>) {
    var d := PathInode(s, Dirname(src));
    0 < d < |s.inodes| && d in s.sh.trees && IsDir(s.inodes[d])
  }

  /** The code does not check that, but it is so if src has at most ten components, or leads to a directory. */
  lemma SourceDir(first: nat, s: State, src: seq<byte>)
    requires Inv(first, s) && 0 !in src && PathInode(s, src) > 0
    ensures |Tokens(src)| <= MAX_PATH_LEN ==> SourceInDir(s, src)
    ensures |Tokens(src)| > MAX_PATH_LEN ==>
      var i := PathInode(s, src); i < |s.inodes| && (SourceInDir(s, src) <==> IsDir(s.inodes[i]))
  {
    hide Inv, Tokens, Route, Basename, Dirname, IsDir, DirOf, Cut, Matches, Distinct, FilesOk, TreeOk, Resolve,
      InodesOk, BlocksOk;
    InvTree(first, s);
    InvKeys(first, s);
    ParentRoute(src);
    FindLive(TreeOf(s), Route(src));
    if !OwnParent(src) {
      var d, x := PathEntry(first, s, src);
    } else if Route(src) == [] {
      RootDir(first, s);
    }
  }

  lemma RootDir(first: nat, s: State)
    requires Inv(first, s)
    ensures 1 in s.sh.trees && 1 < |s.inodes| && IsDir(s.inodes[1]) && Find(TreeOf(s), []) == 1
  {
    hide FilesOk, InodesOk, BlocksOk, IsDir;
  }

  /** A rename of "/" finds no entry: no name has a slash. */
  lemma RootSource(first: nat, s: State, src: seq<byte>)
    requires Inv(first, s) && src != [] && Tokens(src) == []
    ensures Source(s, src) <= 0
  {
    hide Inv, Tokens, IsDir, DirOf, FilesOk, InodesOk, BlocksOk, LookupOf;
    RootLeaf(src);
    InvTree(first, s);
    var p := EntryRoute(src);
    assert p[|p| - 1] == [SLASH];
    FindStep(TreeOf(s), p);
    if Source(s, src) > 0 {
      var d, x := NamedEntry(first, s, src);
      assert false;
    }
  }

  lemma RootLeaf(src: seq<byte>)
    requires src != [] && Tokens(src) == []
    ensures Basename(src) == [SLASH] && Cut(Basename(src)) == [SLASH]
  {
    hide Tokens;
    StripEndTokens(src);
    StripEndLast(src);
    if StripEnd(src) != [] { LastToken(StripEnd(src)); }
  }

  /** What fs_rename returns in state s. */
  ghost function RenameResult(s: State, src: seq<byte>, dst: seq<byte>): (r: int)
    ensures r <= 0
  {
    if PathInode(s, src) <= 0 then -ENOENT
    else if PathInode(s, dst) > 0 then -EEXIST
    else if PathInode(s, Dirname(src)) != PathInode(s, Dirname(dst)) then -EINVAL
    else 0
  }

  /** Where q leads once what was at p is at p' instead. */
  ghost function AfterMove(n: NameTree, p: seq<Name>, p': seq<Name>, q: seq<Name>): int {
    if p <= q then -ENOENT else if p' <= q then Find(n, p + q[|p'|..]) else Find(n, q)
  }

  /** What fs_rename has done: the inode whose entry src names is to be found, with everything under it, at dst and
      nowhere else, and no other path leads elsewhere; no block or inode was taken or freed, and only the entries of
      directory d differ. */
  ghost predicate Moved(s: State, s': State, src: seq<byte>, dst: seq<byte>, d: nat) {
    && d == PathInode(s, Dirname(src)) && EntryRoute(src) != Route(dst) && |EntryRoute(src)| == |Route(dst)|
    && (forall q: seq<Name> :: Find(TreeOf(s'), q) == AfterMove(TreeOf(s), EntryRoute(src), Route(dst), q))
    && s'.sh == s.sh && s'.live == s.live && s'.used == s.used && s'.owner == s.owner
    && SameBut(s, s', {d}) && Aside(s, s', d, 0)
  }

  // ---- the entry gets its new name ---------------------------------------------------------------------

  /** The inodes with the times of change of directory d and of the inode of its entry x set. */
  ghost function Touched(s: State, d: nat, x: nat, now: u32): seq<Inode>
    requires d < |s.inodes| && x < N_DIRENTS
  {
    var c := DirOf(s.inodes[d], s.disk)[x].inode as nat;
    (if c < |s.inodes| then s.inodes[c := s.inodes[c].(mtime := now)] else s.inodes)[d := s.inodes[d].(mtime := now)]
  }

  /** Entry x of directory d has got the name dst. */
  ghost predicate EntryMoved(s: State, m: State, d: nat, x: nat, dst: Name, now: u32) {
    && d < |s.inodes| && x < N_DIRENTS && |dst| < NAME_SIZE
    && (var e := DirOf(s.inodes[d], s.disk)[x];
        EntryWritten(s.inodes[d], s.disk, m.disk, x, e.(name := StrCpy(e.name, dst))))
    && m.inodes == Touched(s, d, x, now)
    && m.used == s.used && m.owner == s.owner && m.live == s.live && m.sh == s.sh
  }

  /** The body of the loop over the entries, on the matching one. */
  method MoveEntry(v: Volume, inum: nat, fd: array<Dirent>, k: nat, dst: Name, now: u32)
    requires v.DiskOk() && inum < v.inodes.Length && k < N_DIRENTS && GoodName(dst)
    requires v.inodes[inum].direct[0] in v.used && 0 < v.inodes[inum].direct[0] < v.disk.Length
    requires fd.Length == N_DIRENTS && fd !in v.Arrays() && fd[..] == DirOf(v.inodes[inum], v.disk[..])
    requires fd[k].inode < v.inodes.Length
    modifies v.inodes, v.disk, fd
    ensures v.DiskOk()
    ensures fd[..] == old(fd[..])[k := old(fd[k]).(name := StrCpy(old(fd[k]).name, dst))]
    ensures EntryMoved(old(StateOf(v)), StateOf(v), inum, k, dst, now)
    ensures v.disk[0] == old(v.disk[0])
  {
    hide Volume.DiskOk, Entries, StrCpy;
    DiskFacts(v);
    fd[k] := fd[k].(name := StrCpy(fd[k].name, dst));
    WriteDir(v, fd, v.inodes[inum].direct[0]);
    v.inodes[fd[k].inode] := v.inodes[fd[k].inode].(mtime := now);
    v.inodes[inum] := v.inodes[inum].(mtime := now);
  }

  /** The loop acts on entry x only. */
  lemma OnlySource(es: Dirents, fd: Dirents, src: Name, dst: Name, x: nat, i: nat, k: nat)
    requires EntryOrNone(es, src, x, i) && k < N_DIRENTS && GoodName(dst) && (x < N_DIRENTS ==> src != dst)
    requires fd == (if k <= x then es else es[x := es[x].(name := StrCpy(es[x].name, dst))])
    ensures (fd[k].valid && CStr(fd[k].name) == src) <==> k == x
    ensures k == x ==> fd[k].inode == i
  {
    if x < N_DIRENTS { StrCpyName(es[x].name, dst); }
  }

  /** The loop of fs_rename over the entries of the parent. The state between the write of the entry and update_disk is
      m. */
  method RenameEntries(v: Volume, inum: nat, src: Name, dst: Name, now: u32, ghost x: nat, ghost i: nat)
    returns (ghost m: State)
    requires v.DiskOk() && EntryReady(StateOf(v), inum, src, x, i) && GoodName(dst) && (x < N_DIRENTS ==> src != dst)
    modifies v.inodes, v.disk
    ensures v.DiskOk() && v.disk.Length > 0 && v.disk[0] == old(v.disk[0])
    ensures old(v.Synced()) || x < N_DIRENTS ==> v.Synced()
    ensures x < N_DIRENTS ==> EntryMoved(old(StateOf(v)), m, inum, x, dst, now)
    ensures StateOf(v) == m.(disk := v.disk[..]) && SameOutside(m.disk, v.disk[..], 1, v.sb.First())
    ensures x == N_DIRENTS ==> StateOf(v) == old(StateOf(v))
  {
    hide Volume.DiskOk, DirOf, EntryMoved, EntryOrNone, Holds, GoodName, StrCpy, FromByte, SuperOf, Volume.MapsOk,
      Entries;
    ghost var s, first := StateOf(v), v.sb.First();
    m := s;
    DiskFacts(v);
    var fd := new Dirent[N_DIRENTS](_ => Dirent(false, false, 0, seq(NAME_SIZE, _ => 0)));
    ghost var es := DirOf(v.inodes[inum], v.disk[..]);
    ReadDir(v, fd, v.inodes[inum].direct[0]);
    assert fd[..] == es by { DirIs(v.inodes[inum], v.disk[..]); }
    assert |dst| < NAME_SIZE by { GoodFits(dst); }
    var k := 0;
    while k < N_DIRENTS
      invariant 0 <= k <= N_DIRENTS && v.DiskOk() && v.disk[0] == s.disk[0]
      invariant k <= x ==> StateOf(v) == s && m == s && fd[..] == es
      invariant k <= x && old(v.Synced()) ==> v.Synced()
      invariant k > x ==> fd[..] == es[x := es[x].(name := StrCpy(es[x].name, dst))] && v.Synced()
      invariant k > x ==> EntryMoved(s, m, inum, x, dst, now)
      invariant k > x ==> StateOf(v) == m.(disk := v.disk[..]) && SameOutside(m.disk, v.disk[..], 1, first)
    {
      OnlySource(es, fd[..], src, dst, x, i, k);
      if fd[k].valid && CStr(fd[k].name) == src {
        MoveEntry(v, inum, fd, k, dst, now);
        m := StateOf(v);
        UpdateDisk(v);
      }
      k := k + 1;
    }
  }

  lemma GoodFits(n: Name)
    requires GoodName(n)
    ensures |n| < NAME_SIZE
  {
  }

  // ---- the whole call -----------------------------------------------------------------------------------

  /** What the checks of fs_rename have established: directory d is the parent of both paths, and it has no name like
      dst's. */
  ghost predicate MoveReady(s: State, src: seq<byte>, dst: seq<byte>, d: nat) {
    && d == PathInode(s, Dirname(src)) && d in s.sh.trees && 0 < d < |s.inodes| && IsDir(s.inodes[d])
    && GoodName(Cut(Basename(dst))) && LookupIn(DirOf(s.inodes[d], s.disk), Cut(Basename(dst))) == -ENOENT
    && Cut(Basename(src)) != Cut(Basename(dst)) && Route(dst) == Route(Dirname(src)) + [Cut(Basename(dst))]
  }

  lemma ReadyToMove(first: nat, s: State, src: seq<byte>, dst: seq<byte>)
    requires Inv(first, s) && 0 !in src && 0 !in dst && RenameResult(s, src, dst) == 0 && SourceInDir(s, src)
    ensures Source(s, src) > 0 ==> MoveReady(s, src, dst, PathInode(s, Dirname(src)))
    ensures GoodName(Cut(Basename(dst))) && (Source(s, src) > 0 ==> Cut(Basename(src)) != Cut(Basename(dst)))
  {
    hide Inv, Tokens, Route, Basename, Dirname, Cut, IsDir, DirOf, Matches, Distinct, GoodName, TreeOk, LookupIn,
      Resolve;
    var d := PathInode(s, Dirname(src));
    InvTree(first, s);
    PathUnique(TreeOf(s), Route(Dirname(src)), Route(Dirname(dst)));
    LeafMissing(TreeOf(s), dst, d);
    assert Cut(Basename(src)) == Cut(Basename(dst)) ==> EntryRoute(src) == Route(dst);
  }

  /** The loop finds the entry of src, if there is one. */
  lemma SourceReady(first: nat, s: State, src: seq<byte>) returns (x: nat, i: nat)
    requires Inv(first, s) && SourceInDir(s, src)
    ensures EntryReady(s, PathInode(s, Dirname(src)), Cut(Basename(src)), x, i)
    ensures x < N_DIRENTS <==> Source(s, src) > 0
    ensures x < N_DIRENTS ==> i == Source(s, src) && EntryOf(s, src, PathInode(s, Dirname(src)), x, i)
  {
    hide Inv, Route, Basename, Dirname, Cut, IsDir, DirOf, Matches, Distinct, TreeOk, FilesOk, LookupIn, Resolve;
    var d := PathInode(s, Dirname(src));
    if Source(s, src) > 0 {
      var e;
      e, x := NamedEntry(first, s, src);
      i := Source(s, src);
      EntryFound(first, s, src, d, x, i);
    } else {
      x, i := N_DIRENTS, d;
      InvTree(first, s);
      var p := EntryRoute(src);
      assert p[..|p| - 1] == Route(Dirname(src));
      assert p[|p| - 1] == Cut(Basename(src)) && Dir(TreeOf(s), d) == DirOf(s.inodes[d], s.disk);
      FindStep(TreeOf(s), p);
      NoEntry(TreeOf(s), d, Cut(Basename(src)));
      DirBlockFacts(first, s, d);
      assert EntryOrNone(DirOf(s.inodes[d], s.disk), Cut(Basename(src)), x, i);
    }
  }

  lemma NoEntry(n: NameTree, d: nat, leaf: Name)
    requires TreeOk(n) && d in n.nodes && d < |n.inodes| && IsDir(n.inodes[d]) && Step(n, d, leaf) <= 0
    ensures forall k :: 0 <= k < N_DIRENTS ==> !Matches(Dir(n, d)[k], leaf)
  {
    hide Entries, IsDirMode;
    StepPlace(n, d, leaf);
    assert DirOk(d, Dir(n, d), n.place);
    forall k | 0 <= k < N_DIRENTS && Matches(Dir(n, d)[k], leaf)
      ensures false
    {
      DirDistinct(n, d);
      LookupHit(Dir(n, d), leaf, k);
    }
  }

  lemma MovedPath(n: NameTree, p0: seq<Name>, src: Name, dst: Name, q: seq<Name>)
    requires src != dst
    ensures AfterRename(n, p0, src, dst, q) == AfterMove(n, p0 + [src], p0 + [dst], q)
  {
    hide Find;
    assert |p0 + [dst]| == |p0| + 1;
  }

  lemma MovedPaths(s: State, m: State, d: nat, x: nat, src: Name, dst: Name, p0: seq<Name>)
    requires Renamed(TreeOf(s), TreeOf(m), d, x, src, dst) && Find(TreeOf(s), p0) == d
    ensures forall q: seq<Name> :: Find(TreeOf(m), q) == AfterMove(TreeOf(s), p0 + [src], p0 + [dst], q)
  {
    hide Renamed, Find, AfterRename, AfterMove;
    RenamedParts(TreeOf(s), TreeOf(m), d, x, src, dst);
    forall q: seq<Name> ensures Find(TreeOf(m), q) == AfterMove(TreeOf(s), p0 + [src], p0 + [dst], q) {
      FindRenamed(TreeOf(s), TreeOf(m), d, x, src, dst, p0, q);
      MovedPath(TreeOf(s), p0, src, dst, q);
    }
  }

  lemma RenamingSame(s: State, m: State, d: nat, x: nat, src: Name, dst: Name)
    requires Renaming(s, m, d, x, src, dst)
    ensures m.sh == s.sh && m.live == s.live && m.used == s.used && m.owner == s.owner && |m.inodes| == |s.inodes|
    ensures forall j :: j in s.sh.trees && j !in {} && j < |s.inodes| && j < |m.inodes| ==>
      m.inodes[j].mode == s.inodes[j].mode
  {
    hide EntryWritten, StrCpy, DirOf, IsDir, Matches, GoodName, LookupIn;
  }

  lemma MoveSame(first: nat, s: State, m: State, d: nat, x: nat, src: Name, dst: Name)
    requires Inv(first, s) && Renaming(s, m, d, x, src, dst) && DirStep(s, m, d, {}, {})
    ensures SameBut(s, m, {d}) && Aside(s, m, d, 0)
  {
    hide Inv, Renaming, SameBut, DirStep, Aside, FilesOk;
    InvTree(first, s);
    StepAside(s, m, d, 0, {}, {});
    RenamingSame(s, m, d, x, src, dst);
    DirStepSame(s, m, d, {}, {});
    assert {} + {d} == {d};
  }

  lemma MoveSummary(first: nat, s: State, m: State, src: seq<byte>, dst: seq<byte>, d: nat, x: nat, now: u32)
    requires Source(s, src) > 0 && EntryOf(s, src, d, x, Source(s, src)) && MoveReady(s, src, dst, d)
    requires EntryMoved(s, m, d, x, Cut(Basename(dst)), now)
    requires Inv(first, s)
    ensures Inv(first, m) && Moved(s, m, src, dst, d)
  {
    hide Inv, Renamed, DirStep, Find, Route, Dirname, SameBut, Aside, IsDir, DirOf, Matches, Distinct, GoodName,
      LookupIn, AfterMove;
    var a, b := Cut(Basename(src)), Cut(Basename(dst));
    RenameKeepsInv(first, s, m, d, x, a, b);
    MovedPaths(s, m, d, x, a, b, Route(Dirname(src)));
    RenamingSame(s, m, d, x, a, b);
    MoveSame(first, s, m, d, x, a, b);
    var p0 := Route(Dirname(src));
    assert (p0 + [a])[|p0|] == a && (p0 + [b])[|p0|] == b;
  }

  lemma MovedMeta(first: nat, s: State, m: State, disk: seq<Block>, src: seq<byte>, dst: seq<byte>, d: nat)
    requires Inv(first, m) && Moved(s, m, src, dst, d) && SameOutside(m.disk, disk, 1, first)
    ensures Inv(first, m.(disk := disk)) && Moved(s, m.(disk := disk), src, dst, d)
  {
    hide Inv, Find, Aside, FileContents.FileData, Route, Dirname, SameOutside, AfterMove, IsDir;
    MetaKeepsInv(first, m, disk);
    FindMetaAll(first, m, disk);
    AsideMeta(first, s, m, disk, d, 0);
  }

  /** What fs_rename leaves in the inode table and in the parent directory: two times of change, and the name of the
      entry. */
  ghost predicate MovedEntry(s: State, s': State, src: seq<byte>, dst: seq<byte>, d: nat, now: u32) {
    var i := Source(s, src);
    && i in s.sh.place && d < |s.inodes| && d < |s'.inodes|
    && var es, x, leaf := DirOf(s.inodes[d], s.disk), s.sh.place[i].slot, Cut(Basename(dst));
       && x < N_DIRENTS && |leaf| < NAME_SIZE && es[x].inode == i && s'.inodes == Touched(s, d, x, now)
       && DirOf(s'.inodes[d], s'.disk) == es[x := es[x].(name := StrCpy(es[x].name, leaf))]
  }

  lemma MoveEntries(first: nat, s: State, m: State, disk: seq<Block>, src: seq<byte>, dst: seq<byte>, d: nat, x: nat,
                    now: u32)
    requires Source(s, src) > 0 && EntryOf(s, src, d, x, Source(s, src)) && MoveReady(s, src, dst, d)
    requires EntryMoved(s, m, d, x, Cut(Basename(dst)), now)
    requires SameOutside(m.disk, disk, 1, first)
    requires Inv(first, s) && Inv(first, m)
    ensures MovedEntry(s, m.(disk := disk), src, dst, d, now)
  {
    hide Inv, Basename, Dirname, Cut, Find, Route, IsDirMode, Matches, Distinct, GoodName, LookupIn, StrCpy, Entries,
      FilesOk, NamesOk;
    InvTree(first, m);
    var es := DirOf(s.inodes[d], s.disk);
    EntryDir(s, m, d, x, es[x].(name := StrCpy(es[x].name, Cut(Basename(dst)))));
    MetaDirs(first, m, disk);
  }

  /** The checks of fs_rename. */
  method RenameCheck(v: Volume, src: seq<byte>, dst: seq<byte>)
    returns (r: int, inum: int, srcLeaf: Name, dstLeaf: Name)
    requires Valid(v)
    ensures r == RenameResult(StateOf(v), src, dst)
    ensures inum == PathInode(StateOf(v), Dirname(src)) || r == -ENOENT || r == -EEXIST
    ensures srcLeaf == Cut(Basename(src)) || r == -ENOENT || r == -EEXIST
    ensures dstLeaf == Cut(Basename(dst)) || r == -ENOENT || r == -EEXIST
  {
    hide Valid, Resolve, Route, WalkSafe, Basename, Dirname, Cut;
    srcLeaf, dstLeaf := [], [];
    inum := Translate(v, src);
    if inum < 0 { r := -ENOENT; return; }
    inum := Translate(v, dst);
    if inum > 0 { r := -EEXIST; return; }
    var parent;
    parent, srcLeaf := SplitPath(src);
    inum := Translate(v, parent);
    parent, dstLeaf := SplitPath(dst);
    var other := Translate(v, parent);
    r := if inum != other then -EINVAL else 0;
  }

  /** Two times of change are set. */
  lemma TouchedIs(s: State, s': State, src: seq<byte>, dst: seq<byte>, d: nat, now: u32)
    requires MovedEntry(s, s', src, dst, d, now) && Source(s, src) > 0
    ensures |s'.inodes| == |s.inodes| && forall j :: 0 <= j < |s.inodes| ==>
      s'.inodes[j] == if j == d || j == Source(s, src) then s.inodes[j].(mtime := now) else s.inodes[j]
  {
    hide DirOf, Resolve, EntryRoute, StrCpy, Cut, Basename;
  }

  lemma MoveDone(first: nat, s: State, m: State, s': State, src: seq<byte>, dst: seq<byte>, d: nat, x: nat, now: u32)
    requires Source(s, src) > 0 && EntryOf(s, src, d, x, Source(s, src)) && MoveReady(s, src, dst, d)
    requires EntryMoved(s, m, d, x, Cut(Basename(dst)), now)
    requires s' == m.(disk := s'.disk) && SameOutside(m.disk, s'.disk, 1, first)
    requires Inv(first, s)
    ensures Inv(first, s') && Moved(s, s', src, dst, d) && MovedEntry(s, s', src, dst, d, now)
  {
    hide Inv, EntryOf, MoveReady, Moved, MovedEntry, EntryMoved, SameOutside, Cut, Basename, Source;
    MoveSummary(first, s, m, src, dst, d, x, now);
    MoveEntries(first, s, m, s'.disk, src, dst, d, x, now);
    MovedMeta(first, s, m, s'.disk, src, dst, d);
  }

  /** What was at src is at dst exactly if src is not its own parent. */
  lemma RenameReaches(first: nat, s: State, s': State, src: seq<byte>, dst: seq<byte>, d: nat)
    requires Inv(first, s) && 0 !in src && RenameResult(s, src, dst) == 0
    requires if Source(s, src) > 0 then Moved(s, s', src, dst, d) else s' == s
    ensures PathInode(s', dst) == PathInode(s, src) <==> !OwnParent(src)
  {
    hide Inv, OwnParent, Route, Basename, Dirname, IsDir, DirOf, Cut, SameBut, Aside, EntryRoute, Resolve, Matches,
      Distinct;
    ParentRoute(src);
    if Source(s, src) > 0 {
      var e, x := NamedEntry(first, s, src);
      var p := Route(dst);
      assert PathInode(s', dst) == AfterMove(TreeOf(s), EntryRoute(src), p, p);
      assert p[|p|..] == [] && EntryRoute(src) + [] == EntryRoute(src);
    }
  }

  /** fs_rename. It looks for the leaf of src in the parent of src. That is the entry that src leads to, unless src is
      the root or has more than ten components. */
  method FsRename(v: Volume, src: seq<byte>, dst: seq<byte>, now: u32) returns (r: int, ghost d: nat)
    requires Valid(v) && 0 !in src && 0 !in dst
    requires RenameResult(StateOf(v), src, dst) == 0 ==> SourceInDir(StateOf(v), src)
    modifies v.inodes, v.disk
    ensures r == RenameResult(old(StateOf(v)), src, dst)
    ensures r == 0 && !OwnParent(src) ==> Source(old(StateOf(v)), src) == PathInode(old(StateOf(v)), src) > 0
    ensures r == 0 ==> (PathInode(StateOf(v), dst) == PathInode(old(StateOf(v)), src) <==> !OwnParent(src))
    ensures r != 0 || Source(old(StateOf(v)), src) <= 0 ==> StateOf(v) == old(StateOf(v))
    ensures r == 0 && Source(old(StateOf(v)), src) > 0 ==>
      v.Synced() && Moved(old(StateOf(v)), StateOf(v), src, dst, d) &&
      MovedEntry(old(StateOf(v)), StateOf(v), src, dst, d, now)
    ensures v.disk.Length > 0 && v.disk[0] == old(v.disk[0])
    ensures var s := old(StateOf(v));
      var i, j, d, e := PathInode(s, src), PathInode(s, dst), PathInode(s, Dirname(src)), PathInode(s, Dirname(dst));
      && (r == 0 <==> i > 0 && j <= 0 && d == e) && (r == -ENOENT <==> i <= 0) && (r == -EEXIST <==> i > 0 && j > 0)
      && (r == -EINVAL <==> i > 0 && j <= 0 && d != e)
    ensures r == 0 && Source(old(StateOf(v)), src) > 0 ==>
      forall j :: 0 <= j < v.inodes.Length ==>
        v.inodes[j] == if j == d || j == Source(old(StateOf(v)), src) then old(v.inodes[j]).(mtime := now)
                       else old(v.inodes[j])
    ensures Valid(v) && (old(v.Synced()) ==> v.Synced())
  {
    hide Valid, Inv, OwnParent, Route, Basename, Dirname, IsDir, DirOf, Cut, EntryReady, EntryOf, MoveReady, Moved,
      MovedEntry, EntryMoved, GoodName, Volume.DiskOk, Holds, SuperOf, Resolve, EntryRoute;
    ghost var s, first := StateOf(v), v.sb.First();
    ParentRoute(src);
    d := 0;
    ValidParts(v);
    DiskFacts(v);
    var inum, srcLeaf, dstLeaf;
    r, inum, srcLeaf, dstLeaf := RenameCheck(v, src, dst);
    if r < 0 { return; }
    ReadyToMove(first, s, src, dst);
    ghost var x, i := SourceReady(first, s, src);
    ReadyBound(s, PathInode(s, Dirname(src)), Cut(Basename(src)), x, i);
    d := inum;
    ghost var m := RenameEntries(v, inum, srcLeaf, dstLeaf, now, x, i);
    if x < N_DIRENTS {
      MoveDone(first, s, m, StateOf(v), src, dst, d, x, now);
      TouchedIs(s, StateOf(v), src, dst, d, now);
      assert forall j :: 0 <= j < v.inodes.Length ==> v.inodes[j] == v.inodes[..][j] && old(v.inodes[j]) == s.inodes[j];
    }
    RenameReaches(first, s, StateOf(v), src, dst, d);
    ValidFrom(v);
  }
}
