/** The operations on the namespace: lookup, translate and create. */
module DirOps {
  import opened Bytes
  import opened Bitmaps
  import opened Codec
  import opened FileTrees
  import opened Volumes
  import opened Consistency
  import opened FileContents
  import opened Mounted
  import opened Paths
  import opened Names
  import opened NameChanges
  import opened DirSteps

  // ---- directory blocks ------------------------------------------------------------------------

  /** Reads a block into a buffer of 32 entries. */
  method ReadDir(v: Volume, fd: array<Dirent>, lba: nat)
    requires lba < v.disk.Length && fd.Length == N_DIRENTS && fd !in v.Arrays()
    modifies fd
    ensures fd[..] == Entries(v.disk[lba])
  {
    var es := Entries(v.disk[lba]);
    forall j | 0 <= j < N_DIRENTS { fd[j] := es[j]; }
  }

  method WriteDir(v: Volume, fd: array<Dirent>, lba: nat)
    requires lba < v.disk.Length && fd.Length == N_DIRENTS && fd !in v.Arrays()
    modifies v.disk
    ensures v.disk[..] == old(v.disk[..])[lba := DirBlock(fd[..])]
    ensures Entries(v.disk[lba]) == fd[..]
    ensures old(v.DiskOk()) && lba in v.used ==> v.DiskOk()
  {
    v.disk[lba] := DirBlock(fd[..]);
    EntriesRoundTrip(fd[..]);
  }

  // ---- path resolution -----------------------------------------------------------------------------

  /** A directory and its block. */
  lemma DirBlockFacts(first: nat, s: State, d: nat)
    requires Inv(first, s) && d in s.sh.trees && d < |s.inodes| && IsDir(s.inodes[d])
    ensures var p := s.inodes[d].direct[0];
      first <= p < |s.disk| && p in s.owner && p in s.used && s.owner[p] == Data(d, Direct, 0)
        && DirOf(s.inodes[d], s.disk) == Entries(s.disk[p])
  {
    hide NamesOk, InodesOk, FilesOk, IsDir, Entries;
    DirBlockOwned(s, d);
  }

  /** The walk along ns never reads a directory through a null or wild block number. */
  ghost predicate WalkSafe(inodes: seq<Inode>, disk: seq<Block>, ns: seq<Name>) {
    forall k :: 0 <= k <= |ns| && Resolve(inodes, disk, ns[..k]) > 0 ==>
      Resolve(inodes, disk, ns[..k]) < |inodes|
        && (k < |ns| ==> HasBlock(inodes[Resolve(inodes, disk, ns[..k])], |disk|))
  }

  /** A directory has a block; other inodes are not asked for one. */
  predicate HasBlock(nd: Inode, n: nat) {
    IsDir(nd) ==> 0 < nd.direct[0] < n
  }

  method Lookup(v: Volume, inum: nat, name: Name) returns (result: int)
    requires inum < v.inodes.Length && HasBlock(v.inodes[inum], v.disk.Length)
    ensures result == LookupOf(v.inodes[..], v.disk[..], inum, name)
    ensures result == -ENOTDIR <==> !IsDir(v.inodes[inum])
    ensures IsDir(v.inodes[inum]) ==> var es := DirOf(v.inodes[inum], v.disk[..]);
      || (result == -ENOENT && forall x :: 0 <= x < N_DIRENTS ==> !(es[x].valid && CStr(es[x].name) == name))
      || exists x :: 0 <= x < N_DIRENTS && es[x].valid && CStr(es[x].name) == name && result == es[x].inode
                     && forall y :: 0 <= y < x ==> !(es[y].valid && CStr(es[y].name) == name)
  {
    hide IsDirMode, Entries, CStr;
    if !IsDir(v.inodes[inum]) {
      return -ENOTDIR;
    }
    var fd := new Dirent[N_DIRENTS](_ => Dirent(false, false, 0, seq(NAME_SIZE, _ => 0)));
    ReadDir(v, fd, v.inodes[inum].direct[0]);
    ghost var es := DirOf(v.inodes[inum], v.disk[..]);
    assert fd[..] == es;
    result := -ENOENT;
    var i := 0;
    while i < N_DIRENTS
      invariant 0 <= i <= N_DIRENTS && result == -ENOENT
      invariant FindFrom(es, name, 0) == FindFrom(es, name, i)
      invariant forall y :: 0 <= y < i ==> !(es[y].valid && CStr(es[y].name) == name)
    {
      if fd[i].valid && CStr(fd[i].name) == name {
        result := fd[i].inode;
        break;
      }
      if i == 31 {
        result := -ENOENT;
      }
      i := i + 1;
    }
  }

  lemma CanonNext(ns: seq<Name>, i: nat)
    requires i < |ns|
    ensures i == 0 && ns[0] == [DOT] ==> Canon(ns[..1]) == Canon(ns[..0]) == []
    ensures !(i == 0 && ns[0] == [DOT]) ==> Canon(ns[..i + 1]) == Canon(ns[..i]) + [ns[i]]
  {
  }

  lemma {:induction false} CanonStuck(inodes: seq<Inode>, disk: seq<Block>, ns: seq<Name>, i: nat)
    requires i <= |ns| && Resolve(inodes, disk, Canon(ns[..i])) <= 0
    ensures Resolve(inodes, disk, Canon(ns)) == Resolve(inodes, disk, Canon(ns[..i]))
    decreases |ns| - i
  {
    hide LookupOf;
    if i < |ns| {
      CanonNext(ns, i);
      var p := Canon(ns[..i + 1]);
      assert p != Canon(ns[..i]) ==> p[..|p| - 1] == Canon(ns[..i]);
      CanonStuck(inodes, disk, ns, i + 1);
    } else {
      assert ns[..i] == ns;
    }
  }

  /** One step of the walk. */
  lemma WalkNext(inodes: seq<Inode>, disk: seq<Block>, ns: seq<Name>, i: nat)
    requires WalkSafe(inodes, disk, Canon(ns)) && i < |ns| && Resolve(inodes, disk, Canon(ns[..i])) > 0
    ensures var d := Resolve(inodes, disk, Canon(ns[..i])); var e := Resolve(inodes, disk, Canon(ns[..i + 1]));
      && d < |inodes|
      && (if i == 0 && ns[0] == [DOT] then e == d
           else HasBlock(inodes[d], |disk|) && e == LookupOf(inodes, disk, d, ns[i]))
      && (e > 0 ==> e < |inodes|)
  {
    hide LookupOf, HasBlock;
    CanonPrefix(ns, i);
    CanonPrefix(ns, i + 1);
    var k, l := |Canon(ns[..i])|, |Canon(ns[..i + 1])|;
    assert Canon(ns)[..k] == Canon(ns[..i]) && Canon(ns)[..l] == Canon(ns[..i + 1]);
    if !(i == 0 && ns[0] == [DOT]) {
      CanonNext(ns, i);
      assert Canon(ns)[..l][..l - 1] == Canon(ns)[..k];
    }
  }

  lemma CanonPrefix(ns: seq<Name>, i: nat)
    requires i <= |ns|
    ensures Canon(ns[..i]) <= Canon(ns)
  {
  }

  lemma WalkEnd(inodes: seq<Inode>, disk: seq<Block>, ns: seq<Name>, i: nat)
    requires i <= |ns| && (i == |ns| || Resolve(inodes, disk, Canon(ns[..i])) <= 0)
    ensures Resolve(inodes, disk, Canon(ns)) == Resolve(inodes, disk, Canon(ns[..i]))
  {
    hide Resolve, Canon;
    if i == |ns| { assert ns[..i] == ns; } else { CanonStuck(inodes, disk, ns, i); }
  }

  /** Every walk in a valid state is safe. */
  lemma ValidWalks(first: nat, s: State, ns: seq<Name>)
    requires Inv(first, s)
    ensures WalkSafe(s.inodes, s.disk, ns)
  {
    hide Inv, TreeOk;
    InvTree(first, s);
    forall k | 0 <= k <= |ns| && Resolve(s.inodes, s.disk, ns[..k]) > 0
      ensures Resolve(s.inodes, s.disk, ns[..k]) < |s.inodes|
      ensures HasBlock(s.inodes[Resolve(s.inodes, s.disk, ns[..k])], |s.disk|)
    {
      FindLive(TreeOf(s), ns[..k]);
      var d := Resolve(s.inodes, s.disk, ns[..k]);
      if IsDir(s.inodes[d]) { DirHasBlock(first, s, d); }
    }
  }

  lemma DirHasBlock(first: nat, s: State, d: nat)
    requires Inv(first, s) && d in s.sh.trees && d < |s.inodes| && IsDir(s.inodes[d])
    ensures 0 < s.inodes[d].direct[0] < |s.disk|
  {
    hide FilesOk, NamesOk, InodesOk, IsDir;
    DirBlockFacts(first, s, d);
  }

  /** translate: walks from the root through the names of the path. */
  method Translate(v: Volume, path: seq<byte>) returns (inum: int)
    requires Valid(v) || (WalkSafe(v.inodes[..], v.disk[..], Route(path)) && 1 < v.inodes.Length)
    ensures inum == Resolve(v.inodes[..], v.disk[..], Route(path))
    ensures Valid(v) && inum > 0 ==> inum in v.shadow.trees && inum < v.inodes.Length
    ensures Valid(v) && inum <= 0 ==> inum == -ENOENT || inum == -ENOTDIR
  {
    hide Valid, Inv, TreeOk, LookupOf, HasBlock, Argv, WalkSafe;
    var names := Parse(path);
    assert WalkSafe(v.inodes[..], v.disk[..], Canon(names)) && 1 < v.inodes.Length by {
      if Valid(v) {
        ValidParts(v);
        ValidWalks(v.sb.First(), StateOf(v), Canon(names));
        InvKeys(v.sb.First(), StateOf(v));
      }
    }
    inum := 1;
    var i := 0;
    while i < |names| && inum > 0
      invariant 0 <= i <= |names|
      invariant inum == Resolve(v.inodes[..], v.disk[..], Canon(names[..i]))
      invariant inum > 0 ==> inum < v.inodes.Length
    {
      WalkNext(v.inodes[..], v.disk[..], names, i);
      if i == 0 && names[i] == [DOT] {
        i := i + 1;
        continue;
      }
      inum := Lookup(v, inum, names[i]);
      i := i + 1;
    }
    WalkEnd(v.inodes[..], v.disk[..], names, i);
    if Valid(v) {
      ValidParts(v);
      InvTree(v.sb.First(), StateOf(v));
      FindLive(TreeOf(StateOf(v)), Route(path));
    }
  }

  // ---- create and mkdir --------------------------------------------------------------------------------

  /** The fields of struct stat that come from the caller or the clock. */
  datatype Meta = Meta(uid: u16, gid: u16, mode: u32, now: u32)

  /** The inode that create fills in; block p is that of a new directory. */
  function MadeInode(nd: Inode, m: Meta, isDir: bool, p: u32): Inode {
    var n := nd.(uid := m.uid, gid := m.gid, mode := m.mode, ctime := m.now, mtime := m.now, size := 0);
    if isDir then n.(direct := n.direct[0 := p], size := BLOCK_SIZE) else n
  }

  /** Fills in entry x of the directory whose entries are in fd, and writes the directory back. */
  method FillEntry(v: Volume, d: nat, fd: array<Dirent>, x: nat, i: u30, leaf: Name, isDir: bool)
    requires v.DiskOk() && d < v.inodes.Length && x < N_DIRENTS && |leaf| < NAME_SIZE
    requires v.inodes[d].direct[0] in v.used && v.inodes[d].direct[0] < v.disk.Length
    requires fd.Length == N_DIRENTS && fd !in v.Arrays() && fd[..] == DirOf(v.inodes[d], v.disk[..])
    modifies v.disk, fd
    ensures v.DiskOk()
    ensures EntryWritten(v.inodes[d], old(v.disk[..]), v.disk[..], x, NewEntry(old(fd[..]), x, i, leaf, isDir))
  {
    hide Volume.DiskOk, StrCpy, Entries;
    DiskFacts(v);
    fd[x] := fd[x].(valid := true, isDir := isDir, inode := i, name := StrCpy(fd[x].name, leaf));
    WriteDir(v, fd, v.inodes[d].direct[0]);
  }

  /** The state as it would be if the mode of inode i were another one. */
  ghost function WithMode(s: State, i: nat, mode: u32): State {
    if i < |s.inodes| then s.(inodes := s.inodes[i := s.inodes[i].(mode := mode)]) else s
  }

  /** Marks inode i, fills it in, and writes its entry; for a directory, takes block p. With the mode `typed`, this is
      the creation of a directory or of a file. */
  method AddEntry(v: Volume, d: nat, fd: array<Dirent>, x: nat, i: u30, leaf: Name, isDir: bool, m: Meta, p: u32,
                  ghost typed: u32)
    requires Valid(v) && CreateReady(v.sb.First(), StateOf(v), d, x, i, leaf, p)
    requires fd.Length == N_DIRENTS && fd !in v.Arrays() && fd[..] == DirOf(v.inodes[d], v.disk[..])
    requires IsDirMode(typed) <==> isDir
    modifies v`used, v`live, v`owner, v`shadow, v.inodeMap, v.blockMap, v.disk, v.inodes, fd
    ensures v.DiskOk() && SuperOf(v.disk[0]) == v.sb
    ensures Creating(v.sb.First(), old(StateOf(v)), WithMode(StateOf(v), i, typed), d, x, i, leaf, isDir, p)
    ensures i as nat < v.inodes.Length
    ensures v.inodes[..] == old(v.inodes[..])[i := MadeInode(old(v.inodes[i]), m, isDir, p)]
    ensures v.disk.Length > 0 && v.disk[0] == old(v.disk[0])
  {
    hide Valid, Inv, Volume.DiskOk, Volume.MapsOk, CreateReady, GoodName, IsDirMode, LookupIn, BlocksOk, SuperOf,
      EntryWritten, DirOf, NewEntry, Dense, TreeOwned;
    ghost var s, first := StateOf(v), v.sb.First();
    ValidParts(v);
    CreateReadyParts(first, s, d, x, i, leaf, p);
    DirBlockFacts(first, s, d);
    DiskFacts(v);
    FreeInodeNull(first, s, i);
    MarkInode(v, i);
    FillEntry(v, d, fd, x, i, leaf, isDir);
    EntryFrame(v.inodes[d], s.disk, v.disk[..], x, NewEntry(DirOf(s.inodes[d], s.disk), x, i, leaf, isDir));
    v.inodes[i] := v.inodes[i].(uid := m.uid, gid := m.gid, mode := m.mode, ctime := m.now, mtime := m.now, size := 0);
    if isDir {
      MarkBlock(v, p, Data(i, Direct, 0));
      v.inodes[i] := v.inodes[i].(direct := v.inodes[i].direct[0 := p], size := BLOCK_SIZE);
    }
    v.shadow := NewShadow(v.shadow, d, x, i, isDir, p);
  }

  lemma EntryFrame(nd: Inode, disk: seq<Block>, disk': seq<Block>, x: nat, e: Dirent)
    requires EntryWritten(nd, disk, disk', x, e) && nd.direct[0] != 0
    ensures |disk'| == |disk| && (|disk| > 0 ==> disk'[0] == disk[0])
  {
  }

  lemma CreateReadyParts(first: nat, s: State, d: nat, x: nat, i: nat, leaf: Name, p: u32)
    requires Inv(first, s) && CreateReady(first, s, d, x, i, leaf, p)
    ensures d in s.sh.trees && d < |s.inodes| && IsDir(s.inodes[d]) && d in s.sh.depth && x < N_DIRENTS
    ensures i !in s.live && i !in s.sh.trees && i < |s.inodes| && first <= p < |s.disk| && p !in s.used
    ensures |leaf| < NAME_SIZE && i != d
  {
  }

  method MarkInode(v: Volume, i: nat)
    requires v.DiskOk() && i < v.inodes.Length
    modifies v`live, v.inodeMap
    ensures v.DiskOk() && v.live == old(v.live) + {i}
  {
    BitSet(v.inodeMap, i, v.live);
    v.live := v.live + {i};
  }

  method UnmarkInode(v: Volume, i: nat)
    requires v.DiskOk() && i < v.inodes.Length
    modifies v`live, v.inodeMap
    ensures v.DiskOk() && v.live == old(v.live) - {i}
  {
    BitClear(v.inodeMap, i, v.live);
    v.live := v.live - {i};
  }

  method MarkBlock(v: Volume, p: nat, ghost slot: Slot)
    requires v.DiskOk() && v.sb.First() <= p < v.disk.Length
    modifies v`used, v`owner, v.blockMap
    ensures v.DiskOk() && v.used == old(v.used) + {p} && v.owner == old(v.owner)[p := slot]
  {
    BitSet(v.blockMap, p, v.used);
    v.used := v.used + {p};
    v.owner := v.owner[p := slot];
  }

  /** The first invalid entry, or 32. */
  function FreeFrom(es: Dirents, x: nat): (y: nat)
    requires x <= N_DIRENTS
    ensures x <= y <= N_DIRENTS && (y < N_DIRENTS ==> !es[y].valid)
    ensures forall z :: x <= z < y ==> es[z].valid
    decreases N_DIRENTS - x
  {
    if x == N_DIRENTS then N_DIRENTS else if !es[x].valid then x else FreeFrom(es, x + 1)
  }

  ghost predicate NoFreeInode(s: State) {
    forall i: nat :: i < |s.inodes| ==> i in s.live
  }

  ghost predicate NoFreeBlock(s: State) {
    forall p: nat :: p < |s.disk| ==> p in s.used
  }

  /** A path that does not resolve while its parent is a directory: its leaf is a name the parent lacks. */
  lemma LeafMissing(n: NameTree, path: seq<byte>, d: nat)
    requires TreeOk(n) && 0 !in path && d == Find(n, Route(Dirname(path))) && d > 0 && d < |n.inodes|
    requires IsDir(n.inodes[d])
    requires Find(n, Route(path)) <= 0
    ensures var leaf := Cut(Basename(path));
      GoodName(leaf) && LookupIn(Dir(n, d), leaf) == -ENOENT && Route(path) == Route(Dirname(path)) + [leaf]
  {
    hide TreeOk, Route, Tokens, Basename, Dirname, IsDir, DirOf, Cut, GoodName, LookupIn;
    if |Tokens(path)| > MAX_PATH_LEN {
      LongRoute(path);
    } else {
      assert Route(path) != [] by { RootFound(n); }
      SplitRoute(path);
      FindStep(n, Route(path));
      var p := Route(path);
      assert p[..|p| - 1] == Route(Dirname(path));
      StepPlace(n, d, Cut(Basename(path)));
      StepInDir(n, d, Cut(Basename(path)));
    }
  }

  lemma RootFound(n: NameTree)
    ensures Find(n, []) == 1
  {
  }

  lemma StepInDir(n: NameTree, d: nat, name: Name)
    requires TreeOk(n) && d in n.nodes && d < |n.inodes| && IsDir(n.inodes[d])
    ensures Step(n, d, name) <= 0 ==> LookupIn(Dir(n, d), name) == -ENOENT
    ensures Step(n, d, name) == LookupIn(Dir(n, d), name)
  {
    hide IsDir, DirOf;
    var x := FindFrom(Dir(n, d), name, 0);
    assert DirOk(d, Dir(n, d), n.place);
    if x < N_DIRENTS { assert Dir(n, d)[x].valid; }
  }

  lemma ReadyToCreate(first: nat, s: State, path: seq<byte>, d: nat, x: nat, i: nat, p: u32)
    requires Inv(first, s) && 0 !in path && d > 0 && d == Find(TreeOf(s), Route(Dirname(path)))
    requires d in s.sh.trees && d < |s.inodes| && IsDir(s.inodes[d]) && Find(TreeOf(s), Route(path)) <= 0
    requires x < N_DIRENTS && !DirOf(s.inodes[d], s.disk)[x].valid
    requires i < |s.inodes| && i !in s.live && p < |s.disk| && p !in s.used
    ensures CreateReady(first, s, d, x, i, Cut(Basename(path)), p)
    ensures Route(path) == Route(Dirname(path)) + [Cut(Basename(path))]
  {
    hide Inv, Find, Route, Dirname, Basename, Cut, IsDir, Entries, LookupIn, GoodName;
    InvTree(first, s);
    LeafMissing(TreeOf(s), path, d);
  }

  /** The entries of directory inum and the first invalid one among them, or 32. */
  method FreeSlot(v: Volume, inum: nat) returns (fd: array<Dirent>, i: nat)
    requires Valid(v) && inum in v.shadow.trees && inum < v.inodes.Length && IsDir(v.inodes[inum])
    ensures fresh(fd) && fd.Length == N_DIRENTS && fd[..] == DirOf(v.inodes[inum], v.disk[..])
    ensures i == FreeFrom(fd[..], 0)
  {
    hide Valid, Inv, IsDir, Entries, FromByte, SuperOf;
    ValidParts(v);
    DirBlockFacts(v.sb.First(), StateOf(v), inum);
    fd := new Dirent[N_DIRENTS](_ => Dirent(false, false, 0, seq(NAME_SIZE, _ => 0)));
    ReadDir(v, fd, v.inodes[inum].direct[0]);
    i := 0;
    while i < N_DIRENTS
      invariant 0 <= i <= N_DIRENTS
      invariant FreeFrom(fd[..], 0) == FreeFrom(fd[..], i)
    {
      if !fd[i].valid { break; }
      i := i + 1;
    }
  }

  /** What create checks of the path: its parent is a directory and it does not exist. */
  ghost function CreateCheck(s: State, path: seq<byte>): (r: int)
    ensures r <= 0
  {
    var d := Find(TreeOf(s), Route(Dirname(path)));
    if d <= 0 then d
    else if d >= |s.inodes| || !IsDir(s.inodes[d]) then -ENOTDIR
    else if Find(TreeOf(s), Route(path)) > 0 then -EEXIST
    else 0
  }

  /** What create returns in state s. */
  ghost function CreateResult(s: State, path: seq<byte>): (r: int)
    ensures r <= 0
  {
    var d := Find(TreeOf(s), Route(Dirname(path)));
    if CreateCheck(s, path) < 0 then CreateCheck(s, path)
    else if d < 0 || d >= |s.inodes| || FreeFrom(DirOf(s.inodes[d], s.disk), 0) == N_DIRENTS || NoFreeInode(s)
      || NoFreeBlock(s) then -ENOSPC
    else 0
  }

  /** The checks at the start of create. */
  method CheckPath(v: Volume, path: seq<byte>) returns (r: int, inum: int, leaf: Name)
    requires Valid(v)
    ensures r == CreateCheck(StateOf(v), path) <= 0
    ensures inum == Find(TreeOf(StateOf(v)), Route(Dirname(path))) && leaf == Cut(Basename(path))
    ensures r == 0 ==> inum > 0 && inum in v.shadow.trees && inum < v.inodes.Length && IsDir(v.inodes[inum])
    ensures r == 0 ==> Find(TreeOf(StateOf(v)), Route(path)) <= 0
  {
    hide Valid, Resolve, WalkSafe, Route, Dirname, Basename, Cut, IsDir;
    var parent;
    parent, leaf := SplitPath(path);
    inum := Translate(v, parent);
    if inum < 0 { return inum, inum, leaf; }
    if !IsDir(v.inodes[inum]) { return -ENOTDIR, inum, leaf; }
    var other := Translate(v, path);
    if other > 0 { return -EEXIST, inum, leaf; }
    return 0, inum, leaf;
  }

  /** Inode numbers fit in the 30 bits of a directory entry. */
  lemma InodesBound(v: Volume)
    requires Valid(v)
    ensures v.inodes.Length <= 0x4000_0000
  {
    hide Inv, SuperOf, StandsFor;
    ValidParts(v);
    DiskFacts(v);
  }

  /** What create looks for before it changes anything: the parent, its first free entry, an inode and a block. */
  method FindRoom(v: Volume, path: seq<byte>)
    returns (r: int, inum: int, leaf: Name, fd: array<Dirent>, k: nat, nextInode: int, nextBlock: int)
    requires Valid(v) && 0 !in path
    ensures r == CreateResult(StateOf(v), path) && leaf == Cut(Basename(path)) && fresh(fd)
    ensures r == 0 ==> 0 < inum < v.inodes.Length && inum == Find(TreeOf(StateOf(v)), Route(Dirname(path)))
    ensures r == 0 ==> 0 <= nextInode < 0x4000_0000 && 0 <= nextBlock < 0x1_0000_0000
    ensures r == 0 ==> CreateReady(v.sb.First(), StateOf(v), inum, k, nextInode, leaf, nextBlock)
    ensures r == 0 ==> Route(path) == Route(Dirname(path)) + [leaf]
    ensures r == 0 ==> fd.Length == N_DIRENTS && fd[..] == DirOf(v.inodes[inum], v.disk[..]) && k == FreeFrom(fd[..], 0)
    ensures r == 0 ==> forall j: nat :: (j < nextInode ==> j in v.live) && (j < nextBlock ==> j in v.used)
  {
    hide Valid, Inv, Find, Route, Dirname, Basename, Cut, IsDir, Entries, CreateReady, CreateCheck, SuperOf, BlocksOk,
      Volume.MapsOk, FromByte, DirOf;
    k, nextInode, nextBlock := 0, 0, 0;
    ValidParts(v);
    InodesBound(v);
    r, inum, leaf := CheckPath(v, path);
    fd := new Dirent[0];
    if r < 0 { return; }
    fd, k := FreeSlot(v, inum);
    if k == N_DIRENTS { r := -ENOSPC; return; }
    nextInode := GetNextInode(v);
    nextBlock := GetNextBlock(v);
    if nextInode < 0 || nextBlock < 0 { r := -ENOSPC; return; }
    DiskFacts(v);
    ReadyToCreate(v.sb.First(), StateOf(v), path, inum, k, nextInode, nextBlock);
  }

  /** create, up to the call of update_disk: a new file or directory, or an error and no change. */
  method CreateNode(v: Volume, path: seq<byte>, m: Meta, isDir: bool, ghost typed: u32)
    returns (r: int, ghost d: nat, ghost x: nat, ghost i: u30, ghost p: u32)
    requires Valid(v) && 0 !in path && (IsDirMode(typed) <==> isDir)
    modifies v`used, v`live, v`owner, v`shadow, v.inodeMap, v.blockMap, v.disk, v.inodes
    ensures v.DiskOk() && SuperOf(v.disk[0]) == v.sb
    ensures r == CreateResult(old(StateOf(v)), path)
    ensures r != 0 ==> Valid(v) && StateOf(v) == old(StateOf(v))
    ensures r == 0 ==> d == Find(TreeOf(old(StateOf(v))), Route(Dirname(path)))
    ensures r == 0 ==>
      Creating(v.sb.First(), old(StateOf(v)), WithMode(StateOf(v), i, typed), d, x, i, Cut(Basename(path)), isDir, p)
    ensures r == 0 ==> Route(path) == Route(Dirname(path)) + [Cut(Basename(path))]
    ensures r == 0 ==> i as nat < v.inodes.Length
    ensures r == 0 ==> v.inodes[..] == old(v.inodes[..])[i := MadeInode(old(v.inodes[i]), m, isDir, p)]
    ensures r == 0 ==> d < v.inodes.Length && x == FreeFrom(DirOf(old(v.inodes[d]), old(v.disk[..])), 0)
    ensures r == 0 ==> forall k: nat :: (k < i ==> k in old(v.live)) && (k < p ==> k in old(v.used))
    ensures v.disk.Length > 0 && v.disk[0] == old(v.disk[0])
  {
    hide Valid, Inv, Find, Route, Dirname, Basename, Cut, Creating, CreateReady, CreateResult, SuperOf, Volume.MapsOk,
      Volume.DiskOk, FromByte, DirOf, MadeInode, FreeFrom, WithMode;
    d, x, i, p := 0, 0, 0, 0;
    ValidParts(v);
    DiskFacts(v);
    var inum, leaf, fd, k, nextInode, nextBlock;
    r, inum, leaf, fd, k, nextInode, nextBlock := FindRoom(v, path);
    if r < 0 { return; }
    d, x, i, p := inum, k, nextInode, nextBlock;
    AddEntry(v, inum, fd, k, nextInode, leaf, isDir, m, nextBlock, typed);
  }

  // ---- update_disk and the namespace --------------------------------------------------------------------

  /** A rewrite of the metadata region changes no path. */
  lemma {:induction false} FindMeta(first: nat, s: State, disk: seq<Block>, q: seq<Name>)
    requires Inv(first, s) && SameOutside(s.disk, disk, 1, first)
    ensures Find(TreeOf(s.(disk := disk)), q) == Find(TreeOf(s), q)
  {
    hide Inv, DirOf, IsDir, LookupIn, SameOutside;
    InvTree(first, s);
    if q != [] {
      FindMeta(first, s, disk, q[..|q| - 1]);
      FindLive(TreeOf(s), q[..|q| - 1]);
      MetaDirs(first, s, disk);
    }
  }

  lemma FindMetaAll(first: nat, s: State, disk: seq<Block>)
    requires Inv(first, s) && SameOutside(s.disk, disk, 1, first)
    ensures forall q: seq<Name> :: Find(TreeOf(s.(disk := disk)), q) == Find(TreeOf(s), q)
  {
    hide Inv, Find, SameOutside;
    forall q: seq<Name> ensures Find(TreeOf(s.(disk := disk)), q) == Find(TreeOf(s), q) {
      FindMeta(first, s, disk, q);
    }
  }

  /** Files other than those in `but` have the same inodes and contents; all directories but d have the same entries. */
  ghost predicate SameBut(s: State, s': State, but: set<nat>) {
    && |s'.inodes| == |s.inodes|
    && (forall j :: j in s.sh.trees && j !in but && j < |s.inodes| ==>
          j in s'.sh.trees && s'.inodes[j].mode == s.inodes[j].mode && Contents(s', j) == Contents(s, j))
  }

  /** What create has done: the path, and no other, leads to a new inode, which is empty; nothing else has changed
      but the contents of the parent directory. */
  ghost predicate CreatedNode(s: State, s': State, path: seq<byte>, isDir: bool, d: nat, i: nat, p: nat) {
    && d == Find(TreeOf(s), Route(Dirname(path))) && i !in s.live && i < |s'.inodes|
    && s'.sh.trees.Keys == s.sh.trees.Keys + {i} && s'.live == s.live + {i}
    && (forall q: seq<Name> :: Find(TreeOf(s'), q) == AfterCreate(TreeOf(s), Route(path), i, isDir, q))
    && SameBut(s, s', {d})
    && (IsDir(s'.inodes[i]) <==> isDir) && Contents(s', i) == (if isDir then ZeroBlock() else [])
    && s'.used == (if isDir then s.used + {p} else s.used) && p !in s.used
    && LeakedBlocks(s'.owner) == LeakedBlocks(s.owner) && Aside(s, s', d, i) && (isDir || NullInode(s'.inodes[i]))
  }

  lemma CreatedPaths(first: nat, s: State, s': State, d: nat, x: nat, i: u30, leaf: Name, isDir: bool, p: u32,
                     p0: seq<Name>)
    requires Added(TreeOf(s), TreeOf(s'), d, x, i, leaf) && Find(TreeOf(s), p0) == d && i as nat < |s'.inodes|
    requires IsDir(s'.inodes[i]) <==> isDir
    ensures forall q: seq<Name> :: Find(TreeOf(s'), q) == AfterCreate(TreeOf(s), p0 + [leaf], i, isDir, q)
  {
    hide Added, Find, IsDir, AfterCreate;
    forall q: seq<Name> ensures Find(TreeOf(s'), q) == AfterCreate(TreeOf(s), p0 + [leaf], i, isDir, q) {
      FindCreated(TreeOf(s), TreeOf(s'), d, x, i, leaf, p0, q);
    }
  }

  lemma DirStepSame(s: State, s': State, d: nat, gone: set<nat>, born: set<nat>)
    requires DirStep(s, s', d, gone, born) && FilesOk(s)
    requires forall j :: j in s.sh.trees && j !in gone && j < |s.inodes| && j < |s'.inodes| ==>
      s'.inodes[j].mode == s.inodes[j].mode
    ensures SameBut(s, s', gone + {d})
  {
    hide FilesOk, FileData, SameFileFields;
    forall j | j in s.sh.trees && j !in gone && j != d && j < |s.inodes|
      ensures j in s'.sh.trees && j < |s'.inodes| && Contents(s', j) == Contents(s, j)
    {
      DirStepOthers(s, s', d, gone, born, j);
    }
  }

  lemma NewDirInode(first: nat, s: State, s': State, d: nat, x: nat, i: u30, leaf: Name, p: u32)
    requires Creating(first, s, s', d, x, i, leaf, true, p)
    ensures i as nat < |s'.inodes|
    ensures var nd := s'.inodes[i];
      nd.direct[0] == p && nd.direct[1] == 0 && nd.indir1 == 0 && nd.indir2 == 0 && nd.size == BLOCK_SIZE
  {
    hide CreateReady, EntryWritten, NewShadow, NewEntry, IsDir, DirOf, LookupIn;
    CreatingParts(first, s, s', d, x, i, leaf, true, p);
  }

  lemma NewDirContents(first: nat, s: State, s': State, d: nat, x: nat, i: u30, leaf: Name, p: u32)
    requires Inv(first, s) && Creating(first, s, s', d, x, i, leaf, true, p)
    ensures i as nat < |s'.inodes| && Contents(s', i) == ZeroBlock()
  {
    hide Inv, Creating, BlocksOk, FileData, ZeroBlock, FilesOk, InodesOk, TreeOk;
    InvTree(first, s);
    NewDirInode(first, s, s', d, x, i, leaf, p);
    CreatingParts(first, s, s', d, x, i, leaf, true, p);
    NewBlockKept(first, s, s', d, x, i, leaf, true, p);
    FreeBlockZero(first, s, p);
    OneBlockData(s'.inodes[i], s'.disk);
  }

  lemma NewFileContents(first: nat, s: State, s': State, d: nat, x: nat, i: u30, leaf: Name, p: u32)
    requires Creating(first, s, s', d, x, i, leaf, false, p)
    ensures i as nat < |s'.inodes| && Contents(s', i) == [] && NullInode(s'.inodes[i])
  {
    hide CreateReady, EntryWritten, NewShadow, NewEntry, DirOf, IsDir, FileData;
    CreatingParts(first, s, s', d, x, i, leaf, false, p);
    EmptyFileOk(i, s'.inodes[i], s'.disk, map[]);
  }

  lemma NewContents(first: nat, s: State, s': State, d: nat, x: nat, i: u30, leaf: Name, isDir: bool, p: u32)
    requires Inv(first, s) && Creating(first, s, s', d, x, i, leaf, isDir, p)
    ensures i as nat < |s'.inodes| && Contents(s', i) == (if isDir then ZeroBlock() else [])
    ensures isDir || NullInode(s'.inodes[i])
  {
    hide Inv, Creating, Contents, ZeroBlock, NullInode;
    if isDir {
      NewDirContents(first, s, s', d, x, i, leaf, p);
    } else {
      NewFileContents(first, s, s', d, x, i, leaf, p);
    }
  }

  lemma NewBlockKept(first: nat, s: State, s': State, d: nat, x: nat, i: u30, leaf: Name, isDir: bool, p: u32)
    requires Inv(first, s) && Creating(first, s, s', d, x, i, leaf, isDir, p)
    ensures p < |s'.disk| == |s.disk| && s'.disk[p] == s.disk[p] && p > 0
  {
    hide Inv, Entries, NewShadow, NewEntry, LookupIn, DirOf, IsDir, GoodName, NewInode;
    InvKeys(first, s);
    CreateBlocks(first, s, s', d, x, i, leaf, isDir, p);
  }

  lemma OneBlockData(nd: Inode, disk: seq<Block>)
    requires nd.direct[0] != 0 && nd.direct[1] == 0 && nd.indir1 == 0 && nd.indir2 == 0 && nd.size == BLOCK_SIZE
    ensures FileData(nd, disk) == Blk(disk, nd.direct[0])
  {
    var b := Blk(disk, nd.direct[0]);
    assert nd.direct[1..] != [] && nd.direct[1..][0] == 0;
    assert BeforeNull(nd.direct) == [nd.direct[0]];
    assert ReadBlocks(disk, [nd.direct[0]]) == b + [];
    assert b + [] + [] + [] == b && b[..BLOCK_SIZE] == b;
  }

  lemma CreateSummary(first: nat, s: State, s': State, path: seq<byte>, d: nat, x: nat, i: u30, leaf: Name, isDir: bool,
                      p: u32)
    requires Inv(first, s) && Creating(first, s, s', d, x, i, leaf, isDir, p)
    requires d == Find(TreeOf(s), Route(Dirname(path))) && Route(path) == Route(Dirname(path)) + [leaf]
    ensures Inv(first, s') && CreatedNode(s, s', path, isDir, d, i, p)
  {
    hide Inv, Find, FilesOk, DirStep, Added, Route, Dirname, SameBut, LeakedBlocks, Contents, Creating, Aside,
      NullInode, TreeOk, InodesOk, BlocksOk, IsDir, AfterCreate, ZeroBlock, DirOf, LookupIn;
    CreateKeepsInv(first, s, s', d, x, i, leaf, isDir, p);
    CreatingParts(first, s, s', d, x, i, leaf, isDir, p);
    InvKeys(first, s);
    InvTree(first, s);
    CreateEmpty(first, s, s', d, x, i, leaf, isDir, p);
    CreatedPaths(first, s, s', d, x, i, leaf, isDir, p, Route(Dirname(path)));
    DirStepSame(s, s', d, {}, {i as nat});
    NewContents(first, s, s', d, x, i, leaf, isDir, p);
    StepAside(s, s', d, i, {}, {i as nat});
    NoNewLeak(s.owner, p, Data(i, Direct, 0));
    assert {} + {d} == {d};
  }

  lemma NoNewLeak(owner: Owner, p: nat, slot: Slot)
    requires p !in owner && !slot.Leaked?
    ensures LeakedBlocks(owner[p := slot]) == LeakedBlocks(owner)
  {
  }

  lemma CreatedMeta(first: nat, s: State, s': State, disk: seq<Block>, path: seq<byte>, isDir: bool, d: nat, i: nat,
                    p: nat)
    requires Inv(first, s') && CreatedNode(s, s', path, isDir, d, i, p) && SameOutside(s'.disk, disk, 1, first)
    ensures Inv(first, s'.(disk := disk)) && CreatedNode(s, s'.(disk := disk), path, isDir, d, i, p)
  {
    hide Inv, Find, FileData, Route, Dirname, LeakedBlocks, SameOutside, AfterCreate, IsDir, Aside;
    MetaKeepsInv(first, s', disk);
    FindMetaAll(first, s', disk);
    AsideMeta(first, s, s', disk, d, i);
  }

  /** What create leaves in the inode table and in the parent directory: the new inode, and the first free entry filled
      in. */
  ghost predicate CreatedEntry(s: State, s': State, path: seq<byte>, isDir: bool, d: nat, i: nat, p: nat, m: Meta) {
    && d < |s.inodes| && d < |s'.inodes| && i < |s.inodes| && i < 0x4000_0000 && p < 0x1_0000_0000
    && s'.inodes == s.inodes[i := MadeInode(s.inodes[i], m, isDir, p)]
    && (var es, leaf := DirOf(s.inodes[d], s.disk), Cut(Basename(path));
        var x := FreeFrom(es, 0);
        x < N_DIRENTS && |leaf| < NAME_SIZE && DirOf(s'.inodes[d], s'.disk) == es[x := NewEntry(es, x, i, leaf, isDir)])
  }

  lemma CreatedDir(first: nat, s: State, s': State, d: nat, x: nat, i: u30, leaf: Name, isDir: bool, p: u32)
    requires Inv(first, s) && Creating(first, s, s', d, x, i, leaf, isDir, p)
    ensures d < |s.inodes| == |s'.inodes| && d in s'.sh.trees && IsDir(s'.inodes[d]) && x < N_DIRENTS
    ensures |leaf| < NAME_SIZE && d != i as nat
    ensures var es := DirOf(s.inodes[d], s.disk);
      DirOf(s'.inodes[d], s'.disk) == es[x := NewEntry(es, x, i, leaf, isDir)]
  {
    hide Inv, NewInode, IsDirMode, Entries, GoodName, LookupIn, NewEntry, NewTree;
    InvKeys(first, s);
    CreateReadyParts(first, s, d, x, i, leaf, p);
    EntryDir(s, s', d, x, NewEntry(DirOf(s.inodes[d], s.disk), x, i, leaf, isDir));
  }

  /** The entry and the inode that create has made; with the mode `typed`, the state is s1. */
  lemma EntryMade(first: nat, s: State, s1: State, s': State, path: seq<byte>, d: nat, x: nat, i: u30, isDir: bool,
                  p: u32, m: Meta, typed: u32)
    requires d < |s.inodes| && i as nat < |s.inodes| && x == FreeFrom(DirOf(s.inodes[d], s.disk), 0)
    requires s'.inodes == s.inodes[i := MadeInode(s.inodes[i], m, isDir, p)] && SameOutside(s1.disk, s'.disk, 1, first)
    requires s1.inodes == s'.inodes[i := s'.inodes[i].(mode := typed)]
    requires Inv(first, s) && Creating(first, s, s1, d, x, i, Cut(Basename(path)), isDir, p) && Inv(first, s1)
    ensures CreatedEntry(s, s', path, isDir, d, i, p, m)
  {
    hide Inv, Creating, Basename, Cut, IsDir, DirOf, FreeFrom, NewEntry, MadeInode, FilesOk, InodesOk, BlocksOk, TreeOk,
      SameOutside;
    InvTree(first, s1);
    CreatedDir(first, s, s1, d, x, i, Cut(Basename(path)), isDir, p);
    MetaDirs(first, s1, s'.disk);
    assert s1.inodes[d] == s'.inodes[d];
  }

  /** create, fs_create and fs_mkdir after the type bit has been added to the mode. What is made is a file or a
      directory, and the volume stays consistent, exactly if the mode says the same as isDir. */
  method Create(v: Volume, path: seq<byte>, m: Meta, isDir: bool)
    returns (r: int, ghost d: nat, ghost i: nat, ghost p: nat)
    requires Valid(v) && 0 !in path && (IsDirMode(m.mode) ==> isDir)
    modifies v`used, v`live, v`owner, v`shadow, v.inodeMap, v.blockMap, v.disk, v.inodes
    ensures r == CreateResult(old(StateOf(v)), path)
    ensures r != 0 ==> Valid(v) && StateOf(v) == old(StateOf(v))
    ensures r == 0 ==> v.Synced() && (Valid(v) <==> (IsDirMode(m.mode) <==> isDir))
    ensures r == 0 && Valid(v) ==> CreatedNode(old(StateOf(v)), StateOf(v), path, isDir, d, i, p)
    ensures r == 0 ==> CreatedEntry(old(StateOf(v)), StateOf(v), path, isDir, d, i, p, m)
    ensures r == 0 ==> forall k: nat :: (k < i ==> k in old(v.live)) && (k < p ==> k in old(v.used))
    ensures v.disk.Length > 0 && v.disk[0] == old(v.disk[0])
  {
    hide Valid, Inv, Creating, CreatedNode, CreatedEntry, CreateResult, Holds, SuperOf, Route, Dirname, Basename, Cut,
      IsDirMode, Find, FreeFrom, MadeInode;
    ghost var s, first := StateOf(v), v.sb.First();
    ValidParts(v);
    DiskFacts(v);
    ghost var x, i0: u30, p0: u32;
    ghost var typed: u32 := if isDir then (if IsDirMode(m.mode) then m.mode else S_IFDIR) else m.mode;
    DirBit();
    r, d, x, i0, p0 := CreateNode(v, path, m, isDir, typed);
    i, p := i0, p0;
    if r == 0 {
      ghost var s1 := WithMode(StateOf(v), i, typed);
      CreateSummary(first, s, s1, path, d, x, i0, Cut(Basename(path)), isDir, p0);
      UpdateDisk(v);
      EntryMade(first, s, s1, StateOf(v), path, d, x, i0, isDir, p0, m, typed);
      CreatedMeta(first, s, s1, v.disk[..], path, isDir, d, i, p);
      MadeMode(s.inodes[i], m, isDir, p0);
      if typed == m.mode {
        assert StateOf(v) == s1.(disk := v.disk[..]);
        ValidFrom(v);
      } else {
        CreatedBroken(v, s, s1, path, d, i, p, m.mode);
      }
    }
  }

  lemma DirBit()
    ensures IsDirMode(S_IFDIR)
  {
  }

  lemma MadeMode(nd: Inode, m: Meta, isDir: bool, p: u32)
    ensures MadeInode(nd, m, isDir, p).mode == m.mode
  {
  }

  /** A directory made with the type bits of something else leaves no consistent state. */
  lemma CreatedBroken(v: Volume, s: State, s1: State, path: seq<byte>, d: nat, i: nat, p: nat, mode: u32)
    requires Inv(v.sb.First(), s1.(disk := v.disk[..])) && CreatedNode(s, s1.(disk := v.disk[..]), path, true, d, i, p)
    requires |s1.inodes| == v.inodes.Length && i < |s1.inodes| && !IsDirMode(mode)
    requires v.inodes[..] == s1.inodes[i := s1.inodes[i].(mode := mode)] && v.live == s1.live
    ensures !Valid(v)
  {
    hide Inv, IsDirMode, Find, Route, Dirname, AfterCreate, SameBut, Aside, LeakedBlocks, Contents;
    ModeBreaksInv(v.sb.First(), s1.(disk := v.disk[..]), StateOf(v), i, mode);
  }
}
