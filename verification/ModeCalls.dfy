/** fs_create, fs_mkdir, fs_chmod and fs_utime: the calls that set fields of an inode. */
module ModeCalls {
  import opened Bytes
  import opened Codec
  import opened FileTrees
  import opened Volumes
  import opened Consistency
  import opened Mounted
  import opened Paths
  import opened Names
  import opened NameChanges
  import opened DirSteps
  import opened DirOps
  import opened FileCalls
  import FileContents

  /** A node can be made in directory d: an entry, an inode and a block are free. */
  ghost predicate HasRoom(s: State, d: int) {
    && (0 < d < |s.inodes| && exists x :: 0 <= x < N_DIRENTS && !DirOf(s.inodes[d], s.disk)[x].valid)
    && (exists j: nat :: j < |s.inodes| && j !in s.live) && (exists p: nat :: p < |s.disk| && p !in s.used)
  }

  lemma FullIs(es: Dirents)
    ensures FreeFrom(es, 0) < N_DIRENTS <==> exists x :: 0 <= x < N_DIRENTS && !es[x].valid
  {
  }

  /** What create and mkdir return, by the parent and the path. */
  lemma CreateCodes(v: Volume, path: seq<byte>)
    requires Valid(v)
    ensures var s, r := StateOf(v), CreateResult(StateOf(v), path);
      var d, f := PathInode(s, Dirname(path)), PathInode(s, path);
      && (r == 0 <==> DirAt(s, d) && f <= 0 && HasRoom(s, d)) && (r == -EEXIST <==> DirAt(s, d) && f > 0)
      && (r == -ENOSPC <==> DirAt(s, d) && f <= 0 && !HasRoom(s, d))
      && (r == -ENOTDIR <==> d == -ENOTDIR || FileAt(s, d)) && (r == -ENOENT <==> d == -ENOENT)
  {
    hide Valid, Resolve, Route, Dirname, IsDir, DirOf, FreeFrom;
    FileCodes(v, Dirname(path));
    var s, d := StateOf(v), PathInode(StateOf(v), Dirname(path));
    if DirAt(s, d) { FullIs(DirOf(s.inodes[d], s.disk)); }
  }

  /** The fields of a new inode. */
  lemma CreatedFields(s: State, s': State, path: seq<byte>, isDir: bool, d: nat, i: nat, p: nat, m: Meta, mode: u32)
    requires CreatedEntry(s, s', path, isDir, d, i, p, m)
    requires m.mode == OrBit(mode, if isDir then S_IFDIR else S_IFREG)
    ensures i < |s.inodes| == |s'.inodes| && p < 0x1_0000_0000
    ensures s'.inodes == s.inodes[i := s.inodes[i].(uid := m.uid, gid := m.gid, mode := s'.inodes[i].mode,
      ctime := m.now, mtime := m.now, size := if isDir then BLOCK_SIZE else 0, direct := s'.inodes[i].direct)]
    ensures s'.inodes[i].direct == if isDir then s.inodes[i].direct[0 := p] else s.inodes[i].direct
    ensures forall k: nat :: Bin(s'.inodes[i].mode, k) <==> k == (if isDir then 14 else 15) || Bin(mode, k)
  {
    hide Bin, OrBit, DirOf, FreeFrom, NewEntry, Cut, Basename;
    forall k: nat
      ensures Bin(m.mode, k) <==> k == (if isDir then 14 else 15) || Bin(mode, k)
    {
      OrBitDigits(mode, k);
    }
  }

  /** fs_create: for every mode, the new inode is a regular file. */
  method FsCreate(v: Volume, path: seq<byte>, m: Meta) returns (r: int, ghost d: nat, ghost i: nat, ghost p: nat)
    requires Valid(v) && 0 !in path
    modifies v`used, v`live, v`owner, v`shadow, v.inodeMap, v.blockMap, v.disk, v.inodes
    ensures Valid(v)
    ensures r == CreateResult(old(StateOf(v)), path)
    ensures r != 0 ==> StateOf(v) == old(StateOf(v))
    ensures r == 0 ==> v.Synced() && CreatedNode(old(StateOf(v)), StateOf(v), path, false, d, i, p)
    ensures r == 0 ==>
      CreatedEntry(old(StateOf(v)), StateOf(v), path, false, d, i, p, m.(mode := OrBit(m.mode, S_IFREG)))
    ensures v.disk.Length > 0 && v.disk[0] == old(v.disk[0])
    ensures var s := old(StateOf(v)); var d, f := PathInode(s, Dirname(path)), PathInode(s, path);
      && (r == 0 <==> DirAt(s, d) && f <= 0 && HasRoom(s, d)) && (r == -EEXIST <==> DirAt(s, d) && f > 0)
      && (r == -ENOSPC <==> DirAt(s, d) && f <= 0 && !HasRoom(s, d))
      && (r == -ENOTDIR <==> d == -ENOTDIR || FileAt(s, d)) && (r == -ENOENT <==> d == -ENOENT)
    ensures r == 0 ==> i < v.inodes.Length && v.inodes[..] == old(v.inodes[..])[i := old(v.inodes[i]).(
      uid := m.uid, gid := m.gid, mode := v.inodes[i].mode, ctime := m.now, mtime := m.now,
      size := 0)]
    ensures r == 0 ==> forall k: nat :: Bin(v.inodes[i].mode, k) <==> k == 15 || Bin(m.mode, k)
  {
    hide Valid, CreateResult, CreatedNode, CreatedEntry, IsDirMode, OrBit, Bin, HasRoom, Resolve, Route, Dirname;
    ModeBits(m.mode);
    CreateCodes(v, path);
    ghost var s := StateOf(v);
    r, d, i, p := Create(v, path, m.(mode := OrBit(m.mode, S_IFREG)), false);
    if r == 0 { CreatedFields(s, StateOf(v), path, false, d, i, p, m.(mode := OrBit(m.mode, S_IFREG)), m.mode); }
  }

  /** The bits of a mode that turn it into something else than a directory once S_IFDIR is added. */
  predicate DirModeOk(mode: u32) {
    mode / 0x1000 % 4 == 0 && mode / S_IFREG % 2 == 0
  }

  /** fs_mkdir. The file system stays consistent exactly when the mode brings no other file type. */
  method FsMkdir(v: Volume, path: seq<byte>, m: Meta) returns (r: int, ghost d: nat, ghost i: nat, ghost p: nat)
    requires Valid(v) && 0 !in path
    modifies v`used, v`live, v`owner, v`shadow, v.inodeMap, v.blockMap, v.disk, v.inodes
    ensures r == CreateResult(old(StateOf(v)), path)
    ensures r != 0 ==> Valid(v) && StateOf(v) == old(StateOf(v))
    ensures r == 0 ==> v.Synced() && (Valid(v) <==> DirModeOk(m.mode))
    ensures r == 0 && Valid(v) ==> CreatedNode(old(StateOf(v)), StateOf(v), path, true, d, i, p)
    ensures r == 0 ==>
      CreatedEntry(old(StateOf(v)), StateOf(v), path, true, d, i, p, m.(mode := OrBit(m.mode, S_IFDIR)))
    ensures v.disk.Length > 0 && v.disk[0] == old(v.disk[0])
    ensures var s := old(StateOf(v)); var d, f := PathInode(s, Dirname(path)), PathInode(s, path);
      && (r == 0 <==> DirAt(s, d) && f <= 0 && HasRoom(s, d)) && (r == -EEXIST <==> DirAt(s, d) && f > 0)
      && (r == -ENOSPC <==> DirAt(s, d) && f <= 0 && !HasRoom(s, d))
      && (r == -ENOTDIR <==> d == -ENOTDIR || FileAt(s, d)) && (r == -ENOENT <==> d == -ENOENT)
    ensures r == 0 ==> i < v.inodes.Length && v.inodes[..] == old(v.inodes[..])[i := old(v.inodes[i]).(
      uid := m.uid, gid := m.gid, mode := v.inodes[i].mode, ctime := m.now, mtime := m.now,
      size := BLOCK_SIZE, direct := v.inodes[i].direct)] && v.inodes[i].direct == old(v.inodes[i].direct)[0 := p]
    ensures r == 0 ==> forall k: nat :: Bin(v.inodes[i].mode, k) <==> k == 14 || Bin(m.mode, k)
  {
    hide Valid, CreateResult, CreatedNode, CreatedEntry, IsDirMode, OrBit, Bin, HasRoom, Resolve, Route, Dirname;
    ModeBits(m.mode);
    CreateCodes(v, path);
    ghost var s := StateOf(v);
    r, d, i, p := Create(v, path, m.(mode := OrBit(m.mode, S_IFDIR)), true);
    if r == 0 { CreatedFields(s, StateOf(v), path, true, d, i, p, m.(mode := OrBit(m.mode, S_IFDIR)), m.mode); }
  }

  // ---- fs_chmod and fs_utime -----------------------------------------------------------------------------

  /** Only inode i has changed, and neither its pointers nor its size nor its file type. */
  ghost predicate FieldsSet(s: State, s': State, i: nat, nd: Inode) {
    && i < |s.inodes| && s' == s.(inodes := s.inodes[i := nd])
    && SameFileFields(s.inodes[i], nd) && (IsDir(nd) <==> IsDir(s.inodes[i]))
  }

  lemma FieldsFiles(s: State, s': State, i: nat, nd: Inode)
    requires FilesOk(s) && i in s.sh.trees && FieldsSet(s, s', i, nd)
    ensures FilesOk(s')
  {
    hide FileOk, IsDir;
    forall j | j in s'.sh.trees
      ensures FileOk(j, s'.inodes[j], s'.sh.trees[j], s'.sh.extent[j], s'.disk, s'.owner)
    {
      FileFieldsKept(j, s.inodes[j], s'.inodes[j], s.sh.trees[j], s.sh.extent[j], s.disk, s.owner);
    }
  }

  /** Such a change keeps the invariant. */
  lemma FieldsKeepInv(first: nat, s: State, s': State, i: nat, nd: Inode)
    requires Inv(first, s) && i in s.sh.trees && FieldsSet(s, s', i, nd)
    ensures Inv(first, s')
  {
    hide FilesOk, BlocksOk, IsDir, NamesOk, Entries;
    FieldsFiles(s, s', i, nd);
    InvKeys(first, s);
    NamesKept(s, s', s.sh.trees.Keys, s.sh.place, s.sh.depth);
  }

  /** The mode that fs_chmod stores. */
  function ChmodMode(mode0: u32, mode: u32): u32 {
    if IsDirMode(mode0) then OrBit(mode, S_IFDIR) else OrBit(mode, S_IFREG)
  }

  lemma ChmodKeepsType(mode0: u32, mode: u32)
    ensures (IsDirMode(ChmodMode(mode0, mode)) <==> IsDirMode(mode0)) <==> (IsDirMode(mode0) ==> DirModeOk(mode))
  {
    hide OrBit;
    ModeBits(mode);
  }

  lemma FieldsDirs(first: nat, s: State, s': State, i: nat, nd: Inode)
    requires Inv(first, s) && i in s.sh.trees && FieldsSet(s, s', i, nd)
    ensures SameDirs(TreeOf(s), 0, s'.inodes, s'.disk)
  {
    hide Inv, IsDir, Entries;
  }

  lemma FieldsContents(s: State, s': State, i: nat, nd: Inode)
    requires FieldsSet(s, s', i, nd)
    ensures SameContents(s, s')
  {
    hide IsDir;
    forall j | j in s.sh.trees && j < |s.inodes|
      ensures Contents(s', j) == Contents(s, j)
    {
      SameFieldsData(s.inodes[j], s'.inodes[j], s.disk);
    }
  }

  /** What it does to the rest of the file system: nothing. */
  lemma FieldsEffect(first: nat, s: State, s': State, i: nat, nd: Inode, disk: seq<Block>)
    requires Inv(first, s) && i in s.sh.trees && FieldsSet(s, s', i, nd) && SameOutside(s.disk, disk, 1, first)
    ensures Inv(first, s'.(disk := disk)) && SamePaths(s, s'.(disk := disk)) && SameContents(s, s'.(disk := disk))
  {
    hide Inv, IsDir, TreeOk, SameDirs, SameContents, Resolve, SameOutside;
    FieldsKeepInv(first, s, s', i, nd);
    FieldsContents(s, s', i, nd);
    InvTree(first, s);
    FieldsDirs(first, s, s', i, nd);
    forall q: seq<Name> ensures Find(TreeOf(s'), q) == Find(TreeOf(s), q) {
      FindKeptAt(s, s', q);
    }
    assert s'.disk == s.disk && s'.sh == s.sh;
    MetaSame(first, s, s', disk);
  }

  /** Every file has the same contents. */
  ghost predicate SameContents(s: State, s': State) {
    |s'.inodes| == |s.inodes| && forall j :: j in s.sh.trees && j < |s.inodes| ==> Contents(s', j) == Contents(s, j)
  }

  lemma MetaSame(first: nat, s: State, s': State, disk: seq<Block>)
    requires Inv(first, s') && SamePaths(s, s') && SameContents(s, s') && SameOutside(s'.disk, disk, 1, first)
    requires s.sh == s'.sh
    ensures Inv(first, s'.(disk := disk)) && SamePaths(s, s'.(disk := disk)) && SameContents(s, s'.(disk := disk))
  {
    hide Inv, Find, FileContents.FileData, SameOutside;
    MetaKeepsInv(first, s', disk);
    FindMetaAll(first, s', disk);
  }

  /** fs_chmod. The file system stays consistent exactly when a directory is not given the type bits of something
      else. */
  method FsChmod(v: Volume, path: seq<byte>, mode: u32) returns (r: int)
    requires Valid(v)
    modifies v.inodes, v.disk
    ensures r == if PathInode(old(StateOf(v)), path) > 0 then 0 else PathInode(old(StateOf(v)), path)
    ensures r != 0 ==> StateOf(v) == old(StateOf(v)) && Valid(v)
    ensures r == 0 ==> var i := PathInode(old(StateOf(v)), path);
      0 < i < v.inodes.Length
        && v.inodes[..] == old(v.inodes[..])[i := old(v.inodes[i]).(mode := ChmodMode(old(v.inodes[i]).mode, mode))]
    ensures r == 0 ==> v.Synced() && SameOutside(old(v.disk[..]), v.disk[..], 1, v.sb.First())
    ensures r == 0 ==> var i := PathInode(old(StateOf(v)), path);
      (Valid(v) <==> (old(IsDir(v.inodes[i])) ==> DirModeOk(mode)))
    ensures r == 0 && Valid(v) ==> SamePaths(old(StateOf(v)), StateOf(v)) && SameContents(old(StateOf(v)), StateOf(v))
    ensures v.disk.Length > 0 && v.disk[0] == old(v.disk[0])
    ensures r == 0 ==> var i := PathInode(old(StateOf(v)), path);
      forall k: nat :: Bin(v.inodes[i].mode, k) <==>
        k == (if old(IsDir(v.inodes[i])) then 14 else 15) || Bin(mode, k)
  {
    hide Valid, Inv, Route, Resolve, WalkSafe, Volume.DiskOk, Volume.MapsOk, Holds, SuperOf, SamePaths, SameContents,
      DirModeOk;
    ghost var s, first := StateOf(v), v.sb.First();
    ValidParts(v);
    DiskFacts(v);
    var inum := Translate(v, path);
    if inum < 0 { return inum; }
    InvKeys(first, s);
    ghost var mode0 := v.inodes[inum].mode;
    forall k: nat
      ensures Bin(ChmodMode(mode0, mode), k) <==> k == (if IsDirMode(mode0) then 14 else 15) || Bin(mode, k)
    {
      OrBitDigits(mode, k);
    }
    v.inodes[inum] := v.inodes[inum].(mode := OrBit(mode, if IsDir(v.inodes[inum]) then S_IFDIR else S_IFREG));
    assert v.inodes[inum].mode == ChmodMode(mode0, mode);
    ghost var s1 := StateOf(v);
    ChmodKeepsType(mode0, mode);
    UpdateDisk(v);
    if IsDirMode(mode0) ==> DirModeOk(mode) {
      FieldsEffect(first, s, s1, inum, s1.inodes[inum], v.disk[..]);
      ValidFrom(v);
    } else {
      ChmodBroken(v, s, s1, inum, ChmodMode(mode0, mode));
    }
    return 0;
  }

  lemma ChmodBroken(v: Volume, s: State, s1: State, i: nat, mode: u32)
    requires Inv(v.sb.First(), s) && i in s.sh.trees && i < |s.inodes| && IsDir(s.inodes[i]) && !IsDirMode(mode)
    requires s1 == WithMode(s, i, mode)
    requires StateOf(v) == s1.(disk := v.disk[..]) && SameOutside(s.disk, v.disk[..], 1, v.sb.First())
    ensures !Valid(v)
  {
    hide Inv, IsDirMode;
    MetaKeepsInv(v.sb.First(), s, v.disk[..]);
    ModeBreaksInv(v.sb.First(), s.(disk := v.disk[..]), StateOf(v), i, mode);
  }

  /** fs_utime: the time of change of the inode, and nothing else. */
  method FsUtime(v: Volume, path: seq<byte>, modtime: u32) returns (r: int)
    requires Valid(v)
    modifies v.inodes, v.disk
    ensures Valid(v)
    ensures r == if PathInode(old(StateOf(v)), path) > 0 then 0 else PathInode(old(StateOf(v)), path)
    ensures r != 0 ==> StateOf(v) == old(StateOf(v))
    ensures r == 0 ==> var i := PathInode(old(StateOf(v)), path);
      0 < i < v.inodes.Length && v.inodes[..] == old(v.inodes[..])[i := old(v.inodes[i]).(mtime := modtime)]
    ensures r == 0 ==> v.Synced() && SameOutside(old(v.disk[..]), v.disk[..], 1, v.sb.First())
    ensures r == 0 ==> SamePaths(old(StateOf(v)), StateOf(v)) && SameContents(old(StateOf(v)), StateOf(v))
    ensures v.disk.Length > 0 && v.disk[0] == old(v.disk[0])
  {
    hide Valid, Inv, Route, Resolve, WalkSafe, Volume.DiskOk, Volume.MapsOk, IsDirMode, Holds, SuperOf, SamePaths,
      SameContents;
    ghost var s, first := StateOf(v), v.sb.First();
    ValidParts(v);
    DiskFacts(v);
    var inum := Translate(v, path);
    if inum < 0 { return inum; }
    InvKeys(first, s);
    v.inodes[inum] := v.inodes[inum].(mtime := modtime);
    ghost var s1 := StateOf(v);
    UpdateDisk(v);
    FieldsEffect(first, s, s1, inum, s1.inodes[inum], v.disk[..]);
    ValidFrom(v);
    return 0;
  }
}
