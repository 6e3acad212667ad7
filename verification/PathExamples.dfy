/** Small runs from mkfs on that show which paths and modes the code does not handle. */
module PathExamples {
  import opened Bytes
  import opened Codec
  import opened FileTrees
  import opened Volumes
  import opened Consistency
  import opened FileContents
  import opened Mounted
  import opened Metadata
  import opened Accounting
  import opened Paths
  import opened Names
  import opened NameChanges
  import opened DirSteps
  import opened DirOps
  import opened FileCalls
  import opened Unlinking
  import opened Rmdir
  import opened Moving
  import opened ModeCalls
  import opened Images
  import opened Runs
  import opened Examples

  lemma NoRoute(path: seq<byte>)
    requires Tokens(path) == []
    ensures Route(path) == [] && OwnParent(path)
  {
    hide Tokens;
    NoNames([]);
  }

  // ---- the root ------------------------------------------------------------------------------------------------

  /** Removing the root of a new file system is reported as a success, and no consistent state is left. */
  method RemoveRoot(n: nat, now: u32, path: seq<byte>) returns (v: Volume, r: int)
    requires 5 <= n < 0x20_0000 && 0 !in path && Tokens(path) == []
    ensures fresh(v) && r == 0 && Broken(v.sb.First(), StateOf(v))
  {
    hide Valid, Inv, Clean, Holds, SuperOf, Layout, Tokens, Route, NewState, DirOf, NoEntries, Entries, Broken, Resolve,
      IsDir, OwnParent;
    v := NewVolume(n, now);
    NoRoute(path);
    ghost var d;
    r, d := FsRmdir(v, path, now);
  }

  /** Renaming the root to a name in the root is reported as a success, and nothing has the new name. */
  method RenameRoot(n: nat, now: u32, src: seq<byte>, dst: seq<byte>) returns (v: Volume, r: int)
    requires 5 <= n < 0x20_0000 && 0 !in src && Tokens(src) == [] && OneName(dst)
    ensures Valid(v) && r == 0 && PathInode(StateOf(v), dst) == -ENOENT
  {
    hide Valid, Inv, Clean, Holds, SuperOf, Layout, Tokens, Route, NewState, DirOf, NoEntries, Entries, Resolve, IsDir,
      OwnParent, Moved, MovedEntry, Dirname, OneName;
    v := NewVolume(n, now);
    ghost var s := StateOf(v);
    NoRoute(src);
    ParentRoute(src);
    OneNameRoute(dst);
    ValidParts(v);
    RootDir(v.sb.First(), s);
    ghost var d;
    r, d := FsRename(v, src, dst, now);
    if Source(s, src) > 0 { NothingThere(s, EntryRoute(src)); }
  }

  lemma OneNameRoute(path: seq<byte>)
    requires OneName(path)
    ensures 0 !in path && Route(path) != [] && Route(Dirname(path)) == []
  {
    hide Tokens, Route, Dirname;
    InRoot(path);
  }

  /** A new file system has no other path than that of the root. */
  lemma NothingThere(s: State, q: seq<Name>)
    requires q != [] && forall q: seq<Name> :: Find(TreeOf(s), q) == if q == [] then 1 else -ENOENT
    ensures Find(TreeOf(s), q) == -ENOENT
  {
    hide Find;
  }

  // ---- modes ---------------------------------------------------------------------------------------------------

  /** Giving the root the type bits of a regular file is reported as a success, and leaves an inconsistent state. */
  method ChmodRoot(n: nat, now: u32, path: seq<byte>) returns (v: Volume, r: int)
    requires 5 <= n < 0x20_0000 && Tokens(path) == []
    ensures fresh(v) && r == 0 && !Valid(v)
  {
    hide Valid, Inv, Clean, Holds, SuperOf, Layout, Tokens, Route, NewState, DirOf, NoEntries, Entries, Resolve, IsDir,
      OwnParent;
    v := NewVolume(n, now);
    NoRoute(path);
    r := FsChmod(v, path, S_IFREG);
  }

  /** So does making a directory with those bits. */
  method MkdirFile(n: nat, path: seq<byte>, m: Meta) returns (v: Volume, r: int)
    requires 6 <= n < 0x20_0000 && OneName(path) && m.mode == S_IFREG
    ensures fresh(v) && r == 0 && !Valid(v)
  {
    hide Valid, Inv, Clean, Holds, SuperOf, Layout, Tokens, Route, NewState, DirOf, NoEntries, Entries, Find, IsDirMode,
      CreateResult, CreatedNode, CreatedEntry, FreeFrom, Dirname;
    v := NewVolume(n, m.now);
    OneNameRoute(path);
    RoomAtFirst(n);
    CanCreate(n, v.disk[..], m.now, StateOf(v), path);
    ghost var d, i, p;
    r, d, i, p := FsMkdir(v, path, m);
  }

  // ---- a path of more than ten components --------------------------------------------------------------------------

  /** The path "/a/a/..." of k components. */
  function Nested(k: nat): seq<byte> {
    if k == 0 then [] else Nested(k - 1) + [SLASH, 97]
  }

  function Chain(k: nat): (ns: seq<Name>)
    ensures |ns| == k
  {
    seq(k, _ => [97])
  }

  lemma OneMore(p: seq<byte>)
    ensures Tokens(p + [SLASH, 97]) == Tokens(p) + [[97]]
  {
    hide Tokens;
    TokensSlash(p);
    TokensJoin(p + [SLASH], [97]);
    assert p + [SLASH, 97] == p + [SLASH] + [97];
    OneToken();
  }

  lemma OneToken()
    ensures Tokens([97]) == [[97]]
  {
    var p: seq<byte> := [97];
    SpanWhole(p);
    assert p[..1] == p && p[1..] == [];
    assert Tokens(p) == [p] + Tokens([]);
  }

  lemma {:induction false} NestedTokens(k: nat)
    ensures Tokens(Nested(k)) == Chain(k) && 0 !in Nested(k)
  {
    hide Tokens;
    if k > 0 {
      NestedTokens(k - 1);
      OneMore(Nested(k - 1));
      assert Chain(k) == Chain(k - 1) + [[97]];
    } else {
      DotTokens();
    }
  }

  /** Such a path is resolved by at most ten of its components. */
  lemma NestedRoute(k: nat)
    ensures 0 !in Nested(k) && |Tokens(Nested(k))| == k
    ensures Route(Nested(k)) == Chain(if k <= MAX_PATH_LEN then k else MAX_PATH_LEN)
    ensures 0 < k <= MAX_PATH_LEN ==> Route(Dirname(Nested(k))) == Chain(k - 1)
  {
    hide Tokens, Dirname, Basename;
    NestedTokens(k);
    assert CutAll(Chain(k)) == Chain(k);
    if 0 < k <= MAX_PATH_LEN {
      assert Route(Nested(k)) == Chain(k);
      SplitRoute(Nested(k));
      assert Route(Dirname(Nested(k))) == Chain(k)[..k - 1];
    }
  }

  /** k directories have been made, each in the one before, and there is room for more. */
  ghost predicate Deep(first: nat, s: State, k: nat) {
    && k < MAX_PATH_LEN && Inv(first, s) && |s.disk| == 1024 && |s.inodes| == 256 && NullDirEmpty(s)
    && |s.live| == 2 + k && |s.used| <= 20 + k
    && var d := Find(TreeOf(s), Chain(k));
       0 < d < |s.inodes| && IsDir(s.inodes[d]) && NoEntries(DirOf(s.inodes[d], s.disk))
  }

  lemma DeepLayout()
    ensures Layout(1024).First() == 19 && Layout(1024).Inodes() == 256
  {
  }

  lemma DeepStart(first: nat, s: State, now: u32)
    requires Inv(first, s) && Fresh(1024, s, now)
    ensures Deep(first, s, 0)
  {
    hide Inv, Find, IsDirMode, DirOf, NoEntries, Layout, NewState, NullDirEmpty;
    NewCounts(1024, s, now);
    DeepLayout();
    assert Chain(0) == [];
  }

  lemma NewCounts(n: nat, s: State, now: u32)
    requires Fresh(n, s, now)
    ensures |s.inodes| == Layout(n).Inodes() && |s.live| == 2 && |s.used| == Layout(n).First() + 1
  {
    hide Find, IsDirMode, DirOf, NoEntries, Layout, NewTree, RootInode, NullDirEmpty, Below;
    BelowCount(Layout(n).First() + 1);
    LayoutSize(n);
  }

  /** In the last directory, another node can be made. */
  lemma DeepRoom(first: nat, s: State, k: nat)
    requires Deep(first, s, k)
    ensures CreateResult(s, Nested(k + 1)) == 0
  {
    hide Inv, IsDirMode, Resolve, Chain, Route, Dirname, DirOf, NoEntries, Nested, NoFreeInode, NoFreeBlock, Deep;
    DeepParts(first, s, k);
    NestedRoute(k + 1);
    DeepDir(first, s, k);
    RoomLeft(s);
  }

  lemma DeepDir(first: nat, s: State, k: nat)
    requires Deep(first, s, k)
    ensures var d := Find(TreeOf(s), Chain(k));
      0 < d < |s.inodes| && IsDir(s.inodes[d]) && FreeFrom(DirOf(s.inodes[d], s.disk), 0) == 0
    ensures Find(TreeOf(s), Chain(k + 1)) == -ENOENT
  {
    hide Inv, IsDirMode, Resolve, Chain, DirOf, NoEntries, NullDirEmpty, FreeFrom;
    var d := Find(TreeOf(s), Chain(k));
    InvTree(first, s);
    NothingBelow(TreeOf(s), k, d);
    NoneTaken(DirOf(s.inodes[d], s.disk));
  }

  lemma NothingBelow(n: NameTree, k: nat, d: nat)
    requires TreeOk(n) && d == Find(n, Chain(k)) && 0 < d < |n.inodes| && IsDir(n.inodes[d]) && NoEntries(Dir(n, d))
    ensures Find(n, Chain(k + 1)) == -ENOENT
  {
    hide TreeOk, IsDir, DirOf, NoEntries, Resolve;
    FindStep(n, Chain(k + 1));
    assert Chain(k + 1)[..k] == Chain(k);
    NoneHere(n, d, Chain(k + 1)[k]);
  }

  lemma NoneTaken(es: Dirents)
    requires NoEntries(es)
    ensures FreeFrom(es, 0) == 0
  {
  }

  lemma RoomLeft(s: State)
    requires |s.live| < |s.inodes| && |s.used| < |s.disk|
    ensures !NoFreeInode(s) && !NoFreeBlock(s)
  {
    if NoFreeInode(s) { Full(|s.inodes|, s.live); }
    if NoFreeBlock(s) { Full(|s.disk|, s.used); }
  }

  lemma NoneHere(n: NameTree, d: nat, leaf: Name)
    requires d < |n.inodes| && IsDir(n.inodes[d]) && NoEntries(Dir(n, d))
    ensures Step(n, d, leaf) == -ENOENT
  {
    hide IsDir, DirOf;
    LookupMiss(Dir(n, d), leaf);
  }

  lemma Full(n: nat, a: set<nat>)
    requires forall i: nat :: i < n ==> i in a
    ensures |a| >= n
  {
    BelowCount(n);
    FewerThan(Below(n), a);
  }

  /** One more directory has been made. */
  lemma DeepNext(first: nat, s: State, s': State, k: nat, d: nat, i: nat, p: nat)
    requires Deep(first, s, k) && k + 1 < MAX_PATH_LEN && NullDirEmpty(s')
    requires |s'.disk| == |s.disk| && |s'.inodes| == |s.inodes| && CreatedNode(s, s', Nested(k + 1), true, d, i, p)
    requires Inv(first, s')
    ensures Deep(first, s', k + 1)
  {
    hide Inv, IsDirMode, Find, Chain, Dirname, DirOf, NoEntries, NullDirEmpty, CreatedNode;
    MadeCounts(s, s', Nested(k + 1), d, i, p);
    MadeDeep(first, s, s', k, d, i, p);
  }

  lemma MadeCounts(s: State, s': State, path: seq<byte>, d: nat, i: nat, p: nat)
    requires CreatedNode(s, s', path, true, d, i, p)
    ensures |s'.live| == |s.live| + 1 && |s'.used| == |s.used| + 1
  {
    hide Find, SameBut, Aside, LeakedBlocks, Route, Dirname, FileData, ZeroBlock, NullInode, IsDir;
  }

  lemma MadeDeep(first: nat, s: State, s': State, k: nat, d: nat, i: nat, p: nat)
    requires k < MAX_PATH_LEN && CreatedNode(s, s', Nested(k + 1), true, d, i, p) && Inv(first, s')
    ensures Find(TreeOf(s'), Chain(k + 1)) == i && 0 < i < |s'.inodes| && IsDir(s'.inodes[i])
    ensures NoEntries(DirOf(s'.inodes[i], s'.disk))
  {
    hide Inv, IsDirMode, Find, Chain, Dirname, DirOf, NoEntries, SameBut, Aside, LeakedBlocks, Route, FileData,
      ZeroBlock, NullInode, Nested;
    NestedRoute(k + 1);
    assert Find(TreeOf(s'), Route(Nested(k + 1))) == i;
    InvKeys(first, s');
    EmptyDir(first, s', i);
  }

  /** A directory whose contents are all zero has no entries. */
  lemma EmptyDir(first: nat, s: State, i: nat)
    requires Inv(first, s) && i in s.sh.trees && i < |s.inodes| && IsDir(s.inodes[i])
    requires FileData(s.inodes[i], s.disk) == ZeroBlock()
    ensures NoEntries(DirOf(s.inodes[i], s.disk))
  {
    hide NamesOk, InodesOk, BlocksOk, FileOk, IsDirMode, FileData, ZeroBlock, Entries;
    OneBlockTree(i, s.inodes[i], s.sh.trees[i], s.disk, s.owner);
    OneBlockData(s.inodes[i], s.disk);
    EntriesOfZero();
  }

  /** A file at depth ten can be made, and unlinking it by a path of eleven components is reported as a success, but
      leaves it where it is. */
  method UnlinkDeep(m: Meta) returns (v: Volume, r: int)
    requires DirModeOk(m.mode)
    ensures Valid(v) && r == 0 && PathInode(StateOf(v), Nested(11)) > 0
  {
    hide Valid, Inv, Clean, Holds, SuperOf, Layout, Fresh, Deep, CreateResult, CreatedNode, CreatedEntry, Find, Route,
      Tokens, NoEntries, Entries, UnlinkDone, Nested, DirModeOk, FromByte, Volume.MapsOk, BlocksOk, FileCheck, OrBit;
    v := NewVolume(1024, m.now);
    ghost var first := v.sb.First();
    ValidParts(v);
    DeepStart(first, StateOf(v), m.now);
    ghost var d, i, p;
    var k := 0;
    while k < 9
      invariant 0 <= k <= 9 && Valid(v) && Deep(first, StateOf(v), k)
    {
      ghost var s := StateOf(v);
      DeepRoom(first, s, k);
      DeepParts(first, s, k);
      NestedRoute(k + 1);
      r, d, i, p := FsMkdir(v, Nested(k + 1), m);
      ValidParts(v);
      DeepNext(first, s, StateOf(v), k, d, i, p);
      k := k + 1;
    }
    ghost var s := StateOf(v);
    DeepRoom(first, s, 9);
    DeepParts(first, s, 9);
    NestedRoute(10);
    NestedRoute(11);
    r, d, i, p := FsCreate(v, Nested(10), m);
    ValidParts(v);
    FileThere(first, s, StateOf(v), d, i, p);
    r, d := FsUnlink(v, Nested(11), m.now, m.now);
  }

  lemma DeepParts(first: nat, s: State, k: nat)
    requires Deep(first, s, k)
    ensures k < MAX_PATH_LEN && |s.disk| == 1024 && |s.inodes| == 256 && NullDirEmpty(s)
    ensures |s.live| < |s.inodes| && |s.used| < |s.disk|
  {
    hide Inv, Find, DirOf, IsDir, NoEntries, Entries;
  }

  lemma FileThere(first: nat, s: State, s': State, d: nat, i: nat, p: nat)
    requires CreatedNode(s, s', Nested(10), false, d, i, p) && Inv(first, s')
    ensures FileCheck(s', Nested(11)) == 0 && PathInode(s', Nested(11)) > 0
  {
    hide Inv, IsDirMode, Resolve, Chain, Dirname, SameBut, Aside, LeakedBlocks, Route, FileData, NullInode;
    NestedRoute(10);
    NestedRoute(11);
    InvKeys(first, s');
    assert Find(TreeOf(s'), Route(Nested(10))) == i;
  }
}
