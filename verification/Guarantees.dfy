/** What the invariant says about every reachable state, in terms of the disk, the bitmaps, the inode table and paths
    alone; and the whole life of a file system, from mkfs to fsck. */
module Guarantees {
  import opened Bytes
  import opened Codec
  import opened FileTrees
  import opened Volumes
  import opened Consistency
  import opened FileBlockLists
  import opened Writing
  import opened Mounted
  import opened Metadata
  import opened Accounting
  import opened Paths
  import opened Names
  import opened NameChanges
  import opened DirSteps
  import opened DirOps
  import opened FileCalls
  import opened Images
  import opened Runs
  import opened Fsck

  // ---- free storage ------------------------------------------------------------------------------------

  /** A block whose bit is clear is a directory without entries and a table without pointers; an inode whose bit is
      clear has no pointers. */
  lemma FreeStorage(first: nat, s: State)
    requires Inv(first, s)
    ensures forall p: nat :: p < |s.disk| && p !in s.used ==>
      NoEntries(Entries(s.disk[p])) && Ptrs(s.disk[p]) == Nulls()
    ensures forall i: nat :: i < |s.inodes| && i !in s.live ==> NullInode(s.inodes[i])
  {
    hide FilesOk, NamesOk, ZeroBlock, Entries, Ptrs, NullInode;
    EntriesOfZero();
    PtrsOfZero();
  }

  // ---- inodes ------------------------------------------------------------------------------------------

  /** The marked inodes are inode 0 and those that some path leads to. */
  lemma MarkedInodes(first: nat, s: State, i: nat)
    requires Inv(first, s)
    ensures i in s.live <==> i == 0 || exists q: seq<Name> :: Find(TreeOf(s), q) == i
  {
    hide Inv, TreeOk, Find, IsDir, FilesOk;
    InvTree(first, s);
    InvKeys(first, s);
    var n := TreeOf(s);
    if i in s.live && i != 0 { PathToReaches(n, i); }
    forall q: seq<Name> | Find(n, q) == i && i != 0 ensures i in s.live { FindLive(n, q); }
  }

  /** Each of them is reached by one path only. */
  lemma OnePath(first: nat, s: State, p: seq<Name>, q: seq<Name>)
    requires Inv(first, s) && Find(TreeOf(s), p) == Find(TreeOf(s), q) > 0
    ensures p == q
  {
    hide Inv;
    InvTree(first, s);
    PathUnique(TreeOf(s), p, q);
  }

  /** Is entry x of directory d a valid entry for inode i? */
  ghost predicate EntryFor(s: State, d: nat, x: nat, i: nat) {
    && d in s.live && d != 0 && d < |s.inodes| && IsDir(s.inodes[d]) && x < N_DIRENTS
    && DirOf(s.inodes[d], s.disk)[x].valid && DirOf(s.inodes[d], s.disk)[x].inode == i
  }

  lemma EntryPlace(first: nat, s: State, d: nat, x: nat, i: nat)
    requires Inv(first, s) && EntryFor(s, d, x, i)
    ensures i in s.sh.place && s.sh.place[i] == Place(d, x) && i < |s.inodes|
    ensures DirOf(s.inodes[d], s.disk)[x].isDir <==> IsDir(s.inodes[i])
  {
    hide Inv, TreeOk, IsDir, DirOf;
    InvTree(first, s);
    InvKeys(first, s);
    EntryFacts(TreeOf(s), d, x);
  }

  /** Every marked inode but 0 and the root has exactly one entry, whose flag agrees with the inode's mode. */
  lemma OneEntryEach(first: nat, s: State, i: nat) returns (d: nat, x: nat)
    requires Inv(first, s) && i in s.live && i > 1
    ensures EntryFor(s, d, x, i) && i < |s.inodes| && (DirOf(s.inodes[d], s.disk)[x].isDir <==> IsDir(s.inodes[i]))
    ensures forall d': nat, x': nat :: EntryFor(s, d', x', i) ==> d' == d && x' == x
  {
    hide Inv, EntryFor, IsDir, DirOf;
    d, x := HasEntry(first, s, i);
    EntryPlace(first, s, d, x, i);
    forall d': nat, x': nat | EntryFor(s, d', x', i) ensures d' == d && x' == x { EntryPlace(first, s, d', x', i); }
  }

  lemma HasEntry(first: nat, s: State, i: nat) returns (d: nat, x: nat)
    requires Inv(first, s) && i in s.live && i > 1
    ensures EntryFor(s, d, x, i) && d < |s.inodes| && x < N_DIRENTS
  {
    hide Inv, TreeOk, IsDir, DirOf, FilesOk, InodesOk, BlocksOk;
    InvTree(first, s);
    InvKeys(first, s);
    NodesIndexed(TreeOf(s));
    PlaceFacts(TreeOf(s), i);
    d, x := s.sh.place[i].dir, s.sh.place[i].slot;
  }

  /** The valid entries of a directory have different names, each of which can be looked up. */
  lemma UniqueNames(first: nat, s: State, d: nat, x: nat, y: nat)
    requires Inv(first, s) && d in s.live && d != 0 && d < |s.inodes| && IsDir(s.inodes[d]) && x < N_DIRENTS
    requires y < N_DIRENTS
    requires var es := DirOf(s.inodes[d], s.disk); es[x].valid && es[y].valid && CStr(es[x].name) == CStr(es[y].name)
    ensures x == y
    ensures var e := DirOf(s.inodes[d], s.disk)[x];
      GoodName(CStr(e.name)) && LookupOf(s.inodes, s.disk, d, CStr(e.name)) == e.inode
  {
    hide FilesOk, BlocksOk, Entries, IsDirMode, CStr, GoodName;
    var es := DirOf(s.inodes[d], s.disk);
    assert DirOk(d, es, s.sh.place);
    LookupHit(es, CStr(es[x].name), x);
  }

  // ---- paths -------------------------------------------------------------------------------------------

  /** The two ways of splitting a path agree: strtok's components lead where the leaf of basename leads in the parent of
      dirname. */
  lemma SplittersAgree(first: nat, s: State, path: seq<byte>)
    requires Inv(first, s) && 0 !in path && |Tokens(path)| <= MAX_PATH_LEN && Route(path) != []
    ensures var d := PathInode(s, Dirname(path));
      if d <= 0 then PathInode(s, path) == d
      else d < |s.inodes| && PathInode(s, path) == LookupOf(s.inodes, s.disk, d, Cut(Basename(path)))
  {
    hide Inv, TreeOk, Tokens, Route, Dirname, Basename, Cut, Resolve, LookupOf;
    InvTree(first, s);
    SplitRoute(path);
    var p := Route(path);
    assert p[..|p| - 1] == Route(Dirname(path)) && p[|p| - 1] == Cut(Basename(path));
    FindStep(TreeOf(s), p);
  }

  /** Nothing is ever created eleven components deep: parse stops after ten, so that such a path and its parent look
      the same. */
  lemma NoDeepCreate(first: nat, s: State, path: seq<byte>)
    requires Inv(first, s) && |Tokens(path)| > MAX_PATH_LEN
    ensures CreateResult(s, path) < 0
  {
    hide Inv, TreeOk, Tokens, Route, Dirname, Resolve, IsDir;
    InvTree(first, s);
    LongRoute(path);
    FindLive(TreeOf(s), Route(path));
  }

  // ---- blocks ------------------------------------------------------------------------------------------

  /** Block p is on the list of the blocks of inode i. */
  ghost predicate Has(s: State, i: nat, p: nat) {
    && i in s.live && i != 0 && i < |s.inodes|
    && exists k :: 0 <= k < |FileBlocks(s.inodes[i], s.disk)| && FileBlocks(s.inodes[i], s.disk)[k] == p
  }

  lemma HasIff(first: nat, s: State, i: nat, p: nat)
    requires Inv(first, s)
    ensures Has(s, i, p) <==> p in s.owner && Of(s.owner[p], i)
  {
    hide Inv, FileBlocks;
    InvKeys(first, s);
    if i in s.sh.trees {
      ListOf(first, s, i, FileBlocks(s.inodes[i], s.disk));
      assert p in s.owner && Of(s.owner[p], i) ==> p in Footprint(s.owner, i);
    }
  }

  /** No block belongs to two inodes, and every block of a file is marked, lies in the data region and is on the list of
      its file once. */
  lemma DisjointFiles(first: nat, s: State, i: nat, j: nat, p: nat)
    requires Inv(first, s) && Has(s, i, p)
    ensures p in s.used && first <= p < |s.disk| && (Has(s, j, p) ==> j == i)
    ensures var ps := FileBlocks(s.inodes[i], s.disk); forall k, l :: 0 <= k < l < |ps| ==> ps[k] != ps[l]
  {
    hide Inv, FileBlocks;
    InvKeys(first, s);
    HasIff(first, s, i, p);
    HasIff(first, s, j, p);
    ListOf(first, s, i, FileBlocks(s.inodes[i], s.disk));
  }

  /** The marked blocks are the metadata region, the blocks of the inodes in use, and those that have been lost. */
  lemma MarkedBlocks(first: nat, s: State, p: nat)
    requires Inv(first, s)
    ensures p in s.used <==> p < first || p in LeakedBlocks(s.owner) || exists i: nat :: Has(s, i, p)
  {
    hide FilesOk, NamesOk, InodesOk, FileBlocks, Has;
    if p in s.owner && !s.owner[p].Leaked? { HasIff(first, s, s.owner[p].ino, p); }
    forall i: nat | Has(s, i, p) ensures p in s.used { HasIff(first, s, i, p); }
  }

  /** The blocks of the files of the first k inodes. */
  ghost function OwnedBelow(owner: Owner, k: nat): set<nat> {
    set p | p in owner && !owner[p].Leaked? && owner[p].ino < k
  }

  /** The number of blocks of the files of the first k inodes: what their data blocks need, and the pointer blocks that
      some have early. */
  ghost function TotalBlocks(s: State, k: nat): nat
    requires k <= |s.inodes|
  {
    if k == 0 then 0 else TotalBlocks(s, k - 1) + BlocksOf(s, k - 1)
  }

  ghost function BlocksOf(s: State, i: nat): nat {
    if i in s.sh.trees && i in s.sh.extent then BlockCount(s.sh.extent[i]) + Spare(s.sh.trees[i], s.sh.extent[i]) else 0
  }

  /** What the sizes of the first k files need. */
  ghost function TotalCost(s: State, k: nat): nat
    requires k <= |s.inodes|
  {
    if k == 0 then 0
    else TotalCost(s, k - 1) + if k - 1 in s.sh.trees && s.inodes[k - 1].size >= 0
      then BlockCount(BlocksFor(s.inodes[k - 1].size)) else 0
  }

  lemma {:induction false} OwnedCount(first: nat, s: State, k: nat)
    requires Inv(first, s) && k <= |s.inodes|
    ensures |OwnedBelow(s.owner, k)| == TotalBlocks(s, k)
    ensures Clean(s) ==> TotalBlocks(s, k) == TotalCost(s, k)
  {
    hide Inv, Clean, BlockCount, BlocksFor, Spare, TreeOwned, TreeExact, Dense, BlocksOk;
    if k == 0 {
      assert OwnedBelow(s.owner, 0) == {};
    } else {
      OwnedCount(first, s, k - 1);
      assert OwnedBelow(s.owner, k) == OwnedBelow(s.owner, k - 1) + Footprint(s.owner, k - 1);
      InvKeys(first, s);
      if k - 1 in s.sh.trees {
        RequestFile(first, s, RequestOf(s, k - 1, 0, []));
        if Clean(s) { CleanCost(first, s, k - 1); }
      } else {
        NoFootprint(first, s, k - 1);
      }
    }
  }

  lemma NoFootprint(first: nat, s: State, i: nat)
    requires Inv(first, s) && i !in s.sh.trees
    ensures Footprint(s.owner, i) == {}
  {
    hide Inv;
    InvKeys(first, s);
  }

  lemma UsedSplit(first: nat, disk: seq<Block>, used: set<nat>, owner: Owner)
    requires BlocksOk(first, disk, used, owner)
    ensures used == Below(first) + owner.Keys && Below(first) !! owner.Keys
  {
    hide ZeroBlock;
  }

  lemma AllOwned(first: nat, s: State)
    requires Inv(first, s)
    ensures OwnedBelow(s.owner, |s.inodes|) + LeakedBlocks(s.owner) == s.owner.Keys
    ensures OwnedBelow(s.owner, |s.inodes|) !! LeakedBlocks(s.owner)
  {
    hide Inv;
    InvKeys(first, s);
  }

  /** Conservation: the marked blocks are as many as the metadata blocks, the blocks of all files and the blocks that
      have been lost. When nothing is marked that is not in use, the sizes of the files tell their number. */
  lemma Conservation(first: nat, s: State)
    requires Inv(first, s)
    ensures |s.used| == first + TotalBlocks(s, |s.inodes|) + |LeakedBlocks(s.owner)|
    ensures Clean(s) ==> |s.used| == first + TotalCost(s, |s.inodes|)
  {
    hide Inv, Clean, TotalBlocks, TotalCost, FilesOk, InodesOk, TreeOk, BlocksOk, OwnedBelow, LeakedBlocks;
    InvTree(first, s);
    OwnedCount(first, s, |s.inodes|);
    AllOwned(first, s);
    BelowCount(first);
    UsedSplit(first, s.disk, s.used, s.owner);
    if Clean(s) { NothingLeaked(s); }
  }

  lemma NothingLeaked(s: State)
    requires Clean(s)
    ensures forall p :: p in s.owner ==> !s.owner[p].Leaked?
    ensures LeakedBlocks(s.owner) == {}
  {
    hide Tight;
  }

  // ---- from mkfs to fsck ---------------------------------------------------------------------------------

  /** Does the checker's last loop over the block map of an image of n blocks run past the end of the map? */
  predicate Overruns(n: nat)
    requires n < 0x20_0000
  {
    Layout(n).First() + n > 8 * (Layout(n).blockMapSz * BLOCK_SIZE)
  }

  /** It does on an image of 8 MB, and not on one of 1 MB. */
  lemma OverrunExample()
    ensures Overruns(8192) && !Overruns(1024)
  {
  }

  lemma OverrunsIff(v: Volume, n: nat)
    requires Valid(v) && n < 0x20_0000 && v.sb == Layout(n)
    ensures v.sb == SuperOf(v.disk[0]) && v.disk.Length == n
    ensures Overruns(n) <==> v.sb.First() + n > 8 * v.blockMap.Length
    ensures v.sb.magic == FS_MAGIC
  {
    hide Inv, SuperOf;
    LayoutSize(n);
  }

  /** No directory of a state without paths of more than ten names is deeper than ten, let alone too deep for the
      checker. */
  lemma DepthSmall(first: nat, s: State)
    requires Inv(first, s) && ShortPaths(s)
    ensures Shallow(s) && forall i :: i in s.sh.depth ==> s.sh.depth[i] <= MAX_PATH_LEN
  {
    hide TreeOk, Find;
    InvTree(first, s);
    forall i | i in s.sh.depth ensures s.sh.depth[i] <= MAX_PATH_LEN {
      PathToReaches(TreeOf(s), i);
      PathToDepth(TreeOf(s), i);
      assert Find(TreeOf(s), PathTo(TreeOf(s), i)) > 0;
    }
  }

  /** What the checker says about the image of state s of n blocks, made by mkfs. */
  ghost predicate Judged(n: nat, s: State, verdict: Verdict)
    requires n < 0x20_0000
  {
    && !verdict.AssertionError? && (verdict.DecodeError? <==> !DecodeAll(TreeOf(s), s.sh.trees.Keys))
    && (!verdict.DecodeError? ==> (verdict.IndexError? <==> Overruns(n)))
    && (verdict.Report? ==> forall f :: f in verdict.faults <==> f.BlockLost? && f.block in LeakedBlocks(s.owner))
  }

  /** A file system is made, mounted and used. The disk then records the bitmaps and the inode table of the state that
      OnDisk gives. If that is the last one, which is what a remount would find then, the disk is checked: the checker
      reports exactly the blocks that have been lost, and none exactly if no call has lost any. */
  method Session(n: nat, now: u32, ops: seq<Op>)
    returns (v: Volume, rs: seq<int>, verdict: Verdict, ghost ss: seq<State>)
    requires 5 <= n < 0x20_0000
    ensures Valid(v) && |rs| <= |ops| && Trace(v.sb.First(), ops[..|rs|], rs, ss) && ss[|rs|] == StateOf(v)
    ensures |ss| == |rs| + 1 && NullDirEmpty(StateOf(v)) && (|rs| < |ops| ==> !Allowed(StateOf(v), ops[|rs|]))
    ensures Records(v.sb, v.disk[..], ss[OnDisk(ops, rs, ss, |rs|)])
    ensures v.Synced() <==> OnDisk(ops, rs, ss, |rs|) == |rs|
    ensures v.Synced() ==> Judged(n, StateOf(v), verdict)
    ensures v.Synced() && verdict.Report? ==>
              (verdict.faults == [] <==> forall k :: 0 <= k < |rs| ==> !Loses(ss[k], ops[k], rs[k]))
    ensures (forall k :: 0 <= k < |rs| ==> !Loses(ss[k], ops[k], rs[k]) && !Short(ops[k], rs[k])) ==> Clean(StateOf(v))
  {
    hide Valid, Inv, Clean, Loses, Trace, ImageOf, Allowed, Holds, SuperOf, Layout, LeakedBlocks, Overruns, ShortPaths,
      Shallow, DecodeAll, Judged, OnDisk, Records, NoEntries, Entries, NewState;
    var disk;
    ghost var s, im, bm;
    disk, s, im, bm := Mkfs(n, now);
    assert ShortPaths(s) by { NewShort(s); }
    v := Mount(disk, s, im, bm);
    rs, ss := Runs.Run(v, ops);
    verdict := IndexError;
    TraceStates(v.sb.First(), ops[..|rs|], rs, ss);
    SessionEnd(v.sb.First(), ops[..|rs|], rs, ss);
    var same := RemountAgrees(v);
    if same {
      verdict := CheckVolume(v, n);
      if verdict.Report? { JudgedEmpty(n, StateOf(v), verdict); }
    }
  }

  lemma NewShort(s: State)
    requires forall q: seq<Name> :: Find(TreeOf(s), q) == if q == [] then 1 else -ENOENT
    ensures ShortPaths(s)
  {
    hide Find;
  }

  /** fsck.hw3 on the disk of a volume made by mkfs. */
  method CheckVolume(v: Volume, n: nat) returns (verdict: Verdict)
    requires Valid(v) && v.Synced() && n < 0x20_0000 && v.sb == Layout(n) && ShortPaths(StateOf(v))
    ensures Judged(n, StateOf(v), verdict)
  {
    hide Valid, Inv, ImageOf, Holds, SuperOf, Layout, LeakedBlocks, Overruns, ShortPaths, Shallow, DecodeAll;
    ValidParts(v);
    SyncedImage(v);
    DepthSmall(v.sb.First(), StateOf(v));
    var found;
    verdict, found := Check(v.disk, StateOf(v), v.inodeMap[..], v.blockMap[..]);
    OverrunsIff(v, n);
  }

  /** What a run from an empty file system ends with. */
  lemma SessionEnd(first: nat, ops: seq<Op>, rs: seq<int>, ss: seq<State>)
    requires Trace(first, ops, rs, ss) && |ss| > 0 && Clean(ss[0]) && ShortPaths(ss[0])
    ensures |rs| == |ops| && |ss| == |rs| + 1 && ShortPaths(ss[|rs|])
    ensures LeakedBlocks(ss[|rs|].owner) == {} <==> forall k :: 0 <= k < |rs| ==> !Loses(ss[k], ops[k], rs[k])
    ensures (forall k :: 0 <= k < |rs| ==> !Loses(ss[k], ops[k], rs[k]) && !Short(ops[k], rs[k])) ==> Clean(ss[|rs|])
  {
    hide Inv, Clean, Loses, Effect, LeakedBlocks, ShortPaths, Trace;
    TraceStates(first, ops, rs, ss);
    RunShort(first, ops, rs, ss, |ops|);
    RunLeaks(first, ops, rs, ss, |ops|);
    NothingLeaked(ss[0]);
    if forall k :: 0 <= k < |rs| ==> !Loses(ss[k], ops[k], rs[k]) && !Short(ops[k], rs[k]) {
      RunClean(first, ops, rs, ss, |ops|);
    }
  }

  lemma JudgedEmpty(n: nat, s: State, verdict: Verdict)
    requires n < 0x20_0000 && Judged(n, s, verdict) && verdict.Report?
    ensures verdict.faults == [] <==> LeakedBlocks(s.owner) == {}
  {
    hide DecodeAll, Overruns, LeakedBlocks;
    assert verdict.faults != [] ==> verdict.faults[0] in verdict.faults;
    if p :| p in LeakedBlocks(s.owner) { assert BlockLost(p) in verdict.faults; }
  }
}
