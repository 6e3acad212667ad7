/** Creating a file, writing to it and removing it again. */
module RoundTrips {
  import opened Bytes
  import opened Codec
  import opened FileTrees
  import opened Volumes
  import opened Consistency
  import opened FileContents
  import opened Writing
  import opened Mounted
  import opened Truncating
  import opened Paths
  import opened Names
  import opened NameChanges
  import opened DirSteps
  import opened DirOps
  import opened FileCalls
  import opened Unlinking
  import opened Runs

  /** s is s0 with a new file i at the path, whatever the file holds. */
  ghost predicate WithFile(s0: State, s: State, path: seq<byte>, d: nat, i: nat) {
    && i < |s.inodes| && !IsDir(s.inodes[i]) && Aside(s0, s, d, i) && SameBut(s0, s, {d})
    && s.live == s0.live + {i} && s.sh.trees.Keys == s0.sh.trees.Keys + {i}
    && (forall q: seq<Name> :: Find(TreeOf(s), q) == AfterCreate(TreeOf(s0), Route(path), i, false, q))
  }

  lemma StartsWithFile(s0: State, s: State, path: seq<byte>, d: nat, i: nat, p: nat)
    requires CreatedNode(s0, s, path, false, d, i, p)
    ensures WithFile(s0, s, path, d, i) && d == Find(TreeOf(s0), Route(Dirname(path))) && i !in s0.live
  {
    hide Find, Aside, SameBut, AfterCreate, Route, Dirname, IsDir, FileData, LeakedBlocks, NullInode;
  }

  lemma FileFound(s0: State, s: State, path: seq<byte>, d: nat, i: nat)
    requires WithFile(s0, s, path, d, i)
    ensures PathInode(s, path) == i
  {
    hide Find, Aside, SameBut, Route, IsDir;
  }

  lemma KeepsFile(s0: State, s: State, s': State, path: seq<byte>, d: nat, i: nat)
    requires WithFile(s0, s, path, d, i) && i !in s0.sh.trees
    requires FileStep(s, s', i) && SameFiles(s, s', i) && SamePaths(s, s')
    ensures WithFile(s0, s', path, d, i)
  {
    hide Find, Aside, Route, IsDir, AfterCreate, FileStep;
    StepNodes(s, s', i);
    FileAside(s, s', d, i);
    AsideChain(s0, s, s', d, i);
    forall q: seq<Name> ensures Find(TreeOf(s'), q) == AfterCreate(TreeOf(s0), Route(path), i, false, q) {
      assert Find(TreeOf(s'), q) == Find(TreeOf(s), q);
    }
  }

  lemma FileOnPath(s0: State, s: State, path: seq<byte>, d: nat, i: nat)
    requires WithFile(s0, s, path, d, i)
    ensures i < |s.inodes| && !IsDir(s.inodes[i])
  {
    hide Find, Aside, SameBut, Route, IsDir, AfterCreate;
  }

  lemma WriteKeepsFile(s0: State, s: State, s': State, path: seq<byte>, buf: seq<byte>, offset: nat, now: u32, d: nat,
                       i: nat, r: int)
    requires WithFile(s0, s, path, d, i) && i !in s0.sh.trees && i > 0 && WriteEffect(s, s', path, buf, offset, now, r)
    ensures WithFile(s0, s', path, d, i)
  {
    hide Find, Aside, SameBut, Route, IsDir, AfterCreate, FileStep, SameFiles, SamePaths, FileData, WriteCost, Clean,
      WithFile;
    FileFound(s0, s, path, d, i);
    FileOnPath(s0, s, path, d, i);
    if s' != s { KeepsFile(s0, s, s', path, d, i); }
  }

  // ---- what is restored --------------------------------------------------------------------------------------

  /** Everything is as it was: the bitmaps, every data block but that of directory d, all paths, and the contents of all
      files and directories but d. */
  ghost predicate Restored(first: nat, s: State, s': State, d: nat) {
    && s'.used == s.used && s'.live == s.live && |s'.disk| == |s.disk|
    && (forall p: nat :: first <= p < |s.disk| && !(p in s.owner && s.owner[p] == Data(d, Direct, 0)) ==>
         s'.disk[p] == s.disk[p])
    && SamePaths(s, s') && SameBut(s, s', {d})
  }

  /** Below a path that leads nowhere, nothing is found. */
  lemma {:induction false} FindBelow(n: NameTree, p: seq<Name>, q: seq<Name>)
    requires p <= q && Find(n, p) <= 0
    ensures Find(n, q) == Find(n, p)
    decreases |q|
  {
    if p != q {
      assert p <= q[..|q| - 1];
      FindBelow(n, p, q[..|q| - 1]);
    }
  }

  /** A path that can be created leads nowhere before. */
  lemma Creatable(first: nat, s: State, path: seq<byte>)
    requires Inv(first, s) && 0 !in path && |Tokens(path)| <= MAX_PATH_LEN && CreateResult(s, path) == 0
    ensures Route(path) == Route(Dirname(path)) + [Cut(Basename(path))]
    ensures Find(TreeOf(s), Route(path)) == -ENOENT && Find(TreeOf(s), Route(Dirname(path))) > 0
  {
    hide Inv, TreeOk, Tokens, Route, Dirname, Basename, Cut, IsDir, DirOf, GoodName, LookupIn;
    InvTree(first, s);
    var d := Find(TreeOf(s), Route(Dirname(path)));
    FindLive(TreeOf(s), Route(Dirname(path)));
    LeafMissing(TreeOf(s), path, d);
    FindStep(TreeOf(s), Route(path));
    var p := Route(path);
    assert p[..|p| - 1] == Route(Dirname(path));
  }

  lemma PathsRestored(first: nat, s0: State, s: State, s': State, path: seq<byte>, i: nat)
    requires Inv(first, s0) && 0 !in path && |Tokens(path)| <= MAX_PATH_LEN && CreateResult(s0, path) == 0
    requires forall q: seq<Name> :: Find(TreeOf(s), q) == AfterCreate(TreeOf(s0), Route(path), i, false, q)
    requires forall q: seq<Name> :: Find(TreeOf(s'), q) == AfterRemove(TreeOf(s), Route(path), q)
    ensures SamePaths(s0, s')
  {
    hide Inv, Tokens, Route, Find, CreateResult;
    Creatable(first, s0, path);
    forall q: seq<Name> ensures Find(TreeOf(s'), q) == Find(TreeOf(s0), q) {
      assert Find(TreeOf(s), q) == AfterCreate(TreeOf(s0), Route(path), i, false, q);
      if Route(path) <= q { FindBelow(TreeOf(s0), Route(path), q); }
    }
  }

  lemma OwnersRestored(first: nat, s: State, s': State, d: nat, i: nat)
    requires Inv(first, s) && Inv(first, s') && Aside(s, s', d, i) && LeakedBlocks(s'.owner) == LeakedBlocks(s.owner)
    requires i !in s.sh.trees && i !in s'.sh.trees
    ensures |s'.disk| == |s.disk| && forall p :: p in s.owner <==> p in s'.owner
    ensures forall p :: p in s.owner && s.owner[p] != Data(d, Direct, 0) ==> Blk(s'.disk, p) == Blk(s.disk, p)
  {
    hide Inv, SameShapes;
    InvKeys(first, s);
    InvKeys(first, s');
    assert forall p :: p in s.owner && s.owner[p].Leaked? ==> p in LeakedBlocks(s.owner);
    assert forall p :: p in s'.owner && s'.owner[p].Leaked? ==> p in LeakedBlocks(s'.owner);
  }

  lemma BlocksRestored(first: nat, s: State, s': State, d: nat, i: nat)
    requires Inv(first, s) && Inv(first, s') && Aside(s, s', d, i) && LeakedBlocks(s'.owner) == LeakedBlocks(s.owner)
    requires i !in s.sh.trees && i !in s'.sh.trees
    ensures s'.used == s.used && |s'.disk| == |s.disk|
    ensures forall p: nat :: first <= p < |s.disk| && !(p in s.owner && s.owner[p] == Data(d, Direct, 0)) ==>
      s'.disk[p] == s.disk[p]
  {
    hide Inv, Aside, FilesOk, InodesOk, TreeOk, LeakedBlocks, ZeroBlock;
    OwnersRestored(first, s, s', d, i);
    InvTree(first, s);
    InvTree(first, s');
  }

  /** Blocks that were lost are still marked. */
  lemma NoneMarked(first: nat, s: State, s': State, d: nat, i: nat)
    requires Inv(first, s) && Inv(first, s') && Aside(s, s', d, i) && i !in s.sh.trees && s'.used == s.used
    ensures LeakedBlocks(s'.owner) <= LeakedBlocks(s.owner)
  {
    hide FilesOk, InodesOk, NamesOk, ZeroBlock, SameShapes;
    InvKeys(first, s);
    InvKeys(first, s');
  }

  /** After the removal of the file, everything is restored exactly if no block has been lost on the way. */
  lemma UnlinkRestores(first: nat, s0: State, s: State, s': State, path: seq<byte>, d: nat, i: nat)
    requires Inv(first, s0) && Inv(first, s) && Inv(first, s') && i !in s0.live
    requires LeakedBlocks(s0.owner) <= LeakedBlocks(s'.owner)
    requires 0 !in path && |Tokens(path)| <= MAX_PATH_LEN && CreateResult(s0, path) == 0
    requires d == Find(TreeOf(s0), Route(Dirname(path)))
    requires WithFile(s0, s, path, d, i) && UnlinkEffect(s, s', path, 0)
    ensures Restored(first, s0, s', d) <==> LeakedBlocks(s'.owner) == LeakedBlocks(s0.owner)
  {
    hide Inv, Tokens, Route, Dirname, Find, CreateResult, Aside, SameBut, AfterCreate, AfterRemove, IsDir,
      FileCheck, LeakedBlocks, Footprint, ClearedBlocks, PathInode, SamePaths;
    FileFound(s0, s, path, d, i);
    var d': nat :| Unlinked(s, s', path, d', i);
    assert d' == d by { ParentFound(first, s0, s, path, d, i); }
    InvKeys(first, s0);
    AsideChain(s0, s, s', d, i);
    if LeakedBlocks(s'.owner) == LeakedBlocks(s0.owner) {
      BlocksRestored(first, s0, s', d, i);
      PathsRestored(first, s0, s, s', path, i);
      SameButJoin(s0, s, s', d, i);
    }
    if s'.used == s0.used { NoneMarked(first, s0, s', d, i); }
  }

  lemma SameButJoin(s0: State, s: State, s': State, d: nat, i: nat)
    requires SameBut(s0, s, {d}) && SameBut(s, s', {d, i}) && i !in s0.sh.trees
    ensures SameBut(s0, s', {d})
  {
    hide FileData;
  }

  lemma ParentFound(first: nat, s0: State, s: State, path: seq<byte>, d: nat, i: nat)
    requires Inv(first, s0) && 0 !in path && |Tokens(path)| <= MAX_PATH_LEN && CreateResult(s0, path) == 0
    requires WithFile(s0, s, path, d, i) && d == Find(TreeOf(s0), Route(Dirname(path)))
    ensures PathInode(s, Dirname(path)) == d
  {
    hide Inv, Tokens, Route, Dirname, Basename, Cut, Find, CreateResult, Aside, SameBut, IsDir;
    Creatable(first, s0, path);
    var q := Route(Dirname(path));
    assert Find(TreeOf(s), q) == AfterCreate(TreeOf(s0), Route(path), i, false, q);
    assert !(Route(path) <= q);
  }

  /** Is the run one of creating the path, writing to it any number of times, with or without success, and removing
      it? */
  ghost predicate CreateWriteUnlink(path: seq<byte>, ops: seq<Op>, rs: seq<int>) {
    && |rs| == |ops| >= 2
    && ops[0].Create? && ops[0].path == path && rs[0] == 0
    && (forall k :: 0 < k < |ops| - 1 ==> ops[k].Write? && ops[k].path == path)
    && ops[|ops| - 1].Unlink? && ops[|ops| - 1].path == path && rs[|ops| - 1] == 0
  }

  lemma {:induction false} WritesKeepFile(first: nat, path: seq<byte>, ops: seq<Op>, rs: seq<int>, ss: seq<State>,
                                          d: nat, i: nat, n: nat)
    requires Trace(first, ops, rs, ss) && CreateWriteUnlink(path, ops, rs) && 0 < n < |ops|
    requires WithFile(ss[0], ss[1], path, d, i) && i !in ss[0].sh.trees && i > 0
    ensures WithFile(ss[0], ss[n], path, d, i)
  {
    hide Inv, WithFile, WriteEffect, Codes;
    if n > 1 {
      WritesKeepFile(first, path, ops, rs, ss, d, i, n - 1);
      assert Effect(ss[n - 1], ops[n - 1], rs[n - 1], ss[n]);
      WriteKeepsFile(ss[0], ss[n - 1], ss[n], path, ops[n - 1].buf, ops[n - 1].offset, ops[n - 1].now, d, i, rs[n - 1]);
    }
  }

  /** If all writes succeed, only the removal can lose blocks. */
  lemma LostAtEnd(first: nat, path: seq<byte>, ops: seq<Op>, rs: seq<int>, ss: seq<State>)
    requires Trace(first, ops, rs, ss) && CreateWriteUnlink(path, ops, rs) && forall k :: 0 <= k < |ops| ==> rs[k] >= 0
    ensures (forall k :: 0 <= k < |ops| ==> !Loses(ss[k], ops[k], rs[k])) <==> !LongFile(ss[|ops| - 1], path)
  {
    hide Inv, Effect, LongFile;
    assert Loses(ss[|ops| - 1], ops[|ops| - 1], rs[|ops| - 1]) <==> LongFile(ss[|ops| - 1], path);
  }

  lemma RoundStart(first: nat, path: seq<byte>, ops: seq<Op>, rs: seq<int>, ss: seq<State>)
    returns (d: nat, i: nat, p: nat)
    requires Trace(first, ops, rs, ss) && CreateWriteUnlink(path, ops, rs)
    ensures |ss| == |ops| + 1 >= 3 && CreatedNode(ss[0], ss[1], path, false, d, i, p) && CreateResult(ss[0], path) == 0
  {
    hide Inv, Trace, CreatedNode, CreateResult, Codes;
    TraceStates(first, ops, rs, ss);
    TraceEffect(first, ops, rs, ss, 0);
    d, i, p :| CreatedNode(ss[0], ss[1], path, false, d, i, p);
  }

  lemma RoundEnd(first: nat, path: seq<byte>, ops: seq<Op>, rs: seq<int>, ss: seq<State>)
    requires Trace(first, ops, rs, ss) && CreateWriteUnlink(path, ops, rs)
    ensures |ss| == |ops| + 1 >= 3 && UnlinkEffect(ss[|ops| - 1], ss[|ops|], path, 0)
  {
    hide Inv, Trace, UnlinkEffect, Codes;
    TraceStates(first, ops, rs, ss);
    TraceEffect(first, ops, rs, ss, |ops| - 1);
  }

  /** Creating a file, any number of writes to it, and unlinking it restore the file system exactly if none of these
      calls loses a block. If all writes succeed, that is so exactly if the file has at most 518 blocks in the end. */
  lemma RoundTrip(first: nat, path: seq<byte>, ops: seq<Op>, rs: seq<int>, ss: seq<State>)
    requires Trace(first, ops, rs, ss) && CreateWriteUnlink(path, ops, rs)
    requires 0 !in path && |Tokens(path)| <= MAX_PATH_LEN
    ensures PathInode(ss[0], Dirname(path)) > 0
    ensures Restored(first, ss[0], ss[|ops|], PathInode(ss[0], Dirname(path))) <==>
      forall k :: 0 <= k < |ops| ==> !Loses(ss[k], ops[k], rs[k])
    ensures (forall k :: 0 <= k < |ops| ==> rs[k] >= 0) ==>
      (Restored(first, ss[0], ss[|ops|], PathInode(ss[0], Dirname(path))) <==> !LongFile(ss[|ops| - 1], path))
  {
    hide Inv, Loses, CreatedNode, WithFile, UnlinkEffect, LongFile, Restored, Tokens, Route, Dirname, CreateResult,
      Trace, Resolve, LeakedBlocks;
    TraceStates(first, ops, rs, ss);
    var n := |ops|;
    var d, i, p := RoundStart(first, path, ops, rs, ss);
    RoundEnd(first, path, ops, rs, ss);
    StartsWithFile(ss[0], ss[1], path, d, i, p);
    InvKeys(first, ss[0]);
    WritesKeepFile(first, path, ops, rs, ss, d, i, n - 1);
    RunLeaks(first, ops, rs, ss, n);
    Creatable(first, ss[0], path);
    UnlinkRestores(first, ss[0], ss[n - 1], ss[n], path, d, i);
    if forall k :: 0 <= k < |ops| ==> rs[k] >= 0 { LostAtEnd(first, path, ops, rs, ss); }
  }
}
