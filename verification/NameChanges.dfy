/** How path resolution changes when an entry is added, removed or renamed. */
module NameChanges {
  import opened Bytes
  import opened Codec
  import opened Volumes
  import opened Consistency
  import opened Paths
  import opened Names

  /** From n to m, entry x of directory d is the only one that changes. */
  ghost predicate OneEntry(n: NameTree, m: NameTree, d: nat, x: nat) {
    && TreeOk(n) && TreeOk(m) && |m.inodes| == |n.inodes| && x < N_DIRENTS
    && d in n.nodes && d in m.nodes && d < |n.inodes| && IsDir(n.inodes[d]) && IsDir(m.inodes[d])
    && Dir(m, d) == Dir(n, d)[x := Dir(m, d)[x]]
    && (forall e :: e in n.nodes && e in m.nodes && e < |n.inodes| ==>
          (IsDir(m.inodes[e]) <==> IsDir(n.inodes[e])) && (e != d && IsDir(n.inodes[e]) ==> Dir(m, e) == Dir(n, e)))
  }

  /** Away from the changed entry, a step leads where it led before. */
  lemma StepSame(n: NameTree, m: NameTree, d: nat, x: nat, e: nat, y: Name)
    requires OneEntry(n, m, d, x) && e in n.nodes && e in m.nodes && e < |n.inodes|
    requires e == d ==> !Matches(Dir(n, d)[x], y) && !Matches(Dir(m, d)[x], y)
    ensures Step(m, e, y) == Step(n, e, y)
  {
    hide TreeOk, DirOf, Matches;
    if e == d { LookupOther(Dir(n, d), Dir(m, d), x, y); }
  }

  lemma Snoc(q: seq<Name>)
    requires q != []
    ensures q == q[..|q| - 1] + [q[|q| - 1]]
  {
  }

  /** A path that has just reached p0 + [y] came from p0. */
  lemma PrefixLast(p0: seq<Name>, y: Name, q: seq<Name>)
    requires q != [] && !(p0 + [y] <= q[..|q| - 1])
    ensures p0 + [y] <= q ==> q[..|q| - 1] == p0 && q[|q| - 1] == y
  {
    if p0 + [y] <= q {
      assert |q| == |p0| + 1;
      assert q == p0 + [y];
    }
  }

  lemma PrefixSame(p0: seq<Name>, y: Name, z: Name, q: seq<Name>)
    requires p0 + [z] <= q && y != z
    ensures !(p0 + [y] <= q)
  {
    assert q[|p0|] == (p0 + [z])[|p0|] == z;
    assert (p0 + [y])[|p0|] == y;
  }

  // ---- create ------------------------------------------------------------------------------------

  /** Where q leads once path p names the new inode i. */
  ghost function AfterCreate(n: NameTree, p: seq<Name>, i: nat, isDir: bool, q: seq<Name>): int {
    if q == p then i else if p < q then (if isDir then -ENOENT else -ENOTDIR) else Find(n, q)
  }

  /** Inode i, new, hangs from entry x of directory d under the name leaf. */
  ghost predicate Added(n: NameTree, m: NameTree, d: nat, x: nat, i: nat, leaf: Name) {
    && OneEntry(n, m, d, x)
    && m.nodes == n.nodes + {i} && i !in n.nodes && i < |m.inodes|
    && !Dir(n, d)[x].valid && Matches(Dir(m, d)[x], leaf) && Dir(m, d)[x].inode == i
    && (IsDir(m.inodes[i]) ==> forall z :: 0 <= z < N_DIRENTS ==> !Dir(m, i)[z].valid)
  }

  lemma NewNode(n: NameTree, m: NameTree, d: nat, x: nat, i: nat, leaf: Name, y: Name)
    requires Added(n, m, d, x, i, leaf)
    ensures Step(m, i, y) == if IsDir(m.inodes[i]) then -ENOENT else -ENOTDIR
    ensures Step(m, d, leaf) == i && i > 0
  {
    if IsDir(m.inodes[i]) { LookupMiss(Dir(m, i), y); }
    assert DirOk(d, Dir(m, d), m.place);
    LookupHit(Dir(m, d), leaf, x);
  }

  lemma {:induction false} FindCreated(n: NameTree, m: NameTree, d: nat, x: nat, i: nat, leaf: Name, p0: seq<Name>,
                                       q: seq<Name>)
    requires Added(n, m, d, x, i, leaf) && Find(n, p0) == d
    ensures Find(m, q) == AfterCreate(n, p0 + [leaf], i, IsDir(m.inodes[i]), q)
    decreases |q|
  {
    hide LookupOf, IsDir, DirOf, Matches, Step;
    var p := p0 + [leaf];
    if q != [] {
      var q0, y := q[..|q| - 1], q[|q| - 1];
      Snoc(q);
      FindCreated(n, m, d, x, i, leaf, p0, q0);
      FindStep(n, q);
      FindStep(m, q);
      NewNode(n, m, d, x, i, leaf, y);
      assert p == q ==> p0 == q0 && leaf == y;
      assert p < q <==> p <= q0;
      if !(p <= q0) && Find(n, q0) > 0 {
        var e := Find(n, q0);
        if e == d {
          PathUnique(n, p0, q0);
          if y != leaf { AddedMiss(n, m, d, x, i, leaf, y); StepSame(n, m, d, x, e, y); }
        } else {
          StepSame(n, m, d, x, e, y);
        }
      }
    }
  }

  lemma AddedMiss(n: NameTree, m: NameTree, d: nat, x: nat, i: nat, leaf: Name, y: Name)
    requires Added(n, m, d, x, i, leaf) && y != leaf
    ensures !Matches(Dir(n, d)[x], y) && !Matches(Dir(m, d)[x], y)
  {
  }

  // ---- unlink and rmdir -----------------------------------------------------------------------------

  /** Where q leads once path p is gone. */
  ghost function AfterRemove(n: NameTree, p: seq<Name>, q: seq<Name>): int {
    if p <= q then -ENOENT else Find(n, q)
  }

  /** The entry x of directory d, which named inode i, is no longer valid. */
  ghost predicate Removed(n: NameTree, m: NameTree, d: nat, x: nat, i: nat, leaf: Name) {
    && OneEntry(n, m, d, x)
    && m.nodes == n.nodes - {i} && i in n.nodes
    && Matches(Dir(n, d)[x], leaf) && Dir(n, d)[x].inode == i && !Dir(m, d)[x].valid
  }

  lemma GoneEntry(n: NameTree, m: NameTree, d: nat, x: nat, i: nat, leaf: Name, y: Name)
    requires Removed(n, m, d, x, i, leaf)
    ensures Step(n, d, leaf) == i && i > 0 && Step(m, d, leaf) == -ENOENT
    ensures y != leaf ==> !Matches(Dir(n, d)[x], y) && !Matches(Dir(m, d)[x], y)
  {
    hide Entries;
    assert DirOk(d, Dir(n, d), n.place);
    LookupHit(Dir(n, d), leaf, x);
    forall z | 0 <= z < N_DIRENTS ensures !Matches(Dir(m, d)[z], leaf) {
      if z != x { assert Dir(m, d)[z] == Dir(n, d)[z]; }
    }
    LookupMiss(Dir(m, d), leaf);
  }

  lemma {:induction false} FindRemoved(n: NameTree, m: NameTree, d: nat, x: nat, i: nat, leaf: Name, p0: seq<Name>,
                                       q: seq<Name>)
    requires Removed(n, m, d, x, i, leaf) && Find(n, p0) == d
    ensures Find(n, p0 + [leaf]) == i
    ensures Find(m, q) == AfterRemove(n, p0 + [leaf], q)
    decreases |q|
  {
    hide LookupOf, IsDir, DirOf, Matches, Step;
    var p := p0 + [leaf];
    GoneEntry(n, m, d, x, i, leaf, leaf);
    FindStep(n, p);
    assert p[..|p| - 1] == p0;
    if q != [] {
      var q0, y := q[..|q| - 1], q[|q| - 1];
      Snoc(q);
      FindRemoved(n, m, d, x, i, leaf, p0, q0);
      FindStep(n, q);
      FindStep(m, q);
      assert p == q ==> p0 == q0 && leaf == y;
      assert p <= q <==> p <= q0 || p == q;
      if !(p <= q0) && Find(n, q0) > 0 {
        var e := Find(n, q0);
        if e == i { PathUnique(n, p, q0); }
        if e == d {
          PathUnique(n, p0, q0);
          if y != leaf { GoneEntry(n, m, d, x, i, leaf, y); StepSame(n, m, d, x, e, y); }
        } else {
          StepSame(n, m, d, x, e, y);
        }
      }
    }
  }

  // ---- rename --------------------------------------------------------------------------------------------

  /** Where q leads once src has become dst, both in the directory p0. */
  ghost function AfterRename(n: NameTree, p0: seq<Name>, src: Name, dst: Name, q: seq<Name>): int {
    if p0 + [src] <= q then -ENOENT
    else if p0 + [dst] <= q then Find(n, p0 + [src] + q[|p0| + 1..])
    else Find(n, q)
  }

  /** The entry x of directory d has changed its name from src to dst. */
  ghost predicate Renamed(n: NameTree, m: NameTree, d: nat, x: nat, src: Name, dst: Name) {
    && OneEntry(n, m, d, x) && m.nodes == n.nodes && src != dst
    && Matches(Dir(n, d)[x], src) && Matches(Dir(m, d)[x], dst) && Dir(m, d)[x].inode == Dir(n, d)[x].inode
  }

  lemma RenamedEntry(n: NameTree, m: NameTree, d: nat, x: nat, src: Name, dst: Name, y: Name)
    requires Renamed(n, m, d, x, src, dst)
    ensures Step(m, d, src) == -ENOENT && Step(m, d, dst) == Step(n, d, src) > 0
    ensures y != src && y != dst ==> !Matches(Dir(n, d)[x], y) && !Matches(Dir(m, d)[x], y)
  {
    hide Entries;
    assert DirOk(d, Dir(n, d), n.place) && DirOk(d, Dir(m, d), m.place);
    LookupHit(Dir(n, d), src, x);
    LookupHit(Dir(m, d), dst, x);
    forall z | 0 <= z < N_DIRENTS ensures !Matches(Dir(m, d)[z], src) {
      if z != x { assert Dir(m, d)[z] == Dir(n, d)[z]; }
    }
    LookupMiss(Dir(m, d), src);
  }

  lemma RenamedParts(n: NameTree, m: NameTree, d: nat, x: nat, src: Name, dst: Name)
    requires Renamed(n, m, d, x, src, dst)
    ensures TreeOk(n) && TreeOk(m) && OneEntry(n, m, d, x) && |m.inodes| == |n.inodes| && src != dst
    ensures m.nodes == n.nodes && d in n.nodes && d < |n.inodes| && x < N_DIRENTS && d > 0
  {
  }

  lemma {:induction false} FindRenamed(n: NameTree, m: NameTree, d: nat, x: nat, src: Name, dst: Name, p0: seq<Name>,
                                       q: seq<Name>)
    requires Renamed(n, m, d, x, src, dst) && Find(n, p0) == d
    ensures Find(m, q) == AfterRename(n, p0, src, dst, q)
    decreases |q|
  {
    hide Renamed, OneEntry, TreeOk, LookupOf, IsDir, DirOf, Matches, Step;
    RenamedParts(n, m, d, x, src, dst);
    if q != [] {
      var q0, y := q[..|q| - 1], q[|q| - 1];
      Snoc(q);
      FindRenamed(n, m, d, x, src, dst, p0, q0);
      FindStep(n, q);
      FindStep(m, q);
      RenamedEntry(n, m, d, x, src, dst, y);
      if p0 + [src] <= q0 {
      } else if p0 + [dst] <= q0 {
        RenamedBelow(n, m, d, x, src, dst, p0, q);
      } else {
        PrefixLast(p0, src, q);
        PrefixLast(p0, dst, q);
        if Find(n, q0) > 0 { RenamedHere(n, m, d, x, src, dst, p0, q); }
      }
    }
  }

  /** Below the renamed entry. */
  lemma RenamedBelow(n: NameTree, m: NameTree, d: nat, x: nat, src: Name, dst: Name, p0: seq<Name>, q: seq<Name>)
    requires Renamed(n, m, d, x, src, dst) && Find(n, p0) == d && q != []
    requires p0 + [dst] <= q[..|q| - 1] && Find(m, q[..|q| - 1]) == AfterRename(n, p0, src, dst, q[..|q| - 1])
    ensures Find(m, q) == AfterRename(n, p0, src, dst, q)
  {
    hide Renamed, OneEntry, TreeOk, LookupOf, IsDir, DirOf, Matches, Step;
    RenamedParts(n, m, d, x, src, dst);
    var q0, y := q[..|q| - 1], q[|q| - 1];
    var r := p0 + [src] + q[|p0| + 1..];
    assert r[..|r| - 1] == p0 + [src] + q0[|p0| + 1..] && r[|r| - 1] == y;
    assert p0 + [dst] <= q;
    PrefixSame(p0, src, dst, q);
    FindStep(n, r);
    FindStep(m, q);
    var e := Find(n, r[..|r| - 1]);
    if e == d {
      PathUnique(n, p0, r[..|r| - 1]);
    } else if e > 0 {
      StepSame(n, m, d, x, e, y);
    }
  }

  /** Elsewhere. */
  lemma RenamedHere(n: NameTree, m: NameTree, d: nat, x: nat, src: Name, dst: Name, p0: seq<Name>, q: seq<Name>)
    requires Renamed(n, m, d, x, src, dst) && Find(n, p0) == d && q != []
    requires var q0 := q[..|q| - 1]; !(p0 + [src] <= q0) && !(p0 + [dst] <= q0) && Find(m, q0) == Find(n, q0) > 0
    ensures Find(m, q) == AfterRename(n, p0, src, dst, q)
  {
    hide Renamed, OneEntry, TreeOk, LookupOf, IsDir, DirOf, Matches, Step;
    RenamedParts(n, m, d, x, src, dst);
    var q0, y := q[..|q| - 1], q[|q| - 1];
    Snoc(q);
    var e := Find(n, q0);
    FindStep(n, q);
    FindStep(m, q);
    RenamedEntry(n, m, d, x, src, dst, y);
    if e == d {
      PathUnique(n, p0, q0);
      if y == dst {
        assert p0 + [src] + q[|p0| + 1..] == p0 + [src];
        FindStep(n, p0 + [src]);
        assert (p0 + [src])[..|p0|] == p0;
        assert q == p0 + [dst];
      } else if y == src {
        assert q == p0 + [src];
      } else {
        StepSame(n, m, d, x, e, y);
      }
    } else {
      StepSame(n, m, d, x, e, y);
    }
    PrefixLast(p0, src, q);
    PrefixLast(p0, dst, q);
  }

  // ---- the tree stays a tree ------------------------------------------------------------------------------

  /** The directories of m other than d are those of n, over the nodes that both have. */
  ghost predicate SameElsewhere(n: NameTree, m: NameTree, d: nat) {
    && |m.inodes| == |n.inodes|
    && (forall e :: e in n.nodes && e in m.nodes && e < |n.inodes| ==>
          (IsDir(m.inodes[e]) <==> IsDir(n.inodes[e])) && (e != d && IsDir(n.inodes[e]) ==> Dir(m, e) == Dir(n, e)))
  }

  ghost predicate NoEntries(es: Dirents) {
    forall z :: 0 <= z < N_DIRENTS ==> !es[z].valid
  }

  /** m is n with a new inode i under a new entry of directory d. */
  ghost predicate Adding(n: NameTree, m: NameTree, d: nat, x: nat, i: nat, leaf: Name) {
    && SameElsewhere(n, m, d) && d in n.nodes && d < |n.inodes| && IsDir(n.inodes[d]) && x < N_DIRENTS
    && m.nodes == n.nodes + {i} && i !in n.nodes && 0 < i < |n.inodes|
    && m.place == n.place[i := Place(d, x)] && d in n.depth && m.depth == n.depth[i := n.depth[d] + 1]
    && Dir(m, d) == Dir(n, d)[x := Dir(m, d)[x]] && !Dir(n, d)[x].valid
    && Matches(Dir(m, d)[x], leaf) && Dir(m, d)[x].inode == i && (Dir(m, d)[x].isDir <==> IsDir(m.inodes[i]))
    && GoodName(leaf) && LookupIn(Dir(n, d), leaf) == -ENOENT
    && (IsDir(m.inodes[i]) ==> NoEntries(Dir(m, i)))
  }

  lemma AddKeepsDirs(n: NameTree, m: NameTree, d: nat, x: nat, i: nat, leaf: Name)
    requires TreeOk(n) && Adding(n, m, d, x, i, leaf)
    ensures forall e :: e in m.nodes && e < |m.inodes| && IsDir(m.inodes[e]) ==> DirOk(e, Dir(m, e), m.place)
  {
    hide DirOf, IsDir, GoodName, Matches, LookupIn, Sits;
    AddedDir(n.place, m.place, d, x, i, leaf, Dir(n, d), Dir(m, d));
    forall e | e in m.nodes && e < |m.inodes| && IsDir(m.inodes[e])
      ensures DirOk(e, Dir(m, e), m.place)
    {
      if e != d && e != i {}
    }
  }

  lemma AddKeepsSits(n: NameTree, m: NameTree, d: nat, x: nat, i: nat, leaf: Name)
    requires TreeOk(n) && Adding(n, m, d, x, i, leaf)
    ensures forall j :: j in m.place ==> Sits(j, m.place[j], m.inodes, m.nodes, m.disk, m.depth)
  {
    hide DirOf, IsDir, GoodName, CStr, LookupIn, DirOk;
    forall j | j in m.place
      ensures Sits(j, m.place[j], m.inodes, m.nodes, m.disk, m.depth)
    {
      if j != i { assert Sits(j, n.place[j], n.inodes, n.nodes, n.disk, n.depth); }
    }
  }

  /** A new entry for a new inode. */
  lemma AddKeepsTree(n: NameTree, m: NameTree, d: nat, x: nat, i: nat, leaf: Name)
    requires TreeOk(n) && Adding(n, m, d, x, i, leaf)
    ensures TreeOk(m) && Added(n, m, d, x, i, leaf)
  {
    hide DirOf, IsDir, GoodName, CStr, LookupIn, DirOk, Sits;
    AddKeepsDirs(n, m, d, x, i, leaf);
    AddKeepsSits(n, m, d, x, i, leaf);
  }

  lemma AddedDir(place: map<nat, Place>, place': map<nat, Place>, d: nat, x: nat, i: nat, leaf: Name, es: Dirents,
                 es': Dirents)
    requires DirOk(d, es, place) && i !in place && place' == place[i := Place(d, x)] && x < N_DIRENTS
    requires es' == es[x := es'[x]] && Matches(es'[x], leaf) && es'[x].inode == i
    requires GoodName(leaf) && LookupIn(es, leaf) == -ENOENT
    ensures DirOk(d, es', place')
  {
    hide CStr, GoodName;
    NoMatch(es, leaf);
  }

  lemma NoMatch(es: Dirents, name: Name)
    requires LookupIn(es, name) == -ENOENT
    ensures forall z :: 0 <= z < N_DIRENTS ==> !Matches(es[z], name)
  {
  }

  /** An entry that names inode i is removed, and i with it; if i is a directory, it is empty. */
  lemma RemoveKeepsTree(n: NameTree, m: NameTree, d: nat, x: nat, i: nat, leaf: Name)
    requires TreeOk(n) && SameElsewhere(n, m, d) && d in n.nodes && d < |n.inodes| && IsDir(n.inodes[d])
    requires x < N_DIRENTS
    requires i in n.place && n.place[i] == Place(d, x) && i != d && i < |n.inodes|
    requires m.nodes == n.nodes - {i} && m.place == n.place - {i} && m.depth == n.depth - {i}
    requires Dir(m, d) == Dir(n, d)[x := Dir(m, d)[x]] && !Dir(m, d)[x].valid
    requires Matches(Dir(n, d)[x], leaf)
    requires IsDir(n.inodes[i]) ==> NoEntries(Dir(n, i))
    ensures TreeOk(m) && Removed(n, m, d, x, i, leaf)
  {
    hide DirOf, IsDir, GoodName, CStr, Matches, DirOk, NoEntries;
    assert Sits(i, n.place[i], n.inodes, n.nodes, n.disk, n.depth);
    forall e | e in m.nodes && IsDir(m.inodes[e])
      ensures DirOk(e, Dir(m, e), m.place)
    {
      assert DirOk(e, Dir(n, e), n.place);
      RemovedDir(n.place, e, i, Place(d, x), Dir(n, e), Dir(m, e));
    }
    forall j | j in m.place
      ensures Sits(j, m.place[j], m.inodes, m.nodes, m.disk, m.depth)
    {
      RemovedSits(n, m, d, x, i, j);
    }
  }

  lemma RemovedDir(place: map<nat, Place>, e: nat, i: nat, pl: Place, es: Dirents, es': Dirents)
    requires DirOk(e, es, place) && i in place && place[i] == pl && pl.slot < N_DIRENTS
    requires if e == pl.dir then es' == es[pl.slot := es'[pl.slot]] && !es'[pl.slot].valid else es' == es
    ensures DirOk(e, es', place - {i})
  {
    hide CStr, GoodName;
  }

  lemma RemovedSits(n: NameTree, m: NameTree, d: nat, x: nat, i: nat, j: nat)
    requires TreeOk(n) && SameElsewhere(n, m, d) && d in n.nodes && d < |n.inodes| && x < N_DIRENTS && i < |n.inodes|
    requires i in n.place && n.place[i] == Place(d, x) && i != d && j in n.place && j != i
    requires m.nodes == n.nodes - {i} && m.depth == n.depth - {i}
    requires Dir(m, d) == Dir(n, d)[x := Dir(m, d)[x]]
    requires IsDir(n.inodes[i]) ==> NoEntries(Dir(n, i))
    ensures Sits(j, n.place[j], m.inodes, m.nodes, m.disk, m.depth)
  {
    hide DirOf, IsDir, DirOk;
    assert Sits(j, n.place[j], n.inodes, n.nodes, n.disk, n.depth);
    assert Sits(i, n.place[i], n.inodes, n.nodes, n.disk, n.depth);
  }

  /** An entry changes its name to one that the directory does not have. */
  lemma RenameKeepsTree(n: NameTree, m: NameTree, d: nat, x: nat, src: Name, dst: Name)
    requires TreeOk(n) && SameElsewhere(n, m, d) && d in n.nodes && d < |n.inodes| && IsDir(n.inodes[d])
    requires x < N_DIRENTS
    requires m.nodes == n.nodes && m.place == n.place && m.depth == n.depth
    requires Dir(m, d) == Dir(n, d)[x := Dir(m, d)[x]]
    requires Matches(Dir(n, d)[x], src) && Matches(Dir(m, d)[x], dst)
    requires Dir(m, d)[x].inode == Dir(n, d)[x].inode && Dir(m, d)[x].isDir == Dir(n, d)[x].isDir
    requires GoodName(dst) && LookupIn(Dir(n, d), dst) == -ENOENT
    ensures TreeOk(m) && Renamed(n, m, d, x, src, dst)
  {
    hide DirOf, IsDir, GoodName, CStr, LookupIn;
    NoMatch(Dir(n, d), dst);
    RenamedDir(n.place, d, x, dst, Dir(n, d), Dir(m, d));
    forall j | j in m.place
      ensures Sits(j, m.place[j], m.inodes, m.nodes, m.disk, m.depth)
    {
      assert Sits(j, n.place[j], n.inodes, n.nodes, n.disk, n.depth);
    }
  }

  lemma RenamedDir(place: map<nat, Place>, d: nat, x: nat, dst: Name, es: Dirents, es': Dirents)
    requires DirOk(d, es, place) && x < N_DIRENTS && es' == es[x := es'[x]] && es[x].valid
    requires Matches(es'[x], dst) && es'[x].inode == es[x].inode && GoodName(dst)
    requires forall z :: 0 <= z < N_DIRENTS ==> !Matches(es[z], dst)
    ensures DirOk(d, es', place)
  {
    hide CStr, GoodName;
  }
}
