/** read-img: a traversal of an image with a queue, independent of the checker's. */
module ReadImg {
  import opened Bytes
  import opened Bitmaps
  import opened Codec
  import opened FileTrees
  import opened Volumes
  import opened Consistency
  import opened Mounted
  import opened Accounting
  import opened Paths
  import opened Names
  import opened NameChanges
  import opened DirSteps
  import opened DirOps
  import opened FileContents
  import opened FileBlockLists
  import opened Images
  import opened Fsck
  import Rmdir

  /** An entry of the queue. */
  datatype Item = Item(dir: bool, inum: nat)

  ghost predicate DistinctItems(es: seq<Item>) {
    forall k, l :: 0 <= k < l < |es| ==> es[k].inum != es[l].inum
  }

  ghost function InumsOf(es: seq<Item>): set<nat> {
    set k | 0 <= k < |es| :: es[k].inum
  }

  lemma {:induction false} ItemCount(es: seq<Item>)
    requires DistinctItems(es)
    ensures |InumsOf(es)| == |es|
  {
    if es == [] {
      assert InumsOf(es) == {};
    } else {
      var m := |es| - 1;
      ItemCount(es[..m]);
      forall k | 0 <= k < m ensures es[k].inum in InumsOf(es[..m]) { assert es[..m][k] == es[k]; }
      assert InumsOf(es) == InumsOf(es[..m]) + {es[m].inum};
    }
  }

  /** The queue holds every inode at most once, so that it is never longer than the inode table. */
  lemma QueueBound(es: seq<Item>, n: nat)
    requires DistinctItems(es) && forall k :: 0 <= k < |es| ==> es[k].inum < n
    ensures |es| <= n
  {
    ItemCount(es);
    BelowCount(n);
    FewerThan(InumsOf(es), Below(n));
  }

  /** An inode that is not in the queue joins it. */
  lemma Pushed(es: seq<Item>, e: Item)
    requires DistinctItems(es) && e.inum !in InumsOf(es)
    ensures DistinctItems(es + [e]) && InumsOf(es + [e]) == InumsOf(es) + {e.inum}
  {
    var f := es + [e];
    forall k | 0 <= k < |es| ensures es[k].inum in InumsOf(f) && es[k].inum in InumsOf(es) { assert f[k] == es[k]; }
    assert f[|es|] == e;
  }

  // ---- on a consistent image -----------------------------------------------------------------------------------

  /** The items are inodes in use, with the right flag, and the first is the root. */
  ghost predicate Sound(n: NameTree, es: seq<Item>) {
    && |es| > 0 && es[0] == Item(true, 1)
    && forall k :: 0 <= k < |es| ==>
         es[k].inum in n.nodes && es[k].inum < |n.inodes| && (es[k].dir <==> IsDir(n.inodes[es[k].inum]))
  }

  /** Inode c hangs from one of the first t items; from the last of them, through an entry before x. */
  ghost predicate BornAt(n: NameTree, es: seq<Item>, t: nat, x: nat, c: nat) {
    && c in n.place && t <= |es|
    && exists p :: 0 <= p < t && es[p].inum == n.place[c].dir && (p == t - 1 ==> n.place[c].slot < x)
  }

  ghost predicate Born(n: NameTree, es: seq<Item>, t: nat, x: nat) {
    forall k :: 0 < k < |es| ==> BornAt(n, es, t, x, es[k].inum)
  }

  ghost predicate EntriesIn(n: NameTree, i: nat, x: nat, inums: set<nat>) {
    i < |n.inodes| && IsDir(n.inodes[i]) ==> forall y :: 0 <= y < x && y < N_DIRENTS && Dir(n, i)[y].valid ==>
      Dir(n, i)[y].inode as nat in inums
  }

  /** Everything that hangs from the first t items is in the queue; from the last of them, through entries before x. */
  ghost predicate Covered(n: NameTree, es: seq<Item>, t: nat, x: nat) {
    t <= |es| && forall p :: 0 <= p < t ==> EntriesIn(n, es[p].inum, if p == t - 1 then x else N_DIRENTS, InumsOf(es))
  }

  /** The state of the traversal of a consistent image. */
  ghost predicate Going(n: NameTree, es: seq<Item>, t: nat, x: nat) {
    TreeOk(n) && DistinctItems(es) && Sound(n, es) && Born(n, es, t, x) && Covered(n, es, t, x)
  }

  lemma GoingStart(n: NameTree)
    requires TreeOk(n)
    ensures Going(n, [Item(true, 1)], 0, N_DIRENTS)
  {
    NodesIndexed(n);
  }

  /** The next item is taken. */
  lemma GoingTake(n: NameTree, es: seq<Item>, t: nat)
    requires Going(n, es, t, N_DIRENTS) && t < |es|
    ensures Going(n, es, t + 1, 0)
    ensures es[t].dir <==> IsDir(n.inodes[es[t].inum])
  {
    hide TreeOk, IsDir;
    forall k | 0 < k < |es|
      ensures BornAt(n, es, t + 1, 0, es[k].inum)
    {
      assert BornAt(n, es, t, N_DIRENTS, es[k].inum);
    }
    forall p | 0 <= p < t + 1 ensures EntriesIn(n, es[p].inum, if p == t then 0 else N_DIRENTS, InumsOf(es)) {
      if p == t {} else { assert EntriesIn(n, es[p].inum, N_DIRENTS, InumsOf(es)); }
    }
  }

  /** A file has no entries. */
  lemma GoingFile(n: NameTree, es: seq<Item>, t: nat)
    requires Going(n, es, t, 0) && 0 < t <= |es| && !es[t - 1].dir
    ensures Going(n, es, t, N_DIRENTS)
  {
    hide TreeOk, IsDir;
    assert es[t - 1].inum < |n.inodes| && !IsDir(n.inodes[es[t - 1].inum]);
    forall k | 0 < k < |es| ensures BornAt(n, es, t, N_DIRENTS, es[k].inum) { assert BornAt(n, es, t, 0, es[k].inum); }
  }

  /** An invalid entry is skipped. */
  lemma GoingSkip(n: NameTree, es: seq<Item>, t: nat, x: nat)
    requires Going(n, es, t, x) && 0 < t <= |es| && x < N_DIRENTS && es[t - 1].dir && !Dir(n, es[t - 1].inum)[x].valid
    ensures Going(n, es, t, x + 1)
  {
    hide TreeOk, IsDir, DirOf;
    forall k | 0 < k < |es| ensures BornAt(n, es, t, x + 1, es[k].inum) { assert BornAt(n, es, t, x, es[k].inum); }
    assert EntriesIn(n, es[t - 1].inum, x, InumsOf(es));
  }

  /** A valid entry names an inode that is in use and not in the queue yet. */
  lemma GoingFresh(n: NameTree, es: seq<Item>, t: nat, x: nat)
    requires Going(n, es, t, x) && 0 < t <= |es| && x < N_DIRENTS && es[t - 1].dir && Dir(n, es[t - 1].inum)[x].valid
    ensures var d := Dir(n, es[t - 1].inum)[x];
      d.inode in n.nodes && d.inode as nat < |n.inodes| && (d.isDir <==> IsDir(n.inodes[d.inode]))
        && d.inode as nat !in InumsOf(es)
      && d.inode in n.place && n.place[d.inode] == Place(es[t - 1].inum, x)
  {
    hide TreeOk, IsDir, DirOf, EntriesIn;
    EntryFacts(n, es[t - 1].inum, x);
    NodesIndexed(n);
    var c := Dir(n, es[t - 1].inum)[x].inode;
    forall k | 0 <= k < |es| ensures es[k].inum != c as nat {
      if k > 0 { assert BornAt(n, es, t, x, es[k].inum); }
    }
  }

  lemma GoingPush(n: NameTree, es: seq<Item>, t: nat, x: nat)
    requires Going(n, es, t, x) && 0 < t <= |es| && x < N_DIRENTS && es[t - 1].dir && Dir(n, es[t - 1].inum)[x].valid
    ensures var d := Dir(n, es[t - 1].inum)[x]; Going(n, es + [Item(d.isDir, d.inode)], t, x + 1)
  {
    hide TreeOk, IsDir, DirOf;
    var d := Dir(n, es[t - 1].inum)[x];
    GoingFresh(n, es, t, x);
    var e := Item(d.isDir, d.inode);
    var f := es + [e];
    Pushed(es, e);
    PushBorn(n, es, t, x, e);
    PushCovered(n, es, t, x, e);
  }

  lemma PushBorn(n: NameTree, es: seq<Item>, t: nat, x: nat, e: Item)
    requires Born(n, es, t, x) && 0 < t <= |es| && e.inum in n.place && n.place[e.inum] == Place(es[t - 1].inum, x)
    ensures Born(n, es + [e], t, x + 1)
  {
    var f := es + [e];
    forall k | 0 < k < |f| ensures BornAt(n, f, t, x + 1, f[k].inum) {
      if k < |es| {
        assert BornAt(n, es, t, x, es[k].inum);
        var p :| 0 <= p < t && es[p].inum == n.place[es[k].inum].dir && (p == t - 1 ==> n.place[es[k].inum].slot < x);
        assert f[p] == es[p];
      } else {
        assert f[t - 1] == es[t - 1];
      }
    }
  }

  lemma PushCovered(n: NameTree, es: seq<Item>, t: nat, x: nat, e: Item)
    requires Covered(n, es, t, x) && 0 < t <= |es| && InumsOf(es + [e]) == InumsOf(es) + {e.inum} && x < N_DIRENTS
    requires es[t - 1].inum < |n.inodes| && IsDir(n.inodes[es[t - 1].inum])
    requires Dir(n, es[t - 1].inum)[x].inode as nat == e.inum
    ensures Covered(n, es + [e], t, x + 1)
  {
    hide IsDir, DirOf;
    var f := es + [e];
    forall p | 0 <= p < t ensures EntriesIn(n, f[p].inum, if p == t - 1 then x + 1 else N_DIRENTS, InumsOf(f)) {
      assert f[p] == es[p];
      assert EntriesIn(n, es[p].inum, if p == t - 1 then x else N_DIRENTS, InumsOf(es));
    }
  }

  /** When the queue is empty, every inode in use has been in it. */
  lemma GoingEnd(n: NameTree, es: seq<Item>)
    requires Going(n, es, |es|, N_DIRENTS)
    ensures InumsOf(es) == n.nodes
  {
    hide TreeOk, IsDir;
    forall j | j in n.nodes ensures j in InumsOf(es) { Reached(n, es, j); }
  }

  lemma {:induction false} Reached(n: NameTree, es: seq<Item>, j: nat)
    requires Going(n, es, |es|, N_DIRENTS) && j in n.nodes
    ensures j in InumsOf(es)
    decreases if j in n.depth then n.depth[j] else 0
  {
    hide TreeOk, IsDir, DirOf, Born;
    NodesIndexed(n);
    if j == 1 {
      assert es[0].inum == 1;
    } else {
      PlaceFacts(n, j);
      var e := n.place[j].dir;
      Reached(n, es, e);
      var p :| 0 <= p < |es| && es[p].inum == e;
      assert EntriesIn(n, es[p].inum, N_DIRENTS, InumsOf(es));
    }
  }

  // ---- the blocks of an item --------------------------------------------------------------------------------------

  /** The data blocks of a file, as the traversal finds them. */
  function DataList(nd: Inode, disk: seq<Block>): seq<u32> {
    NonNull(nd.direct) + NonNull(Table(disk, nd.indir1)) + TableBlocks(disk, NonNull(Table(disk, nd.indir2)))
  }

  /** On every image these are the non-null pointers of the inode, its indirect block and its tables. */
  lemma DataListIs(nd: Inode, disk: seq<Block>, p: u32)
    ensures p in DataList(nd, disk) <==>
      p != 0 &&
      (|| p in nd.direct || p in Table(disk, nd.indir1)
       || exists q: u32 :: q != 0 && q in Table(disk, nd.indir2) && p in Table(disk, q))
  {
    hide Ptrs;
    var tabs := Table(disk, nd.indir2);
    NonNullIs(nd.direct, p);
    NonNullIs(Table(disk, nd.indir1), p);
    TableBlocksIs(disk, NonNull(tabs), p);
    forall q: u32 ensures q in NonNull(tabs) <==> q != 0 && q in tabs { NonNullIs(tabs, q); }
  }

  /** The blocks that are marked for an item: the data blocks of a file, the first block of a directory. */
  function ItemBlocks(inodes: seq<Inode>, disk: seq<Block>, e: Item): set<nat>
    requires e.inum < |inodes|
  {
    if !e.dir then ToSet(DataList(inodes[e.inum], disk))
    else if IsDir(inodes[e.inum]) then {inodes[e.inum].direct[0] as nat}
    else {}
  }

  ghost function SeenBlocks(inodes: seq<Inode>, disk: seq<Block>, es: seq<Item>): set<nat>
    requires forall k :: 0 <= k < |es| ==> es[k].inum < |inodes|
  {
    if es == [] then {} else SeenBlocks(inodes, disk, es[..|es| - 1]) + ItemBlocks(inodes, disk, es[|es| - 1])
  }

  /** No pointer of the inode leads out of the image, or out of a bitmap of `bits` bits. */
  ghost predicate PointersIn(nd: Inode, disk: seq<Block>, bits: nat) {
    && (forall p: u32 :: p in DataList(nd, disk) ==> p < bits) && nd.direct[0] < bits && nd.direct[0] < |disk|
    && nd.indir1 < |disk| && nd.indir2 < |disk| && forall k :: 0 <= k < N_PTRS ==> Table(disk, nd.indir2)[k] < |disk|
  }

  // ---- the traversal ----------------------------------------------------------------------------------------------

  predicate AllMarked(m: seq<byte>, ps: seq<u32>) {
    forall p: u32 :: p in ps ==> p < 8 * |m| && Bit(m, p)
  }

  lemma ListsJoin(m: seq<byte>, a: seq<u32>, b: seq<u32>)
    ensures ToSet(a + b) == ToSet(a) + ToSet(b)
    ensures AllMarked(m, a + b) <==> AllMarked(m, a) && AllMarked(m, b)
  {
    hide Bit;
    forall p: u32 | p in a || p in b ensures p in a + b {}
  }

  lemma OneListed(m: seq<byte>, p: u32)
    ensures ToSet([p]) == {p as nat} && ToSet([]) == {} && AllMarked(m, [])
    ensures AllMarked(m, [p]) <==> p < 8 * |m| && Bit(m, p)
  {
    hide Bit;
    assert p in [p];
  }

  /** A loop over a table of pointers: the blocks that it points to are marked in blkmap; those that are free in the
      image's block map are errors. */
  method MarkPtrs(blkmap: array<byte>, blockMap: seq<byte>, table: seq<u32>, ghost seen: set<nat>) returns (errors: nat)
    requires StandsFor(blkmap[..], seen) && forall p: u32 :: p in NonNull(table) ==>
      p < 8 * blkmap.Length && p < 8 * |blockMap|
    modifies blkmap
    ensures StandsFor(blkmap[..], seen + ToSet(NonNull(table)))
    ensures errors == 0 <==> AllMarked(blockMap, NonNull(table))
  {
    hide StandsFor, Bit, ToSet, AllMarked, NonNull;
    errors := 0;
    var i := 0;
    NonNullNone(table, blockMap, seen);
    while i < |table|
      invariant 0 <= i <= |table|
      invariant StandsFor(blkmap[..], seen + ToSet(NonNull(table[..i])))
      invariant errors == 0 <==> AllMarked(blockMap, NonNull(table[..i]))
    {
      NonNullNext(table, i);
      if table[i] != 0 {
        NonNullHas(table, i);
        ListsJoin(blockMap, NonNull(table[..i]), [table[i]]);
        OneListed(blockMap, table[i]);
        BitSet(blkmap, table[i], seen + ToSet(NonNull(table[..i])));
        assert seen + ToSet(NonNull(table[..i])) + {table[i] as nat} == seen + ToSet(NonNull(table[..i + 1]));
        if !Bit(blockMap, table[i]) { errors := errors + 1; }
      } else {
        assert NonNull(table[..i + 1]) == NonNull(table[..i]);
      }
      i := i + 1;
    }
    assert table[..i] == table;
  }

  lemma NonNullNone(table: seq<u32>, m: seq<byte>, seen: set<nat>)
    ensures seen + ToSet(NonNull(table[..0])) == seen && AllMarked(m, NonNull(table[..0]))
  {
  }

  lemma {:induction false} NonNullConcat(a: seq<u32>, b: seq<u32>)
    ensures NonNull(a + b) == NonNull(a) + NonNull(b)
  {
    if a == [] {
      assert a + b == b;
    } else {
      assert (a + b)[1..] == a[1..] + b;
      NonNullConcat(a[1..], b);
    }
  }

  lemma NonNullNext(a: seq<u32>, i: nat)
    requires i < |a|
    ensures NonNull(a[..i + 1]) == NonNull(a[..i]) + (if a[i] == 0 then [] else [a[i]])
  {
    assert a[..i + 1] == a[..i] + [a[i]];
    NonNullConcat(a[..i], [a[i]]);
    assert NonNull([a[i]]) == if a[i] == 0 then [] else [a[i]];
  }

  lemma {:induction false} NullsNone(n: nat)
    ensures NonNull(seq<u32>(n, _ => 0)) == []
  {
    if n > 0 {
      assert seq<u32>(n, _ => 0)[1..] == seq<u32>(n - 1, _ => 0);
      NullsNone(n - 1);
    }
  }

  lemma NoTable(disk: seq<Block>)
    ensures NonNull(Table(disk, 0)) == [] && TableBlocks(disk, NonNull(Table(disk, 0))) == []
  {
    NullsNone(N_PTRS);
  }

  lemma {:induction false} TableBlocksConcat(disk: seq<Block>, a: seq<u32>, b: seq<u32>)
    ensures TableBlocks(disk, a + b) == TableBlocks(disk, a) + TableBlocks(disk, b)
  {
    hide Table, NonNull;
    if a == [] {
      assert a + b == b;
    } else {
      assert (a + b)[1..] == a[1..] + b;
      TableBlocksConcat(disk, a[1..], b);
    }
  }

  lemma TableNext(disk: seq<Block>, table: seq<u32>, i: nat)
    requires i < |table|
    ensures TableBlocks(disk, NonNull(table[..i + 1])) ==
            TableBlocks(disk, NonNull(table[..i])) + if table[i] == 0 then [] else NonNull(Table(disk, table[i]))
  {
    hide Table, NonNull;
    NonNullNext(table, i);
    if table[i] != 0 {
      TableBlocksConcat(disk, NonNull(table[..i]), [table[i]]);
      assert TableBlocks(disk, [table[i]]) == NonNull(Table(disk, table[i]));
    } else {
      assert NonNull(table[..i + 1]) == NonNull(table[..i]);
    }
  }

  /** The loop over the second-level tables. */
  method MarkTables(blkmap: array<byte>, blockMap: seq<byte>, disk: seq<Block>, table: seq<u32>, ghost seen: set<nat>)
    returns (errors: nat)
    requires StandsFor(blkmap[..], seen) && forall k :: 0 <= k < |table| ==> table[k] < |disk|
    requires forall p: u32 :: p in TableBlocks(disk, NonNull(table)) ==> p < 8 * blkmap.Length && p < 8 * |blockMap|
    modifies blkmap
    ensures StandsFor(blkmap[..], seen + ToSet(TableBlocks(disk, NonNull(table))))
    ensures errors == 0 <==> AllMarked(blockMap, TableBlocks(disk, NonNull(table)))
  {
    hide StandsFor, Bit, ToSet, AllMarked, NonNull, Ptrs, TableBlocks;
    errors := 0;
    var i := 0;
    TablesNone(disk, table, blockMap, seen);
    while i < |table|
      invariant 0 <= i <= |table|
      invariant StandsFor(blkmap[..], seen + ToSet(TableBlocks(disk, NonNull(table[..i]))))
      invariant errors == 0 <==> AllMarked(blockMap, TableBlocks(disk, NonNull(table[..i])))
    {
      TableNext(disk, table, i);
      ghost var done := TableBlocks(disk, NonNull(table[..i]));
      if table[i] != 0 {
        var buf := Ptrs(disk[table[i]]);
        TablePart(disk, table, i);
        ListsJoin(blockMap, done, NonNull(buf));
        var e := MarkPtrs(blkmap, blockMap, buf, seen + ToSet(done));
        assert seen + ToSet(done) + ToSet(NonNull(buf)) == seen + ToSet(TableBlocks(disk, NonNull(table[..i + 1])));
        errors := errors + e;
      } else {
        assert TableBlocks(disk, NonNull(table[..i + 1])) == done;
      }
      i := i + 1;
    }
    assert table[..i] == table;
  }

  lemma TablesNone(disk: seq<Block>, table: seq<u32>, m: seq<byte>, seen: set<nat>)
    ensures seen + ToSet(TableBlocks(disk, NonNull(table[..0]))) == seen
    ensures AllMarked(m, TableBlocks(disk, NonNull(table[..0])))
  {
  }

  /** What one table lists is on the whole list. */
  lemma TablePart(disk: seq<Block>, table: seq<u32>, i: nat)
    requires i < |table| && table[i] != 0
    ensures forall p: u32 :: p in NonNull(Table(disk, table[i])) ==> p in TableBlocks(disk, NonNull(table))
  {
    hide NonNull, Table, TableBlocks;
    NonNullHas(table, i);
    forall p: u32 | p in NonNull(Table(disk, table[i])) ensures p in TableBlocks(disk, NonNull(table)) {
      TableBlocksHas(disk, NonNull(table), table[i], p);
    }
  }

  /** The branch for a file. */
  method MarkFile(blkmap: array<byte>, blockMap: seq<byte>, disk: seq<Block>, nd: Inode, ghost seen: set<nat>)
    returns (errors: nat)
    requires StandsFor(blkmap[..], seen) && PointersIn(nd, disk, 8 * blkmap.Length)
    requires PointersIn(nd, disk, 8 * |blockMap|)
    modifies blkmap
    ensures StandsFor(blkmap[..], seen + ToSet(DataList(nd, disk)))
    ensures errors == 0 <==> AllMarked(blockMap, DataList(nd, disk))
  {
    hide StandsFor, Bit, NonNull, Ptrs, TableBlocks;
    ghost var l0, l1 := NonNull(nd.direct), NonNull(Table(disk, nd.indir1));
    ghost var l2 := TableBlocks(disk, NonNull(Table(disk, nd.indir2)));
    NoTable(disk);
    ListsJoin(blockMap, l0, l1);
    ListsJoin(blockMap, l0 + l1, l2);
    PartsIn(nd, disk, 8 * blkmap.Length);
    PartsIn(nd, disk, 8 * |blockMap|);
    errors := MarkPtrs(blkmap, blockMap, nd.direct, seen);
    ghost var now := seen + ToSet(l0);
    if nd.indir1 != 0 {
      var e := MarkPtrs(blkmap, blockMap, Ptrs(disk[nd.indir1]), now);
      errors := errors + e;
      now := now + ToSet(l1);
    }
    assert now == seen + ToSet(l0 + l1);
    if nd.indir2 != 0 {
      var e := MarkTables(blkmap, blockMap, disk, Ptrs(disk[nd.indir2]), now);
      errors := errors + e;
      now := now + ToSet(l2);
    }
    assert now == seen + ToSet(l0 + l1 + l2);
  }

  lemma PartsIn(nd: Inode, disk: seq<Block>, bits: nat)
    requires PointersIn(nd, disk, bits)
    ensures forall p: u32 :: p in NonNull(nd.direct) ==> p < bits
    ensures forall p: u32 :: p in NonNull(Table(disk, nd.indir1)) ==> p < bits
    ensures forall p: u32 :: p in TableBlocks(disk, NonNull(Table(disk, nd.indir2))) ==> p < bits
  {
    hide NonNull, TableBlocks, Table;
    forall p: u32 | p in NonNull(nd.direct) || p in NonNull(Table(disk, nd.indir1))
      || p in TableBlocks(disk, NonNull(Table(disk, nd.indir2)))
      ensures p < bits
    {
      assert p in DataList(nd, disk);
    }
  }

  /** The queue: every inode at most once, all of them in the inode table and marked. */
  ghost predicate QueueOk(es: seq<Item>, marks: seq<byte>, n: nat) {
    DistinctItems(es) && (forall k :: 0 <= k < |es| ==> es[k].inum < n) && StandsFor(marks, InumsOf(es))
  }

  lemma QueuePush(es: seq<Item>, marks: seq<byte>, n: nat, e: Item, marks': seq<byte>)
    requires QueueOk(es, marks, n) && e.inum < n && e.inum < 8 * |marks| && !Bit(marks, e.inum)
    requires StandsFor(marks', InumsOf(es) + {e.inum})
    ensures QueueOk(es + [e], marks', n) && |es| < n && InumsOf(es + [e]) == InumsOf(es) + {e.inum}
  {
    Pushed(es, e);
    QueueBound(es + [e], n);
  }

  /** What the traversal relies on for an image to be without errors: it is that of a consistent name tree, all of whose
      inodes and blocks are marked. */
  ghost predicate NoFaults(n: NameTree, inodes: seq<Inode>, disk: seq<Block>, inodeMap: seq<byte>, blockMap: seq<byte>)
  {
    && TreeOk(n) && n.inodes == inodes && n.disk == disk
    && (forall i :: i in n.nodes ==> i < 8 * |inodeMap| && Bit(inodeMap, i))
    && (forall i :: i in n.nodes && i < |inodes| ==>
         AllMarked(blockMap, DataList(inodes[i], disk)) && AllMarked(blockMap, [inodes[i].direct[0]]))
  }

  /** The array of inode marks has a bit for all inodes, or for those of a consistent image. */
  ghost predicate MarksReach(bits: nat, n: NameTree, inodes: seq<Inode>, disk: seq<Block>, inodeMap: seq<byte>,
                             blockMap: seq<byte>) {
    |inodes| <= bits || (NoFaults(n, inodes, disk, inodeMap, blockMap) && forall i :: i in n.nodes ==> i < bits)
  }

  /** A valid entry names an inode of the table that is marked in the image and is in the queue. */
  predicate EntryFine(e: Dirent, inodeMap: seq<byte>, n: nat, inums: set<nat>) {
    e.valid ==>
      && e.inode as nat < n && e.inode as nat < 8 * |inodeMap|
      && Bit(inodeMap, e.inode) && e.inode as nat in inums
  }

  ghost predicate EntriesFine(es: Dirents, x: nat, inodeMap: seq<byte>, n: nat, inums: set<nat>) {
    forall y :: 0 <= y < x && y < N_DIRENTS ==> EntryFine(es[y], inodeMap, n, inums)
  }

  /** What an item without errors is like. */
  ghost predicate ItemFine(inodes: seq<Inode>, disk: seq<Block>, inodeMap: seq<byte>, blockMap: seq<byte>, e: Item,
                           inums: set<nat>) {
    && e.inum < |inodes|
    && if !e.dir then AllMarked(blockMap, DataList(inodes[e.inum], disk))
       else IsDir(inodes[e.inum]) && AllMarked(blockMap, [inodes[e.inum].direct[0]])
            && EntriesFine(DirOf(inodes[e.inum], disk), N_DIRENTS, inodeMap, |inodes|, inums)
  }

  lemma FineGrows(inodes: seq<Inode>, disk: seq<Block>, inodeMap: seq<byte>, blockMap: seq<byte>, e: Item, a: set<nat>,
                  b: set<nat>)
    requires ItemFine(inodes, disk, inodeMap, blockMap, e, a) && a <= b
    ensures ItemFine(inodes, disk, inodeMap, blockMap, e, b)
  {
    hide DataList, AllMarked, IsDir, Bit, DirOf;
    if e.dir { EntriesGrow(DirOf(inodes[e.inum], disk), N_DIRENTS, inodeMap, |inodes|, a, b); }
  }

  lemma EntriesGrow(es: Dirents, x: nat, inodeMap: seq<byte>, n: nat, a: set<nat>, b: set<nat>)
    requires EntriesFine(es, x, inodeMap, n, a) && a <= b
    ensures EntriesFine(es, x, inodeMap, n, b)
  {
    hide Bit;
    forall y | 0 <= y < x && y < N_DIRENTS
      ensures EntryFine(es[y], inodeMap, n, b)
    {
      assert EntryFine(es[y], inodeMap, n, a);
    }
  }

  lemma EntriesNext(es: Dirents, x: nat, inodeMap: seq<byte>, n: nat, inums: set<nat>)
    requires EntriesFine(es, x, inodeMap, n, inums) && x < N_DIRENTS && EntryFine(es[x], inodeMap, n, inums)
    ensures EntriesFine(es, x + 1, inodeMap, n, inums)
  {
    hide EntryFine;
  }

  /** The branch for a directory: its valid entries join the queue. */
  method VisitDir(list: array<Item>, head0: nat, t: nat, marks: array<byte>, inodeMap: seq<byte>, blockMap: seq<byte>,
                  disk: seq<Block>, inodes: seq<Inode>, ghost n: NameTree)
    returns (head: nat, errors: nat, loop: bool)
    requires list as object != marks && 0 < t <= head0 <= list.Length && |inodes| <= list.Length
    requires MarksReach(8 * marks.Length, n, inodes, disk, inodeMap, blockMap) && |inodes| <= 8 * |inodeMap|
    requires QueueOk(list[..head0], marks[..], |inodes|) && list[t - 1].inum < |inodes|
    requires IsDir(inodes[list[t - 1].inum]) && inodes[list[t - 1].inum].direct[0] < |disk|
    requires NoFaults(n, inodes, disk, inodeMap, blockMap) ==> Going(n, list[..head0], t, 0) && list[t - 1].dir
    modifies list, marks
    ensures head0 <= head <= list.Length && list[..head0] == old(list[..head0])
    ensures QueueOk(list[..head], marks[..], |inodes|)
    ensures errors == 0 && !loop ==>
      EntriesFine(DirOf(inodes[old(list[t - 1]).inum], disk), N_DIRENTS, inodeMap, |inodes|, InumsOf(list[..head]))
    ensures NoFaults(n, inodes, disk, inodeMap, blockMap) ==>
      errors == 0 && !loop && Going(n, list[..head], t, N_DIRENTS)
  {
    hide QueueOk, Going, NoFaults, IsDir, Entries, StandsFor, Bit, InumsOf;
    ghost var good := NoFaults(n, inodes, disk, inodeMap, blockMap);
    var inum := list[t - 1].inum;
    var de := Entries(disk[inodes[inum].direct[0]]);
    head, errors, loop := head0, 0, false;
    var i := 0;
    while i < N_DIRENTS
      invariant 0 <= i <= N_DIRENTS && head0 <= head <= list.Length && !loop
      invariant list[..head0] == old(list[..head0]) && QueueOk(list[..head], marks[..], |inodes|)
      invariant errors == 0 ==> EntriesFine(de, i, inodeMap, |inodes|, InumsOf(list[..head]))
      invariant good ==> errors == 0 && Going(n, list[..head], t, i)
    {
      ghost var es := list[..head];
      assert es[t - 1] == list[..head0][t - 1];
      if de[i].valid {
        var j := de[i].inode;
        if good { GoodEntry(n, inodes, disk, inodeMap, blockMap, es, t, i); }
        if j as nat >= |inodes| {
          errors := errors + 1;
          i := i + 1;
          continue;
        }
        assert j < 8 * marks.Length;
        QueueMarks(es, marks[..], |inodes|, j);
        if Bit(marks[..], j) { loop := true; return; }
        ghost var marks0 := marks[..];
        BitSet(marks, j, InumsOf(es));
        if !Bit(inodeMap, j) { errors := errors + 1; }
        QueuePush(es, marks0, |inodes|, Item(de[i].isDir, j), marks[..]);
        list[head] := Item(de[i].isDir, j);
        head := head + 1;
        assert list[..head] == es + [Item(de[i].isDir, j)];
        if errors == 0 {
          EntriesGrow(de, i, inodeMap, |inodes|, InumsOf(es), InumsOf(list[..head]));
          EntriesNext(de, i, inodeMap, |inodes|, InumsOf(list[..head]));
        }
      } else {
        if good { GoodSkip(n, inodes, disk, inodeMap, blockMap, es, t, i); }
        if errors == 0 { EntriesNext(de, i, inodeMap, |inodes|, InumsOf(es)); }
      }
      i := i + 1;
    }
  }

  lemma QueueMarks(es: seq<Item>, marks: seq<byte>, n: nat, j: nat)
    requires QueueOk(es, marks, n) && j < 8 * |marks|
    ensures StandsFor(marks, InumsOf(es)) && (Bit(marks, j) <==> j in InumsOf(es))
  {
  }

  lemma GoodEntry(n: NameTree, inodes: seq<Inode>, disk: seq<Block>, inodeMap: seq<byte>, blockMap: seq<byte>,
                  es: seq<Item>, t: nat, x: nat)
    requires NoFaults(n, inodes, disk, inodeMap, blockMap) && Going(n, es, t, x) && 0 < t <= |es| && x < N_DIRENTS
    requires es[t - 1].inum < |inodes|
    requires es[t - 1].dir && DirOf(inodes[es[t - 1].inum], disk)[x].valid
    ensures var d := DirOf(inodes[es[t - 1].inum], disk)[x];
      && d.inode as nat < |inodes| && d.inode as nat !in InumsOf(es) && d.inode as nat < 8 * |inodeMap|
      && Bit(inodeMap, d.inode) && d.inode as nat in n.nodes
      && Going(n, es + [Item(d.isDir, d.inode)], t, x + 1)
  {
    hide TreeOk, DirOf, IsDir, DataList, AllMarked, Going, Bit;
    GoingFresh(n, es, t, x);
    GoingPush(n, es, t, x);
  }

  lemma GoodSkip(n: NameTree, inodes: seq<Inode>, disk: seq<Block>, inodeMap: seq<byte>, blockMap: seq<byte>,
                 es: seq<Item>, t: nat, x: nat)
    requires NoFaults(n, inodes, disk, inodeMap, blockMap) && Going(n, es, t, x) && 0 < t <= |es| && x < N_DIRENTS
    requires es[t - 1].inum < |inodes|
    requires es[t - 1].dir && !DirOf(inodes[es[t - 1].inum], disk)[x].valid
    ensures Going(n, es, t, x + 1)
  {
    hide TreeOk, DirOf, IsDir, DataList, AllMarked, Going, Bit;
    GoingSkip(n, es, t, x);
  }

  /** No inode has a pointer out of range. */
  ghost predicate ImageIn(inodes: seq<Inode>, disk: seq<Block>, bits: nat) {
    forall i :: 0 <= i < |inodes| ==> PointersIn(inodes[i], disk, bits)
  }

  lemma InodeIn(inodes: seq<Inode>, disk: seq<Block>, bits: nat, i: nat)
    requires ImageIn(inodes, disk, bits) && i < |inodes|
    ensures PointersIn(inodes[i], disk, bits) && inodes[i].direct[0] < bits && inodes[i].direct[0] < |disk|
  {
    hide DataList, Table;
  }

  lemma QueueInums(es: seq<Item>, marks: seq<byte>, n: nat)
    requires QueueOk(es, marks, n)
    ensures |es| <= n && forall k :: 0 <= k < |es| ==> es[k].inum < n
  {
    QueueBound(es, n);
  }

  lemma SeenNext(inodes: seq<Inode>, disk: seq<Block>, es: seq<Item>, e: Item)
    requires e.inum < |inodes| && forall k :: 0 <= k < |es| ==> es[k].inum < |inodes|
    ensures SeenBlocks(inodes, disk, es + [e]) == SeenBlocks(inodes, disk, es) + ItemBlocks(inodes, disk, e)
  {
    hide ItemBlocks;
    assert (es + [e])[..|es|] == es;
  }

  /** Marks the blocks of an item; for a directory, those that its entries name join the queue. */
  method VisitItem(list: array<Item>, head0: nat, t: nat, marks: array<byte>, blkmap: array<byte>, inodeMap: seq<byte>,
                   blockMap: seq<byte>, disk: seq<Block>, inodes: seq<Inode>, ghost n: NameTree, ghost seen: set<nat>)
    returns (head: nat, errors: nat, loop: bool)
    requires list as object != marks && list as object != blkmap && marks != blkmap
    requires 0 < t <= head0 <= list.Length && |inodes| <= list.Length && |inodes| <= 8 * |inodeMap|
    requires MarksReach(8 * marks.Length, n, inodes, disk, inodeMap, blockMap)
    requires QueueOk(list[..head0], marks[..], |inodes|) && list[t - 1].inum < |inodes| && StandsFor(blkmap[..], seen)
    requires ImageIn(inodes, disk, 8 * blkmap.Length) && ImageIn(inodes, disk, 8 * |blockMap|)
    requires NoFaults(n, inodes, disk, inodeMap, blockMap) ==>
      Going(n, list[..head0], t, 0) && (list[t - 1].dir <==> IsDir(inodes[list[t - 1].inum]))
    modifies list, marks, blkmap
    ensures head0 <= head <= list.Length && list[..head0] == old(list[..head0])
    ensures QueueOk(list[..head], marks[..], |inodes|)
    ensures StandsFor(blkmap[..], seen + ItemBlocks(inodes, disk, list[t - 1]))
    ensures errors == 0 && !loop ==> ItemFine(inodes, disk, inodeMap, blockMap, old(list[t - 1]), InumsOf(list[..head]))
    ensures NoFaults(n, inodes, disk, inodeMap, blockMap) ==>
      errors == 0 && !loop && Going(n, list[..head], t, N_DIRENTS)
  {
    hide QueueOk, Going, NoFaults, IsDir, StandsFor, Bit, ImageIn, PointersIn, DataList, ToSet, AllMarked, InumsOf,
      EntriesFine, DirOf;
    ghost var good := NoFaults(n, inodes, disk, inodeMap, blockMap);
    var e := list[t - 1];
    head, errors, loop := head0, 0, false;
    InodeIn(inodes, disk, 8 * blkmap.Length, e.inum);
    InodeIn(inodes, disk, 8 * |blockMap|, e.inum);
    if good { ItemMarked(n, inodes, disk, inodeMap, blockMap, list[..head0], t); }
    if !e.dir {
      errors := MarkFile(blkmap, blockMap, disk, inodes[e.inum], seen);
      if good { GoingFile(n, list[..head0], t); }
    } else if !IsDir(inodes[e.inum]) {
      errors := 1;
      assert seen + {} == seen;
    } else {
      var p := inodes[e.inum].direct[0];
      OneListed(blockMap, p);
      if !Bit(blockMap, p) { errors := 1; }
      BitSet(blkmap, p, seen);
      var errs;
      head, errs, loop := VisitDir(list, head0, t, marks, inodeMap, blockMap, disk, inodes, n);
      errors := errors + errs;
      assert list[t - 1] == list[..head0][t - 1];
    }
  }

  lemma ItemMarked(n: NameTree, inodes: seq<Inode>, disk: seq<Block>, inodeMap: seq<byte>, blockMap: seq<byte>,
                   es: seq<Item>, t: nat)
    requires NoFaults(n, inodes, disk, inodeMap, blockMap) && Going(n, es, t, 0) && 0 < t <= |es|
    requires es[t - 1].inum < |inodes|
    ensures AllMarked(blockMap, DataList(inodes[es[t - 1].inum], disk))
    ensures inodes[es[t - 1].inum].direct[0] < 8 * |blockMap| && Bit(blockMap, inodes[es[t - 1].inum].direct[0])
  {
    hide DataList, TreeOk, IsDir, Bit;
    assert es[t - 1].inum in n.nodes;
    assert AllMarked(blockMap, [inodes[es[t - 1].inum].direct[0]]);
    assert inodes[es[t - 1].inum].direct[0] in [inodes[es[t - 1].inum].direct[0]];
  }

  /** The traversal. On every image whose pointers are in range it ends, and visits no inode twice; on a consistent
      image it finds no fault and marks exactly the inodes in use. */
  method Walk(disk: seq<Block>, inodes: seq<Inode>, inodeMap: seq<byte>, blockMap: seq<byte>, blkmap: array<byte>,
              marks: array<byte>, ghost n: NameTree)
    returns (es: seq<Item>, errors: nat, loop: bool)
    requires marks != blkmap && StandsFor(marks[..], {}) && StandsFor(blkmap[..], {})
    requires 1 < |inodes| <= 8 * |inodeMap| && marks.Length > 0
    requires MarksReach(8 * marks.Length, n, inodes, disk, inodeMap, blockMap)
    requires ImageIn(inodes, disk, 8 * blkmap.Length) && ImageIn(inodes, disk, 8 * |blockMap|)
    modifies marks, blkmap
    ensures QueueOk(es, marks[..], |inodes|) && |es| <= |inodes| && forall k :: 0 <= k < |es| ==> es[k].inum < |inodes|
    ensures !loop ==> StandsFor(blkmap[..], SeenBlocks(inodes, disk, es))
    ensures !loop && errors == 0 ==> forall k :: 0 <= k < |es| ==>
      ItemFine(inodes, disk, inodeMap, blockMap, es[k], InumsOf(es))
    ensures NoFaults(n, inodes, disk, inodeMap, blockMap) ==>
      !loop && errors == 0 && InumsOf(es) == n.nodes && Sound(n, es)
  {
    hide QueueOk, Going, NoFaults, IsDir, StandsFor, Bit, ImageIn, ItemBlocks, InumsOf, SeenBlocks, Sound, ItemFine;
    ghost var good := NoFaults(n, inodes, disk, inodeMap, blockMap);
    var list := new Item[|inodes| + 100](_ => Item(false, 0));
    list[0] := Item(true, 1);
    ghost var marks0, blk0 := marks[..], blkmap[..];
    BitSet(marks, 1, {});
    assert list[..1] == [Item(true, 1)] && blkmap[..] == blk0;
    QueueStart(marks[..], |inodes|);
    if good { StartGood(n, inodes, disk, inodeMap, blockMap); }
    SeenNone(inodes, disk);
    ghost var q := [Item(true, 1)];
    var head, tail := 1, 0;
    errors, loop := 0, false;
    while head != tail
      invariant 0 <= tail <= head <= |inodes| && !loop && q == list[..head]
      invariant QueueOk(q, marks[..], |inodes|) && forall k :: 0 <= k < |q| ==> q[k].inum < |inodes|
      invariant StandsFor(blkmap[..], SeenBlocks(inodes, disk, q[..tail]))
      invariant errors == 0 ==> forall k :: 0 <= k < tail ==>
        ItemFine(inodes, disk, inodeMap, blockMap, q[k], InumsOf(q))
      invariant good ==> errors == 0 && Going(n, q, tail, N_DIRENTS)
      decreases |inodes| - tail
    {
      ghost var q0, seen := q, SeenBlocks(inodes, disk, q[..tail]);
      tail := tail + 1;
      assert list[tail - 1] == q[tail - 1];
      if good { TakeGood(n, inodes, disk, inodeMap, blockMap, q, tail); }
      var errs;
      head, errs, loop := VisitItem(list, head, tail, marks, blkmap, inodeMap, blockMap, disk, inodes, n, seen);
      errors := errors + errs;
      q := list[..head];
      QueueInums(q, marks[..], |inodes|);
      SeenGrows(inodes, disk, q0, q, tail);
      if loop { es := list[..head]; return; }
      if errors == 0 { FineNext(inodes, disk, inodeMap, blockMap, q0, q, tail); }
    }
    assert q[..tail] == q;
    es := list[..head];
    if good { GoodEnd(n, inodes, disk, inodeMap, blockMap, es); }
  }

  lemma FineNext(inodes: seq<Inode>, disk: seq<Block>, inodeMap: seq<byte>, blockMap: seq<byte>, a: seq<Item>,
                 b: seq<Item>, t: nat)
    requires 0 < t <= |a| <= |b| && b[..|a|] == a
    requires forall k :: 0 <= k < t - 1 ==> ItemFine(inodes, disk, inodeMap, blockMap, a[k], InumsOf(a))
    requires ItemFine(inodes, disk, inodeMap, blockMap, a[t - 1], InumsOf(b))
    ensures forall k :: 0 <= k < t ==> ItemFine(inodes, disk, inodeMap, blockMap, b[k], InumsOf(b))
  {
    hide ItemFine;
    forall k | 0 <= k < |a| ensures a[k] == b[k] { assert b[..|a|][k] == b[k]; }
    assert InumsOf(a) <= InumsOf(b);
    forall k | 0 <= k < t ensures ItemFine(inodes, disk, inodeMap, blockMap, b[k], InumsOf(b)) {
      if k < t - 1 { FineGrows(inodes, disk, inodeMap, blockMap, a[k], InumsOf(a), InumsOf(b)); }
    }
  }

  lemma SeenNone(inodes: seq<Inode>, disk: seq<Block>)
    ensures SeenBlocks(inodes, disk, [Item(true, 1)][..0]) == {}
  {
  }

  lemma SeenGrows(inodes: seq<Inode>, disk: seq<Block>, a: seq<Item>, b: seq<Item>, t: nat)
    requires 0 < t <= |a| <= |b| && b[..|a|] == a && forall k :: 0 <= k < |b| ==> b[k].inum < |inodes|
    ensures a[t - 1] == b[t - 1] && forall k :: 0 <= k < |a| ==> a[k].inum < |inodes|
    ensures SeenBlocks(inodes, disk, b[..t]) ==
      SeenBlocks(inodes, disk, a[..t - 1]) + ItemBlocks(inodes, disk, b[t - 1])
  {
    hide ItemBlocks, SeenBlocks;
    forall k | 0 <= k < |a| ensures a[k] == b[k] { assert b[..|a|][k] == b[k]; }
    assert b[..t] == a[..t - 1] + [a[t - 1]];
    SeenNext(inodes, disk, a[..t - 1], a[t - 1]);
  }

  lemma QueueStart(marks: seq<byte>, n: nat)
    requires StandsFor(marks, {} + {1}) && 1 < n
    ensures QueueOk([Item(true, 1)], marks, n)
  {
    hide StandsFor;
    var es := [Item(true, 1)];
    assert es[0].inum == 1;
    assert InumsOf(es) == {} + {1};
  }

  lemma StartGood(n: NameTree, inodes: seq<Inode>, disk: seq<Block>, inodeMap: seq<byte>, blockMap: seq<byte>)
    requires NoFaults(n, inodes, disk, inodeMap, blockMap)
    ensures Going(n, [Item(true, 1)], 0, N_DIRENTS)
  {
    hide TreeOk, Going, DataList, AllMarked, Bit;
    GoingStart(n);
  }

  lemma TakeGood(n: NameTree, inodes: seq<Inode>, disk: seq<Block>, inodeMap: seq<byte>, blockMap: seq<byte>,
                 es: seq<Item>, t: nat)
    requires NoFaults(n, inodes, disk, inodeMap, blockMap) && 0 < t <= |es| && Going(n, es, t - 1, N_DIRENTS)
    requires es[t - 1].inum < |inodes|
    ensures Going(n, es, t, 0) && (es[t - 1].dir <==> IsDir(inodes[es[t - 1].inum]))
  {
    hide TreeOk, Going, DataList, AllMarked, Bit, IsDir;
    GoingTake(n, es, t - 1);
  }

  lemma GoodEnd(n: NameTree, inodes: seq<Inode>, disk: seq<Block>, inodeMap: seq<byte>, blockMap: seq<byte>,
                es: seq<Item>)
    requires NoFaults(n, inodes, disk, inodeMap, blockMap) && Going(n, es, |es|, N_DIRENTS)
    ensures InumsOf(es) == n.nodes && Sound(n, es)
  {
    hide TreeOk, DataList, AllMarked, Bit, Born, Covered;
    GoingEnd(n, es);
  }

  // ---- the image of a consistent state -----------------------------------------------------------------------------

  /** The data blocks of inode i. */
  ghost function DataOf(owner: Owner, i: nat): set<nat> {
    set p | p in owner && owner[p].Data? && owner[p].ino == i
  }

  /** The data blocks of the given inodes, and of all. */
  ghost function DataAmong(owner: Owner, inums: set<nat>): set<nat> {
    set p | p in owner && owner[p].Data? && owner[p].ino in inums
  }

  ghost function AllDataBlocks(owner: Owner): set<nat> {
    set p | p in owner && owner[p].Data?
  }

  lemma {:induction false} NonNullFrom(a: seq<u32>, p: u32) returns (k: nat)
    requires p in NonNull(a)
    ensures k < |a| && a[k] == p && p != 0
  {
    if a[0] == p && p != 0 {
      k := 0;
    } else {
      k := NonNullFrom(a[1..], p);
      k := k + 1;
    }
  }

  lemma {:induction false} TableBlocksFrom(disk: seq<Block>, ps: seq<u32>, p: u32) returns (q: u32)
    requires p in TableBlocks(disk, ps)
    ensures q in ps && p in NonNull(Table(disk, q))
  {
    hide NonNull, Table;
    if p in NonNull(Table(disk, ps[0])) { q := ps[0]; } else { q := TableBlocksFrom(disk, ps[1..], p); }
  }

  /** A pointer of a region is the block of its slot. */
  lemma RegionData(i: nat, t: FileTrees.Tree, r: Region, owner: Owner, p: u32)
    requires TreeOwned(i, t, owner) && ValidRegion(r) && p in NonNull(Leaf(t, r))
    ensures p as nat in DataOf(owner, i)
  {
    var k := NonNullFrom(Leaf(t, r), p);
    assert Owned(i, r, Leaf(t, r), owner);
  }

  lemma ListIsData(i: nat, nd: Inode, t: FileTrees.Tree, disk: seq<Block>, owner: Owner, p: u32)
    requires Stored(t, nd, disk) && TreeOwned(i, t, owner) && p in DataList(nd, disk)
    ensures p as nat in DataOf(owner, i)
  {
    hide NonNull, Owned, Ptrs;
    if p in NonNull(t.direct) {
      RegionData(i, t, Direct, owner, p);
    } else if p in NonNull(t.one) {
      RegionData(i, t, Single, owner, p);
    } else {
      var q := TableBlocksFrom(disk, NonNull(t.tabs), p);
      var j := NonNullFrom(t.tabs, q);
      RegionData(i, t, Double(j), owner, p);
    }
  }

  lemma DataIsListed(nd: Inode, t: FileTrees.Tree, c: nat, disk: seq<Block>, s: Slot, p: u32)
    requires Stored(t, nd, disk) && Dense(t, c) && Hangs(t, s, p) && p != 0 && s.Data?
    ensures p in DataList(nd, disk)
  {
    hide NonNull, Dense, Ptrs, TableBlocks;
    TablesThere(t, c, s, p);
    match s {
      case Data(_, Direct, k) => NonNullHas(t.direct, k);
      case Data(_, Single, k) => NonNullHas(t.one, k);
      case Data(_, Double(j), k) =>
        NonNullHas(t.tabs, j);
        NonNullHas(t.two[j], k);
        TableBlocksHas(disk, NonNull(t.tabs), t.tabs[j], p);
    }
  }

  lemma DataSetIs(i: nat, nd: Inode, t: FileTrees.Tree, c: nat, disk: seq<Block>, owner: Owner)
    requires FileOk(i, nd, t, c, disk, owner) && 0 !in owner
    ensures ToSet(DataList(nd, disk)) == DataOf(owner, i)
  {
    hide Stored, Dense, TreeOwned, DataList;
    forall p | p in ToSet(DataList(nd, disk))
      ensures p in DataOf(owner, i)
    {
      ListIsData(i, nd, t, disk, owner, p as u32);
    }
    forall p | p in DataOf(owner, i) ensures p in ToSet(DataList(nd, disk)) {
      assert Hangs(t, owner[p], p);
      DataIsListed(nd, t, c, disk, owner[p], p as u32);
    }
  }

  /** The blocks that are marked for an inode in use are its data blocks. */
  lemma ItemIs(first: nat, s: State, e: Item)
    requires Inv(first, s) && e.inum in s.sh.trees && e.inum < |s.inodes| && (e.dir <==> IsDir(s.inodes[e.inum]))
    ensures ItemBlocks(s.inodes, s.disk, e) == DataOf(s.owner, e.inum)
  {
    hide Inv, FileOk, DataList, IsDir, ToSet;
    InvTree(first, s);
    InvKeys(first, s);
    var i := e.inum;
    if e.dir {
      DirBlockFacts(first, s, i);
      DirData1(first, s, i);
    } else {
      DataSetIs(i, s.inodes[i], s.sh.trees[i], s.sh.extent[i], s.disk, s.owner);
    }
  }

  lemma DirData1(first: nat, s: State, i: nat)
    requires Inv(first, s) && i in s.sh.trees && i < |s.inodes| && IsDir(s.inodes[i])
    ensures DataOf(s.owner, i) == {s.inodes[i].direct[0] as nat}
  {
    hide Inv, IsDir;
    Rmdir.DirFootprint(first, s, i);
    DirBlockFacts(first, s, i);
    assert forall p :: p in DataOf(s.owner, i) ==> p in Footprint(s.owner, i);
  }

  lemma {:induction false} SeenIs(first: nat, s: State, es: seq<Item>)
    requires Inv(first, s) && forall k :: 0 <= k < |es| ==>
      es[k].inum in s.sh.trees && es[k].inum < |s.inodes| && (es[k].dir <==> IsDir(s.inodes[es[k].inum]))
    ensures SeenBlocks(s.inodes, s.disk, es) == DataAmong(s.owner, InumsOf(es))
  {
    hide Inv, IsDir, ItemBlocks;
    if es != [] {
      var m := |es| - 1;
      SeenIs(first, s, es[..m]);
      ItemIs(first, s, es[m]);
      forall k | 0 <= k < m ensures es[k].inum in InumsOf(es[..m]) { assert es[..m][k] == es[k]; }
      assert InumsOf(es) == InumsOf(es[..m]) + {es[m].inum};
    }
  }

  lemma AllData(s: State, es: seq<Item>)
    requires InumsOf(es) == s.sh.trees.Keys && forall p :: p in s.owner && !s.owner[p].Leaked? ==>
      s.owner[p].ino in s.sh.trees
    ensures DataAmong(s.owner, InumsOf(es)) == AllDataBlocks(s.owner)
  {
  }

  /** The inodes and blocks of a consistent state give the traversal nothing to complain of. */
  lemma ImageNoFaults(first: nat, s: State, im: seq<byte>, bm: seq<byte>)
    requires Inv(first, s) && StandsFor(im, s.live) && StandsFor(bm, s.used) && |s.disk| <= 8 * |bm|
    ensures NoFaults(TreeOf(s), s.inodes, s.disk, im, bm)
  {
    hide Inv, StandsFor, TreeOk, DataList, Bit, AllMarked, BlocksOk, Table, FilesOk;
    InvTree(first, s);
    InvKeys(first, s);
    forall i | i in s.sh.trees ensures i < 8 * |im| && Bit(im, i) { BitOf(im, s.live, i); }
    forall i | i in s.sh.trees && i < |s.inodes|
      ensures AllMarked(bm, DataList(s.inodes[i], s.disk)) && AllMarked(bm, [s.inodes[i].direct[0]])
    {
      InodeMarked(first, s, bm, i);
    }
  }

  lemma InodeMarked(first: nat, s: State, bm: seq<byte>, i: nat)
    requires Inv(first, s) && StandsFor(bm, s.used) && i in s.sh.trees && i < |s.inodes| && |s.disk| <= 8 * |bm|
    ensures AllMarked(bm, DataList(s.inodes[i], s.disk)) && AllMarked(bm, [s.inodes[i].direct[0]])
  {
    hide Inv, StandsFor, DataList, Bit, FileOk, DirOf;
    InvTree(first, s);
    InvKeys(first, s);
    DataSetIs(i, s.inodes[i], s.sh.trees[i], s.sh.extent[i], s.disk, s.owner);
    forall p: u32 | p in DataList(s.inodes[i], s.disk) ensures p < 8 * |bm| && Bit(bm, p) {
      assert p as nat in ToSet(DataList(s.inodes[i], s.disk));
      BitOf(bm, s.used, p);
    }
    FirstDirect(i, s.inodes[i], s.sh.trees[i], s.sh.extent[i], s.disk, s.owner);
    var p := s.inodes[i].direct[0];
    assert p as nat in s.used by { if p == 0 { MetaMarked(first, s, 0); } }
    BitOf(bm, s.used, p);
  }

  lemma FirstDirect(i: nat, nd: Inode, t: FileTrees.Tree, c: nat, disk: seq<Block>, owner: Owner)
    requires FileOk(i, nd, t, c, disk, owner)
    ensures nd.direct[0] != 0 ==> nd.direct[0] as nat in AllDataBlocks(owner)
  {
    assert Owned(i, Direct, Leaf(t, Direct), owner);
  }

  /** Arrays of this many bits have one for every data block, and for block 0. */
  ghost predicate DataReach(s: State, bits: nat) {
    0 < bits && forall p :: p in AllDataBlocks(s.owner) ==> p < bits
  }

  lemma UsedPointersIn(first: nat, s: State, bits: nat, i: nat)
    requires Inv(first, s) && DataReach(s, bits) && i in s.sh.trees && i < |s.inodes|
    ensures PointersIn(s.inodes[i], s.disk, bits)
  {
    hide Inv, DataList, FileOk;
    InvTree(first, s);
    InvKeys(first, s);
    var nd, t := s.inodes[i], s.sh.trees[i];
    DataSetIs(i, nd, t, s.sh.extent[i], s.disk, s.owner);
    forall p: u32 | p in DataList(nd, s.disk) ensures p < bits {
      assert p as nat in ToSet(DataList(nd, s.disk));
      assert p as nat in AllDataBlocks(s.owner);
    }
    FirstDirect(i, nd, t, s.sh.extent[i], s.disk, s.owner);
    TablesOwned(i, nd, t, s.sh.extent[i], s.disk, s.owner);
  }

  lemma TablesOwned(i: nat, nd: Inode, t: FileTrees.Tree, c: nat, disk: seq<Block>, owner: Owner)
    requires FileOk(i, nd, t, c, disk, owner)
    ensures (nd.indir1 != 0 ==> nd.indir1 as nat in owner) && (nd.indir2 != 0 ==> nd.indir2 as nat in owner)
    ensures forall k :: 0 <= k < N_PTRS && Table(disk, nd.indir2)[k] != 0 ==> Table(disk, nd.indir2)[k] as nat in owner
  {
    hide Ptrs, Owned;
  }

  lemma FreePointersIn(nd: Inode, disk: seq<Block>, bits: nat)
    requires NullInode(nd) && bits > 0 && |disk| > 0
    ensures PointersIn(nd, disk, bits)
  {
    hide NonNull;
    NoTable(disk);
    NullsNone(6);
    assert nd.direct == seq<u32>(6, _ => 0);
    assert DataList(nd, disk) == [];
  }

  /** The pointers of a consistent state are in range. */
  lemma AllPointersIn(first: nat, s: State, bits: nat)
    requires Inv(first, s) && DataReach(s, bits)
    ensures ImageIn(s.inodes, s.disk, bits)
  {
    hide Inv, PointersIn, NullInode;
    InvKeys(first, s);
    forall i | 0 <= i < |s.inodes| ensures PointersIn(s.inodes[i], s.disk, bits) {
      if i in s.sh.trees {
        UsedPointersIn(first, s, bits, i);
      } else {
        FreeInodeNull(first, s, i);
        FreePointersIn(s.inodes[i], s.disk, bits);
      }
    }
  }

  /** Arrays of this many bits have one for everything that the traversal of the image marks. */
  ghost predicate Reach(s: State, bits: nat) {
    DataReach(s, bits) && forall i :: i in s.sh.trees ==> i < bits
  }

  /** One bit for each block, in whole bytes, is enough if the number of blocks is a multiple of eight and there are no
      more inodes than blocks. */
  lemma WholeBytes(first: nat, s: State)
    requires Inv(first, s) && |s.disk| % 8 == 0 && |s.inodes| <= |s.disk|
    ensures Reach(s, |s.disk| / 8 * 8)
  {
    hide Inv;
    InvKeys(first, s);
  }

  /** read-img on the image of a consistent state whose marking arrays (one bit for each block, in whole bytes) have a
      bit for everything that is to be marked: no error, no loop; the marks are the inodes in use and their data
      blocks. */
  method ReadImage(disk: array<Block>, ghost s: State, ghost im: seq<byte>, ghost bm: seq<byte>)
    returns (es: seq<Item>, blkmap: array<byte>, errors: nat, loop: bool)
    requires Reach(s, disk.Length / 8 * 8) && ImageOf(disk[..], s, im, bm)
    ensures !loop && errors == 0 && DistinctItems(es) && InumsOf(es) == s.sh.trees.Keys
    ensures StandsFor(blkmap[..], AllDataBlocks(s.owner))
  {
    hide Inv, Holds, StandsFor, SuperOf, ImageIn, NoFaults, SeenBlocks, InumsOf, IsDir, FromByte;
    RegionsFit(disk[..], s, im, bm);
    var size := disk.Length * BLOCK_SIZE;
    blkmap := new byte[size / 8192](_ => 0);
    var marks := new byte[size / 8192](_ => 0);
    assert blkmap.Length == disk.Length / 8;
    ZeroMapIsEmpty(blkmap[..]);
    ZeroMapIsEmpty(marks[..]);
    ghost var first := SuperOf(disk[0]).First();
    var inodeMap, blockMap, inodes := Load(disk, s, im, bm);
    ImageNoFaults(first, s, im, bm);
    InvKeys(first, s);
    AllPointersIn(first, s, 8 * blkmap.Length);
    AllPointersIn(first, s, 8 * |bm|);
    es, errors, loop := Walk(disk[..], inodes[..], inodeMap[..], blockMap[..], blkmap, marks, TreeOf(s));
    SeenIs(first, s, es);
    AllData(s, es);
  }

  /** The two traversals agree on the inodes in use, unless the checker stops before it has seen them all. */
  method Agree(disk: array<Block>, ghost s: State, ghost im: seq<byte>, ghost bm: seq<byte>)
    returns (es: seq<Item>, loop: bool, found: set<nat>, verdict: Verdict)
    requires Reach(s, disk.Length / 8 * 8) && Shallow(s) && ImageOf(disk[..], s, im, bm)
    ensures !loop && DistinctItems(es) && InumsOf(es) == s.sh.trees.Keys
    ensures !verdict.AssertionError? && !verdict.DecodeError? ==> InumsOf(es) == found
  {
    hide ImageOf, InumsOf, Shallow, DecodeAll, SuperOf, Reach;
    var blkmap, errors;
    es, blkmap, errors, loop := ReadImage(disk, s, im, bm);
    verdict, found := Check(disk, s, im, bm);
  }
}
