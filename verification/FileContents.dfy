/** The contents of a file as the checker reads them (file_data, file_blocks of fsck.hw3): a flat
    concatenation over the pointer blocks, and its agreement with the pointer tree. */
module FileContents {
  import opened Bytes
  import opened Codec
  import opened FileTrees
  import opened Consistency

  /** get_ptrs: the non-null pointers. */
  function NonNull(a: seq<u32>): seq<u32> {
    if a == [] then [] else (if a[0] == 0 then [] else [a[0]]) + NonNull(a[1..])
  }

  /** The pointers before the first null. */
  function BeforeNull(a: seq<u32>): seq<u32> {
    if a == [] || a[0] == 0 then [] else [a[0]] + BeforeNull(a[1..])
  }

  function ReadBlocks(disk: seq<Block>, ps: seq<u32>): seq<byte> {
    if ps == [] then [] else Blk(disk, ps[0]) + ReadBlocks(disk, ps[1..])
  }

  /** read_indir. */
  function ReadIndir(disk: seq<Block>, p: u32): seq<byte> {
    ReadBlocks(disk, NonNull(Table(disk, p)))
  }

  function ReadTables(disk: seq<Block>, ps: seq<u32>): seq<byte> {
    if ps == [] then [] else ReadIndir(disk, ps[0]) + ReadTables(disk, ps[1..])
  }

  function Take(s: seq<byte>, n: nat): seq<byte> { if n <= |s| then s[..n] else s }

  /** file_data: the direct blocks up to the first null, the indirect blocks, the double-indirect blocks,
      cut to the size, which is read as an unsigned number. */
  function FileData(nd: Inode, disk: seq<Block>): seq<byte> {
    var data := ReadBlocks(disk, BeforeNull(nd.direct))
                + (if nd.indir1 != 0 then ReadIndir(disk, nd.indir1) else [])
                + (if nd.indir2 != 0 then ReadTables(disk, NonNull(Table(disk, nd.indir2))) else []);
    Take(data, FromI32(nd.size))
  }

  // ---- agreement with the tree ----------------------------------------------------------------

  /** The pointers of the data blocks lo .. hi-1. */
  function Run(t: Tree, lo: nat, hi: nat): (a: seq<u32>)
    requires lo <= hi <= MAX_BLOCKS
    ensures |a| == hi - lo
  {
    seq<u32>(hi - lo, k requires 0 <= k < hi - lo => DataPtr(t, lo + k))
  }

  /** How much of a region of n pointers from block `first` a file of c blocks fills. */
  function Part(first: nat, n: nat, c: nat): nat {
    if c <= first then 0 else if c >= first + n then n else c - first
  }

  lemma {:induction false} NonNullDense(a: seq<u32>, first: nat, c: nat)
    requires DenseRun(a, first, c)
    ensures NonNull(a) == a[..Part(first, |a|, c)]
  {
    if a != [] {
      forall k | 0 <= k < |a| - 1
        ensures a[1..][k] != 0 <==> first + 1 + k < c
      {
        assert a[1..][k] == a[k + 1];
      }
      NonNullDense(a[1..], first + 1, c);
    }
  }

  lemma {:induction false} BeforeNullDense(a: seq<u32>, first: nat, c: nat)
    requires DenseRun(a, first, c)
    ensures BeforeNull(a) == a[..Part(first, |a|, c)]
  {
    if a != [] {
      forall k | 0 <= k < |a| - 1
        ensures a[1..][k] != 0 <==> first + 1 + k < c
      {
        assert a[1..][k] == a[k + 1];
      }
      BeforeNullDense(a[1..], first + 1, c);
    }
  }

  lemma {:induction false} ReadBlocksConcat(disk: seq<Block>, a: seq<u32>, b: seq<u32>)
    ensures ReadBlocks(disk, a + b) == ReadBlocks(disk, a) + ReadBlocks(disk, b)
  {
    if a == [] {
      assert a + b == b;
    } else {
      assert (a + b)[1..] == a[1..] + b;
      ReadBlocksConcat(disk, a[1..], b);
    }
  }

  lemma {:induction false} ReadBlocksLength(disk: seq<Block>, a: seq<u32>)
    ensures |ReadBlocks(disk, a)| == BLOCK_SIZE * |a|
  {
    if a != [] { ReadBlocksLength(disk, a[1..]); }
  }

  lemma {:induction false} ReadBlocksAt(disk: seq<Block>, a: seq<u32>, b: nat, j: nat)
    requires b < |a| && j < BLOCK_SIZE
    ensures BLOCK_SIZE * b + j < |ReadBlocks(disk, a)| && ReadBlocks(disk, a)[BLOCK_SIZE * b + j] == Blk(disk, a[b])[j]
  {
    ReadBlocksLength(disk, a);
    if b > 0 {
      ReadBlocksAt(disk, a[1..], b - 1, j);
      assert ReadBlocks(disk, a)[BLOCK_SIZE * b + j] == ReadBlocks(disk, a[1..])[BLOCK_SIZE * (b - 1) + j];
    }
  }

  /** The filled part of a region is a run of the file's blocks. */
  lemma RegionRun(t: Tree, r: Region, c: nat)
    requires ValidRegion(r) && c <= MAX_BLOCKS
    ensures First(r) + Part(First(r), Size(r), c) <= MAX_BLOCKS
    ensures Leaf(t, r)[..Part(First(r), Size(r), c)] == Run(t, First(r), First(r) + Part(First(r), Size(r), c))
  {
    hide RegionOf;
    var m := Part(First(r), Size(r), c);
    forall k | 0 <= k < m
      ensures First(r) + k < MAX_BLOCKS && Leaf(t, r)[k] == DataPtr(t, First(r) + k)
    {
      RegionUnique(r, k);
    }
  }

  lemma RunConcat(t: Tree, lo: nat, mid: nat, hi: nat)
    requires lo <= mid <= hi <= MAX_BLOCKS
    ensures Run(t, lo, mid) + Run(t, mid, hi) == Run(t, lo, hi)
  {
    hide DataPtr;
  }

  /** Reading table j reads its run of the file. */
  lemma ReadTableRun(t: Tree, c: nat, disk: seq<Block>, j: nat)
    requires Dense(t, c) && j < N_PTRS && t.two[j] == Table(disk, t.tabs[j])
    ensures First(Double(j)) + Part(First(Double(j)), 256, c) <= MAX_BLOCKS
    ensures ReadIndir(disk, t.tabs[j]) ==
      ReadBlocks(disk, Run(t, First(Double(j)), First(Double(j)) + Part(First(Double(j)), 256, c)))
  {
    hide Table, Run, ReadBlocks;
    assert DenseRun(Leaf(t, Double(j)), First(Double(j)), c);
    NonNullDense(t.two[j], First(Double(j)), c);
    RegionRun(t, Double(j), c);
  }

  /** Reading the tables from j on reads the file from their first block on. */
  lemma {:induction false} ReadTablesRun(t: Tree, c: nat, disk: seq<Block>, j: nat)
    requires Dense(t, c) && (forall k :: 0 <= k < N_PTRS ==> t.two[k] == Table(disk, t.tabs[k]))
    requires j <= N_PTRS && First(Double(j)) <= c
    ensures ReadTables(disk, NonNull(t.tabs[j..])) == ReadBlocks(disk, Run(t, First(Double(j)), c))
    decreases N_PTRS - j
  {
    hide Table, DataPtr, ReadIndir;
    var first := First(Double(j));
    if first == c {
      TabsEnd(t, c, j);
    } else {
      assert t.tabs[j..][1..] == t.tabs[j + 1..];
      assert NonNull(t.tabs[j..]) == [t.tabs[j]] + NonNull(t.tabs[j + 1..]);
      ReadTableRun(t, c, disk, j);
      var mid := first + Part(first, 256, c);
      if mid == first + 256 {
        ReadTablesRun(t, c, disk, j + 1);
      } else {
        TabsEnd(t, c, j + 1);
      }
      RunConcat(t, first, mid, c);
      ReadBlocksConcat(disk, Run(t, first, mid), Run(t, mid, c));
    }
  }

  lemma {:induction false} TabsEnd(t: Tree, c: nat, j: nat)
    requires Dense(t, c) && j <= N_PTRS && First(Double(j)) >= c
    ensures NonNull(t.tabs[j..]) == []
    decreases N_PTRS - j
  {
    if j < N_PTRS {
      assert t.tabs[j..][1..] == t.tabs[j + 1..];
      TabsEnd(t, c, j + 1);
    }
  }

  /** Reading the whole tree reads the data blocks in order. */
  lemma ReadWhole(t: Tree, c: nat, nd: Inode, disk: seq<Block>)
    requires Dense(t, c) && Stored(t, nd, disk) && nd.size >= 0
    ensures FileData(nd, disk) == Take(ReadBlocks(disk, Run(t, 0, c)), nd.size)
  {
    hide Table, DataPtr, Dense, Run, ReadBlocks, ReadTables, NonNull;
    var m, n := Part(0, 6, c), Part(6, 256, c);
    DenseBound(t, c);
    ReadDirect(t, c, disk);
    ReadSingle(t, c, nd, disk);
    ReadDouble(t, c, nd, disk);
    RunConcat(t, 0, m, m + n);
    ReadBlocksConcat(disk, Run(t, 0, m), Run(t, m, m + n));
    RunConcat(t, 0, m + n, c);
    ReadBlocksConcat(disk, Run(t, 0, m + n), Run(t, m + n, c));
  }

  lemma ReadDirect(t: Tree, c: nat, disk: seq<Block>)
    requires Dense(t, c)
    ensures BeforeNull(t.direct) == Run(t, 0, Part(0, 6, c))
  {
    assert DenseRun(Leaf(t, Direct), 0, c);
    BeforeNullDense(t.direct, 0, c);
    RegionRun(t, Direct, c);
  }

  lemma ReadSingle(t: Tree, c: nat, nd: Inode, disk: seq<Block>)
    requires Dense(t, c) && Stored(t, nd, disk)
    ensures (if nd.indir1 != 0 then ReadIndir(disk, nd.indir1) else []) ==
            ReadBlocks(disk, Run(t, Part(0, 6, c), Part(0, 6, c) + Part(6, 256, c)))
  {
    hide Table;
    assert DenseRun(Leaf(t, Single), 6, c);
    NonNullDense(t.one, 6, c);
    RegionRun(t, Single, c);
  }

  lemma ReadDouble(t: Tree, c: nat, nd: Inode, disk: seq<Block>)
    requires Dense(t, c) && Stored(t, nd, disk)
    ensures Part(0, 6, c) + Part(6, 256, c) <= c
    ensures (if nd.indir2 != 0 then ReadTables(disk, NonNull(Table(disk, nd.indir2))) else []) ==
            ReadBlocks(disk, Run(t, Part(0, 6, c) + Part(6, 256, c), c))
  {
    hide Table, Run;
    if nd.indir2 != 0 {
      assert t.tabs[0..] == t.tabs;
      ReadTablesRun(t, c, disk, 0);
    } else {
    }
  }

  /** What the checker reads as the contents of a file is what its tree holds. */
  lemma FileDataIsBytes(i: nat, nd: Inode, t: Tree, c: nat, disk: seq<Block>, owner: Owner)
    requires FileOk(i, nd, t, c, disk, owner)
    ensures c <= MAX_BLOCKS && FileData(nd, disk) == FileBytes(nd.size, t, disk)
  {
    hide Stored, TreeOwned, TreeExact, Dense, ReadBlocks, DataPtr, FileData;
    assert Dense(t, c);
    DenseBound(t, c);
    ReadWhole(t, c, nd, disk);
    var all := ReadBlocks(disk, Run(t, 0, c));
    ReadBlocksLength(disk, Run(t, 0, c));
    forall k | 0 <= k < nd.size
      ensures all[k] == Blk(disk, DataPtr(t, k / BLOCK_SIZE))[k % BLOCK_SIZE]
    {
      ReadBlocksAt(disk, Run(t, 0, c), k / BLOCK_SIZE, k % BLOCK_SIZE);
    }
  }
}
