/** fs_read: the same walk over the three tiers, copying bytes out. */
module Reading {
  import opened Bytes
  import opened Codec
  import opened FileTrees
  import opened Volumes
  import opened Writing
  import opened WriteSteps
  import opened FileWrite
  import opened Consistency
  import opened FileContents
  import opened Mounted

  /** Block b of a file with contents f. */
  ghost predicate Holding(f: seq<byte>, blk: Block, b: nat) {
    forall j :: 0 <= j < BLOCK_SIZE && BLOCK_SIZE * b + j < |f| ==> f[BLOCK_SIZE * b + j] == blk[j]
  }

  /** A reader that wants the bytes of f from the offset on: cnt of them are in buf, len are still wanted,
      offsetCnt bytes of the file were skipped. */
  ghost predicate Reader(f: seq<byte>, offset: nat, total: nat, buf: seq<byte>, buf0: seq<byte>, len: nat,
                         offsetCnt: nat, cnt: nat) {
    && offsetCnt <= offset && (offsetCnt < offset ==> cnt == 0)
    && cnt + len == total <= |buf0| == |buf| && offset + cnt <= |f|
    && buf == f[offset..offset + cnt] + buf0[cnt..]
  }

  /** Nothing more is to be read. */
  predicate Finished(size: nat, offset: nat, len: nat, cnt: nat) {
    offset + cnt >= size || len == 0
  }

  /** The copying loop over one block. */
  method CopyOut(data: array<byte>, buf: array<byte>, at: nat, len0: nat, offset: nat, size: nat, offsetCnt0: nat,
                 cnt0: nat, ghost b: nat, ghost f: seq<byte>, ghost buf0: seq<byte>, ghost total: nat)
    returns (len: nat, offsetCnt: nat, cnt: nat)
    requires data.Length == BLOCK_SIZE && data != buf && size == |f| && at == cnt0
    requires Holding(f, data[..], b) && Reader(f, offset, total, buf[..], buf0, len0, offsetCnt0, cnt0)
    requires offsetCnt0 + cnt0 == BLOCK_SIZE * b && offset + cnt0 < size
    modifies buf
    ensures Reader(f, offset, total, buf[..], buf0, len, offsetCnt, cnt)
    ensures !Finished(size, offset, len, cnt) ==> offsetCnt + cnt == BLOCK_SIZE * (b + 1)
  {
    ReaderParts(f, offset, total, buf[..], buf0, len0, offsetCnt0, cnt0);
    len, offsetCnt, cnt := len0, offsetCnt0, cnt0;
    var p := at;
    var j := 0;
    while j < BLOCK_SIZE
      invariant 0 <= j <= BLOCK_SIZE && p == cnt
      invariant Reader(f, offset, total, buf[..], buf0, len, offsetCnt, cnt)
      invariant offsetCnt + cnt == BLOCK_SIZE * b + j
    {
      ReaderParts(f, offset, total, buf[..], buf0, len, offsetCnt, cnt);
      if offsetCnt < offset {
        ReaderSkip(f, offset, total, buf[..], buf0, len, offsetCnt, cnt, 1);
        offsetCnt := offsetCnt + 1;
        j := j + 1;
        continue;
      }
      if offset + cnt >= size || len <= 0 { break; }
      buf[p] := data[j];
      p := p + 1;
      cnt := cnt + 1;
      len := len - 1;
      j := j + 1;
    }
  }

  lemma ReaderParts(f: seq<byte>, offset: nat, total: nat, buf: seq<byte>, buf0: seq<byte>, len: nat, offsetCnt: nat,
                    cnt: nat)
    requires Reader(f, offset, total, buf, buf0, len, offsetCnt, cnt)
    ensures offsetCnt <= offset && (offsetCnt < offset ==> cnt == 0)
    ensures cnt + len == total <= |buf0| == |buf| && offset + cnt <= |f|
  {
  }

  lemma ReaderStart(f: seq<byte>, offset: nat, total: nat, buf: seq<byte>)
    requires offset < |f| && total <= |buf|
    ensures Reader(f, offset, total, buf, buf, total, 0, 0)
  {
  }

  lemma ReaderDone(f: seq<byte>, offset: nat, total: nat, buf: seq<byte>, buf0: seq<byte>, len: nat, offsetCnt: nat,
                   cnt: nat)
    requires Reader(f, offset, total, buf, buf0, len, offsetCnt, cnt) && Finished(|f|, offset, len, cnt)
    ensures offset + cnt <= |f| && cnt <= |buf| && cnt == Min(total, |f| - offset)
    ensures buf == f[offset..offset + cnt] + buf0[cnt..]
  {
  }

  lemma ReaderSkip(f: seq<byte>, offset: nat, total: nat, buf: seq<byte>, buf0: seq<byte>, len: nat, offsetCnt: nat,
                   cnt: nat, n: nat)
    requires Reader(f, offset, total, buf, buf0, len, offsetCnt, cnt) && offsetCnt + n <= offset
    ensures Reader(f, offset, total, buf, buf0, len, offsetCnt + n, cnt)
  {
  }

  /** The pointers of region r that the file needs are there, and their blocks hold its bytes. */
  ghost predicate RegionHolds(f: seq<byte>, r: Region, a: seq<u32>, disk: seq<Block>) {
    forall k :: 0 <= k < |a| && BLOCK_SIZE * (First(r) + k) < |f| ==>
      0 < a[k] < |disk| && Holding(f, disk[a[k]], First(r) + k)
  }

  /** read_helper. */
  method ReadHelper(v: Volume, data: array<byte>, buf: array<byte>, at: nat, len0: nat, offset: nat, times: nat,
                    size: nat, offsetCnt0: nat, cnt0: nat, addr: array<u32>, ghost r: Region, ghost f: seq<byte>,
                    ghost buf0: seq<byte>, ghost total: nat)
    returns (len: nat, offsetCnt: nat, cnt: nat)
    requires data.Length == BLOCK_SIZE && data != buf && data as object != addr && addr as object != buf
    requires v.disk as object != buf
    requires data !in v.Arrays() && size == |f| && at == cnt0 && times == addr.Length
    requires RegionHolds(f, r, addr[..], v.disk[..]) && Reader(f, offset, total, buf[..], buf0, len0, offsetCnt0, cnt0)
    requires offsetCnt0 + cnt0 == BLOCK_SIZE * First(r) && offset + cnt0 < size
    modifies data, buf
    ensures Reader(f, offset, total, buf[..], buf0, len, offsetCnt, cnt)
    ensures !Finished(size, offset, len, cnt) ==> offsetCnt + cnt == BLOCK_SIZE * (First(r) + times)
  {
    hide Reader, Holding;
    len, offsetCnt, cnt := len0, offsetCnt0, cnt0;
    ReaderParts(f, offset, total, buf[..], buf0, len, offsetCnt, cnt);
    if offsetCnt + BLOCK_SIZE * times < offset {
      ReaderSkip(f, offset, total, buf[..], buf0, len, offsetCnt, cnt, BLOCK_SIZE * times);
      offsetCnt := offsetCnt + BLOCK_SIZE * times;
      return;
    }
    var p := at;
    var i := 0;
    while i < times
      invariant 0 <= i <= times && p == cnt
      invariant Reader(f, offset, total, buf[..], buf0, len, offsetCnt, cnt)
      invariant offsetCnt + cnt == BLOCK_SIZE * (First(r) + i) && offset + cnt < size
    {
      ReaderParts(f, offset, total, buf[..], buf0, len, offsetCnt, cnt);
      if offsetCnt + BLOCK_SIZE < offset {
        ReaderSkip(f, offset, total, buf[..], buf0, len, offsetCnt, cnt, BLOCK_SIZE);
        offsetCnt := offsetCnt + BLOCK_SIZE;
        i := i + 1;
        continue;
      }
      BlockRead(v, data, addr[i]);
      len, offsetCnt, cnt := CopyOut(data, buf, p, len, offset, size, offsetCnt, cnt, First(r) + i, f, buf0, total);
      p := cnt;
      if offset + cnt >= size || len <= 0 { break; }
      i := i + 1;
    }
  }

  // ---- the whole file ----------------------------------------------------------------------------

  /** A well-formed file with contents f. */
  ghost predicate Readable(i: nat, nd: Inode, t: Tree, c: nat, disk: seq<Block>, owner: Owner, f: seq<byte>) {
    && FileOk(i, nd, t, c, disk, owner) && f == FileData(nd, disk) && |f| == nd.size
    && 0 !in owner && forall p :: p in owner ==> p < |disk|
  }

  lemma ReadRegion(i: nat, nd: Inode, t: Tree, c: nat, disk: seq<Block>, owner: Owner, f: seq<byte>, r: Region)
    requires Readable(i, nd, t, c, disk, owner, f) && ValidRegion(r)
    ensures RegionHolds(f, r, Leaf(t, r), disk)
  {
    hide Stored, TreeExact, FileData, FileBytes, DataPtr;
    FileDataIsBytes(i, nd, t, c, disk, owner);
    assert Owned(i, r, Leaf(t, r), owner) && DenseRun(Leaf(t, r), First(r), c);
    forall k | 0 <= k < Size(r) && BLOCK_SIZE * (First(r) + k) < |f|
      ensures 0 < Leaf(t, r)[k] < |disk| && Holding(f, disk[Leaf(t, r)[k]], First(r) + k)
    {
      ReadBlock(nd, t, c, disk, f, r, k);
    }
  }

  lemma ReadBlock(nd: Inode, t: Tree, c: nat, disk: seq<Block>, f: seq<byte>, r: Region, k: nat)
    requires ValidRegion(r) && k < Size(r) && 0 <= nd.size <= BLOCK_SIZE * MAX_BLOCKS
    requires f == FileBytes(nd.size, t, disk)
    requires BLOCK_SIZE * (First(r) + k) < |f| && Leaf(t, r)[k] < |disk|
    ensures Holding(f, disk[Leaf(t, r)[k]], First(r) + k)
  {
    RegionUnique(r, k);
    assert DataPtr(t, First(r) + k) == Leaf(t, r)[k];
    hide DataPtr;
    forall j | 0 <= j < BLOCK_SIZE && BLOCK_SIZE * (First(r) + k) + j < |f|
      ensures f[BLOCK_SIZE * (First(r) + k) + j] == disk[Leaf(t, r)[k]][j]
    {
      var x := BLOCK_SIZE * (First(r) + k) + j;
      assert x / BLOCK_SIZE == First(r) + k && x % BLOCK_SIZE == j;
    }
  }

  /** A file that reaches past the direct blocks has an indirect block; past that, a double-indirect block and
      tables. */
  lemma ReadTables(i: nat, nd: Inode, t: Tree, c: nat, disk: seq<Block>, owner: Owner, f: seq<byte>)
    requires Readable(i, nd, t, c, disk, owner, f)
    ensures t.direct == nd.direct && |f| <= BLOCK_SIZE * MAX_BLOCKS
    ensures BLOCK_SIZE * 6 < |f| ==> 0 < nd.indir1 < |disk| && Ptrs(disk[nd.indir1]) == t.one
    ensures BLOCK_SIZE * 262 < |f| ==> 0 < nd.indir2 < |disk| && Ptrs(disk[nd.indir2]) == t.tabs
    ensures forall j :: 0 <= j < N_PTRS && BLOCK_SIZE * (262 + 256 * j) < |f| ==>
      0 < t.tabs[j] < |disk| && Ptrs(disk[t.tabs[j]]) == t.two[j]
  {
    hide FileData, Ptrs, Owned, TreeExact;
  }

  /** The loop of fs_read over the second-level tables. */
  method ReadDouble(v: Volume, data: array<byte>, buf: array<byte>, len0: nat, offset: nat, size: nat, offsetCnt0: nat,
                    cnt0: nat, indir1: array<u32>, inum: nat, ghost nd: Inode, ghost t: Tree, ghost c: nat,
                    ghost f: seq<byte>, ghost buf0: seq<byte>, ghost total: nat)
    returns (len: nat, offsetCnt: nat, cnt: nat)
    requires data.Length == BLOCK_SIZE && data != buf && data !in v.Arrays() && v.disk as object != buf
    requires v.inodes as object != buf
    requires indir1.Length == N_PTRS && indir1 !in v.Arrays() && indir1 as object != data && indir1 as object != buf
    requires inum < v.inodes.Length && v.inodes[inum] == nd && size == |f|
    requires Readable(inum, nd, t, c, v.disk[..], v.owner, f)
    requires Reader(f, offset, total, buf[..], buf0, len0, offsetCnt0, cnt0) && !Finished(size, offset, len0, cnt0)
    requires offsetCnt0 + cnt0 == BLOCK_SIZE * 262
    modifies data, buf, indir1
    ensures Reader(f, offset, total, buf[..], buf0, len, offsetCnt, cnt)
    ensures Finished(size, offset, len, cnt)
  {
    hide Reader, Readable, RegionHolds, Ptrs;
    ReadTables(inum, nd, t, c, v.disk[..], v.owner, f);
    len, offsetCnt, cnt := len0, offsetCnt0, cnt0;
    ReaderParts(f, offset, total, buf[..], buf0, len, offsetCnt, cnt);
    var indir2 := new u32[N_PTRS];
    ReadPtrs(v, indir2, v.inodes[inum].indir2);
    var i := 0;
    while i < N_PTRS
      invariant 0 <= i <= N_PTRS && indir2[..] == t.tabs
      invariant Reader(f, offset, total, buf[..], buf0, len, offsetCnt, cnt)
      invariant !Finished(size, offset, len, cnt) && offsetCnt + cnt == BLOCK_SIZE * First(Double(i))
    {
      ReaderParts(f, offset, total, buf[..], buf0, len, offsetCnt, cnt);
      if offsetCnt + 256 * BLOCK_SIZE < offset {
        ReaderSkip(f, offset, total, buf[..], buf0, len, offsetCnt, cnt, 256 * BLOCK_SIZE);
        offsetCnt := offsetCnt + 256 * BLOCK_SIZE;
        i := i + 1;
        continue;
      }
      ReadPtrs(v, indir1, indir2[i]);
      ReadRegion(inum, nd, t, c, v.disk[..], v.owner, f, Double(i));
      len, offsetCnt, cnt := ReadHelper(v, data, buf, cnt, len, offset, 256, size, offsetCnt, cnt, indir1, Double(i), f,
                                        buf0, total);
      if offset + cnt >= size || len <= 0 { break; }
      i := i + 1;
    }
    ReaderParts(f, offset, total, buf[..], buf0, len, offsetCnt, cnt);
  }

  /** The indirect block, and the double-indirect one if anything is left to read. */
  method ReadIndirect(v: Volume, data: array<byte>, buf: array<byte>, len0: nat, offset: nat, size: nat,
                      offsetCnt0: nat, cnt0: nat, inum: nat, ghost nd: Inode, ghost t: Tree, ghost c: nat,
                      ghost f: seq<byte>, ghost buf0: seq<byte>, ghost total: nat)
    returns (len: nat, offsetCnt: nat, cnt: nat)
    requires data.Length == BLOCK_SIZE && data != buf && data !in v.Arrays() && buf !in v.Arrays()
    requires inum < v.inodes.Length && v.inodes[inum] == nd && size == |f|
    requires Readable(inum, nd, t, c, v.disk[..], v.owner, f)
    requires Reader(f, offset, total, buf[..], buf0, len0, offsetCnt0, cnt0) && !Finished(size, offset, len0, cnt0)
    requires offsetCnt0 + cnt0 == BLOCK_SIZE * 6
    modifies data, buf
    ensures Reader(f, offset, total, buf[..], buf0, len, offsetCnt, cnt)
    ensures Finished(size, offset, len, cnt)
  {
    hide Reader, Readable, RegionHolds;
    ghost var disk, b0 := v.disk[..], buf[..];
    ReadTables(inum, nd, t, c, disk, v.owner, f);
    ReaderParts(f, offset, total, buf[..], buf0, len0, offsetCnt0, cnt0);
    var indir1 := new u32[N_PTRS];
    ReadPtrs(v, indir1, v.inodes[inum].indir1);
    assert v.disk[..] == disk && buf[..] == b0;
    ReadRegion(inum, nd, t, c, disk, v.owner, f, Single);
    len, offsetCnt, cnt := ReadHelper(v, data, buf, cnt0, len0, offset, 256, size, offsetCnt0, cnt0, indir1, Single, f,
                                      buf0, total);
    if offset + cnt < size && len > 0 {
      len, offsetCnt, cnt := ReadDouble(v, data, buf, len, offset, size, offsetCnt, cnt, indir1, inum, nd, t, c, f,
                                        buf0, total);
    }
  }

  /** The direct pointers of an inode. */
  method DirectOf(v: Volume, inum: nat) returns (direct: array<u32>)
    requires inum < v.inodes.Length
    ensures fresh(direct) && direct.Length == N_DIRECT && direct[..] == v.inodes[inum].direct
  {
    direct := new u32[N_DIRECT];
    forall k | 0 <= k < N_DIRECT { direct[k] := v.inodes[inum].direct[k]; }
  }

  lemma ReadTop(i: nat, nd: Inode, t: Tree, c: nat, disk: seq<Block>, owner: Owner, f: seq<byte>)
    requires Readable(i, nd, t, c, disk, owner, f)
    ensures t.direct == nd.direct
  {
    hide FileData, Ptrs;
  }

  /** The three tiers of fs_read, for an offset inside the file. */
  method ReadTiers(v: Volume, inum: nat, buf: array<byte>, len0: nat, offset: nat, size: nat,
                   ghost nd: Inode, ghost t: Tree, ghost c: nat, ghost f: seq<byte>)
    returns (cnt: nat)
    requires inum < v.inodes.Length && v.inodes[inum] == nd && size == |f| && offset < size
    requires len0 <= buf.Length && buf !in v.Arrays()
    requires Readable(inum, nd, t, c, v.disk[..], v.owner, f)
    modifies buf
    ensures offset + cnt <= size && cnt <= buf.Length && cnt == Min(len0, size - offset)
    ensures buf[..] == f[offset..offset + cnt] + old(buf[..])[cnt..]
  {
    hide Reader, Readable, RegionHolds;
    ghost var buf0, disk := buf[..], v.disk[..];
    ReadTop(inum, nd, t, c, disk, v.owner, f);
    ReaderStart(f, offset, len0, buf0);
    var len, offsetCnt;
    len, offsetCnt, cnt := len0, 0, 0;
    var data := new byte[BLOCK_SIZE];
    var direct := DirectOf(v, inum);
    assert v.disk[..] == disk && buf[..] == buf0;
    ReadRegion(inum, nd, t, c, disk, v.owner, f, Direct);
    len, offsetCnt, cnt := ReadHelper(v, data, buf, 0, len, offset, 6, size, offsetCnt, cnt, direct, Direct, f, buf0,
                                      len0);
    ReaderParts(f, offset, len0, buf[..], buf0, len, offsetCnt, cnt);
    if offset + cnt < size && len > 0 {
      len, offsetCnt, cnt := ReadIndirect(v, data, buf, len, offset, size, offsetCnt, cnt, inum, nd, t, c, f, buf0,
                                          len0);
    }
    ReaderDone(f, offset, len0, buf[..], buf0, len, offsetCnt, cnt);
  }

  /** The part of fs_read after path resolution: the bytes from the offset on, as many as there are and were asked for.
      No null pointer is followed (block_read is never called on block 0). */
  method ReadInode(v: Volume, inum: nat, buf: array<byte>, len: nat, offset: nat) returns (r: nat)
    requires Valid(v) && inum in v.shadow.trees && inum < v.inodes.Length && !IsDir(v.inodes[inum])
    requires len <= buf.Length && buf !in v.Arrays()
    modifies buf
    ensures |Contents(StateOf(v), inum)| == v.inodes[inum].size && r <= len
    ensures var f := Contents(StateOf(v), inum);
      if offset >= |f| then r == 0 else offset + r <= |f| && (r == len || offset + r == |f|)
    ensures forall k :: 0 <= k < r && offset + k < |Contents(StateOf(v), inum)| ==>
      buf[k] == Contents(StateOf(v), inum)[offset + k]
    ensures forall k :: r <= k < buf.Length ==> buf[k] == old(buf[k])
  {
    hide Valid, Inv, FileData, Readable, FromByte, SuperOf;
    ghost var s := StateOf(v);
    ghost var f, buf0 := Contents(s, inum), buf[..];
    ValidParts(v);
    ContentsSize(v.sb.First(), s, inum);
    var size := v.inodes[inum].size;
    if offset >= size {
      return 0;
    }
    InodeReadable(v.sb.First(), s, inum);
    r := ReadTiers(v, inum, buf, len, offset, size, v.inodes[inum], s.sh.trees[inum], ExtentOf(s, inum), f);
    assert StateOf(v) == s;
    CopiedAt(f, offset, r, buf0, buf[..]);
    assert forall k :: 0 <= k < buf.Length ==> buf[k] == buf[..][k] && old(buf[k]) == buf0[k];
  }

  lemma CopiedAt(f: seq<byte>, offset: nat, r: nat, buf0: seq<byte>, buf: seq<byte>)
    requires offset + r <= |f| && r <= |buf0| == |buf| && buf == f[offset..offset + r] + buf0[r..]
    ensures forall k :: 0 <= k < r ==> buf[k] == f[offset + k]
    ensures forall k :: r <= k < |buf| ==> buf[k] == buf0[k]
  {
  }

  ghost function ExtentOf(s: State, i: nat): nat {
    if i in s.sh.extent then s.sh.extent[i] else 0
  }

  lemma InodeReadable(first: nat, s: State, i: nat)
    requires Inv(first, s) && i in s.sh.trees
    ensures i < |s.inodes| && Readable(i, s.inodes[i], s.sh.trees[i], ExtentOf(s, i), s.disk, s.owner, Contents(s, i))
  {
    hide NamesOk, InodesOk, FileOk, FileData;
    assert FileOk(i, s.inodes[i], s.sh.trees[i], s.sh.extent[i], s.disk, s.owner);
    ContentsSize(first, s, i);
  }
}
