/** What the metadata regions of a disk record. */
module Metadata {
  import opened Bytes
  import opened Bitmaps
  import opened Codec
  import opened Volumes
  import opened Consistency
  import opened Mounted

  /** What the blocks from base on hold is determined. */
  lemma BytesDetermined(disk: seq<Block>, base: nat, n: nat, a: seq<byte>, b: seq<byte>)
    requires |a| == |b| == n * BLOCK_SIZE && base + n <= |disk| && HoldsBytes(disk, base, a)
    requires HoldsBytes(disk, base, b)
    ensures a == b
  {
    forall i | 0 <= i < |a|
      ensures a[i] == b[i]
    {
      var k, r := i / BLOCK_SIZE, i % BLOCK_SIZE;
      assert disk[base + k] == a[BLOCK_SIZE * k..BLOCK_SIZE * (k + 1)] == b[BLOCK_SIZE * k..BLOCK_SIZE * (k + 1)];
      assert a[i] == a[BLOCK_SIZE * k..BLOCK_SIZE * (k + 1)][r] && b[i] == b[BLOCK_SIZE * k..BLOCK_SIZE * (k + 1)][r];
    }
  }

  lemma InodesDetermined(disk: seq<Block>, base: nat, n: nat, a: seq<Inode>, b: seq<Inode>)
    requires |a| == |b| == 16 * n && base + n <= |disk| && HoldsInodes(disk, base, a) && HoldsInodes(disk, base, b)
    ensures a == b
  {
    hide InodesIn;
    forall i | 0 <= i < |a|
      ensures a[i] == b[i]
    {
      var k, r := i / 16, i % 16;
      assert InodesIn(disk[base + k]) == a[16 * k..16 * (k + 1)] == b[16 * k..16 * (k + 1)];
      assert a[i] == a[16 * k..16 * (k + 1)][r] && b[i] == b[16 * k..16 * (k + 1)][r];
    }
  }

  /** A disk determines the maps and inodes that a mount finds on it. */
  lemma HoldsDetermined(sb: Super, disk: seq<Block>, im: seq<byte>, bm: seq<byte>, inodes: seq<Inode>,
                        im': seq<byte>, bm': seq<byte>, inodes': seq<Inode>)
    requires Holds(sb, disk, im, bm, inodes) && Holds(sb, disk, im', bm', inodes')
    ensures im' == im && bm' == bm && inodes' == inodes
  {
    hide HoldsBytes, HoldsInodes;
    BytesDetermined(disk, 1, sb.inodeMapSz, im, im');
    BytesDetermined(disk, 1 + sb.inodeMapSz, sb.blockMapSz, bm, bm');
    InodesDetermined(disk, 1 + sb.inodeMapSz + sb.blockMapSz, sb.inodeRegionSz, inodes, inodes');
  }

  // ---- the state that a disk records --------------------------------------------------------------------------

  /** The metadata regions of the disk hold the bitmaps and the inode table of state s. */
  ghost predicate Records(sb: Super, disk: seq<Block>, s: State) {
    exists im: seq<byte>, bm: seq<byte> :: RecordedBy(sb, disk, s, im, bm)
  }

  ghost predicate RecordedBy(sb: Super, disk: seq<Block>, s: State, im: seq<byte>, bm: seq<byte>) {
    Holds(sb, disk, im, bm, s.inodes) && StandsFor(im, s.live) && StandsFor(bm, s.used)
  }

  /** A remount would find what is in memory exactly if the disk records the state. */
  lemma SyncedRecords(v: Volume)
    requires v.MapsOk()
    ensures v.Synced() <==> Records(v.sb, v.disk[..], StateOf(v))
  {
    hide StandsFor, HoldsBytes, HoldsInodes;
    var s := StateOf(v);
    if v.Synced() { assert RecordedBy(v.sb, v.disk[..], s, v.inodeMap[..], v.blockMap[..]); }
    if im: seq<byte>, bm: seq<byte> :| RecordedBy(v.sb, v.disk[..], s, im, bm) {
      MapDetermined(v.inodeMap[..], im, v.live);
      MapDetermined(v.blockMap[..], bm, v.used);
    }
  }

  /** A disk records one inode table and two sets. */
  lemma RecordsUnique(sb: Super, disk: seq<Block>, s: State, t: State)
    requires Records(sb, disk, s) && Records(sb, disk, t)
    ensures t.inodes == s.inodes && t.live == s.live && t.used == s.used
  {
    hide StandsFor, Holds;
    var im, bm :| RecordedBy(sb, disk, s, im, bm);
    var im', bm' :| RecordedBy(sb, disk, t, im', bm');
    HoldsDetermined(sb, disk, im, bm, s.inodes, im', bm', t.inodes);
    StandsForUnique(im, s.live, t.live);
    StandsForUnique(bm, s.used, t.used);
  }

  /** Only the metadata regions matter. */
  lemma RecordsKept(sb: Super, disk: seq<Block>, s: State, disk': seq<Block>, t: State)
    requires Records(sb, disk, s) && SameBelow(sb.First(), disk, disk')
    requires t.inodes == s.inodes && t.live == s.live && t.used == s.used
    ensures Records(sb, disk', t)
  {
    hide StandsFor, InodesIn;
    var im, bm :| RecordedBy(sb, disk, s, im, bm);
    assert RecordedBy(sb, disk', t, im, bm);
  }
}
