/** The byte bitmaps of the allocators, and the finite sets they stand for. */
module Bitmaps {
  import opened Bytes

  /** 1 << (i % 8), as a byte. */
  function Mask(i: nat): byte {
    (1 as bv8) << (i % 8)
  }

  /** Is bit i of the map set? */
  predicate Bit(m: seq<byte>, i: nat)
    requires i < 8 * |m|
  {
    m[i / 8] & Mask(i) != 0
  }

  /** The bitmap m has exactly the bits of s set. */
  ghost predicate StandsFor(m: seq<byte>, s: set<nat>) {
    && (forall i :: i in s ==> i < 8 * |m|)
    && (forall i: nat {:trigger Bit(m, i)} :: i < 8 * |m| ==> (Bit(m, i) <==> i in s))
  }

  // ---- single bytes ----------------------------------------------------------

  lemma SetByte(b: byte, i: nat, j: nat)
    ensures (b | Mask(i)) & Mask(j) != 0 <==> i % 8 == j % 8 || b & Mask(j) != 0
  {
    var k, l := i % 8, j % 8;
    if k == l { MaskNonzero(i); } else { MasksDiffer(i, j); }
  }

  lemma ClearByte(b: byte, i: nat, j: nat)
    ensures (b & !Mask(i)) & Mask(j) != 0 <==> i % 8 != j % 8 && b & Mask(j) != 0
  {
    if i % 8 == j % 8 {} else { MasksDiffer(i, j); }
  }

  lemma MaskTable(i: nat)
    ensures Mask(i) == [1, 2, 4, 8, 16, 32, 64, 128][i % 8]
  {
    var k := i % 8;
    if k == 0 {} else if k == 1 {} else if k == 2 {} else if k == 3 {}
    else if k == 4 {} else if k == 5 {} else if k == 6 {} else {}
  }

  lemma MaskNonzero(i: nat)
    ensures Mask(i) != 0
  {
    MaskTable(i);
  }

  lemma MasksDiffer(i: nat, j: nat)
    requires i % 8 != j % 8
    ensures Mask(i) & Mask(j) == 0
  {
    MaskTable(i);
    MaskTable(j);
  }
  // ---- the three bitmap functions ---------------------------------------------

  lemma SetIsAdd(m: seq<byte>, i: nat, s: set<nat>)
    requires i < 8 * |m| && StandsFor(m, s)
    ensures StandsFor(m[i / 8 := m[i / 8] | Mask(i)], s + {i})
  {
    var m' := m[i / 8 := m[i / 8] | Mask(i)];
    forall j: nat | j < 8 * |m|
      ensures Bit(m', j) <==> j in s + {i}
    {
      assert Bit(m, j) <==> j in s;
      if i / 8 == j / 8 { SetByte(m[i / 8], i, j); }
    }
  }

  lemma ClearIsRemove(m: seq<byte>, i: nat, s: set<nat>)
    requires i < 8 * |m| && StandsFor(m, s)
    ensures StandsFor(m[i / 8 := m[i / 8] & !Mask(i)], s - {i})
  {
    var m' := m[i / 8 := m[i / 8] & !Mask(i)];
    forall j: nat | j < 8 * |m|
      ensures Bit(m', j) <==> j in s - {i}
    {
      assert Bit(m, j) <==> j in s;
      if i / 8 == j / 8 { ClearByte(m[i / 8], i, j); }
    }
  }

  method BitSet(m: array<byte>, i: nat, ghost s: set<nat>)
    requires i < 8 * m.Length
    requires StandsFor(m[..], s)
    modifies m
    ensures StandsFor(m[..], s + {i})
  {
    SetIsAdd(m[..], i, s);
    m[i / 8] := m[i / 8] | Mask(i);
    assert m[..] == old(m[..])[i / 8 := old(m[..])[i / 8] | Mask(i)];
  }

  method BitClear(m: array<byte>, i: nat, ghost s: set<nat>)
    requires i < 8 * m.Length
    requires StandsFor(m[..], s)
    modifies m
    ensures StandsFor(m[..], s - {i})
  {
    ClearIsRemove(m[..], i, s);
    m[i / 8] := m[i / 8] & !Mask(i);
    assert m[..] == old(m[..])[i / 8 := old(m[..])[i / 8] & !Mask(i)];
  }

  method BitTest(m: array<byte>, i: nat, ghost s: set<nat>) returns (r: bool)
    requires i < 8 * m.Length && StandsFor(m[..], s)
    ensures r <==> i in s
  {
    r := m[i / 8] & Mask(i) != 0;
    assert r <==> Bit(m[..], i);
  }

  /** An all-zero map stands for the empty set. */
  lemma ZeroMapIsEmpty(m: seq<byte>)
    requires forall i :: 0 <= i < |m| ==> m[i] == 0
    ensures StandsFor(m, {})
  {
  }

  /** A bitmap determines its set. */
  lemma StandsForUnique(m: seq<byte>, s: set<nat>, t: set<nat>)
    requires StandsFor(m, s) && StandsFor(m, t)
    ensures s == t
  {
    forall i: nat
      ensures i in s <==> i in t
    {
      if i < 8 * |m| { assert Bit(m, i) <==> i in s; }
    }
  }

  /** The bits of a byte determine it. */
  lemma BitsDetermine(a: byte, b: byte)
    requires forall i: nat :: i < 8 ==> (a & Mask(i) != 0 <==> b & Mask(i) != 0)
    ensures a == b
  {
    forall i: nat | i < 8
      ensures Mask(i) == [1, 2, 4, 8, 16, 32, 64, 128][i] && (a & Mask(i) != 0 <==> b & Mask(i) != 0)
    {
      MaskTable(i);
    }
    assert Mask(0) == 1 && Mask(1) == 2 && Mask(2) == 4 && Mask(3) == 8 && Mask(4) == 16 && Mask(5) == 32;
    assert Mask(6) == 64 && Mask(7) == 128;
  }

  /** A set determines its bitmap. */
  lemma MapDetermined(m: seq<byte>, m': seq<byte>, s: set<nat>)
    requires StandsFor(m, s) && StandsFor(m', s) && |m| == |m'|
    ensures m == m'
  {
    forall k | 0 <= k < |m|
      ensures m[k] == m'[k]
    {
      forall i: nat | i < 8
        ensures m[k] & Mask(i) != 0 <==> m'[k] & Mask(i) != 0
      {
        assert Bit(m, 8 * k + i) <==> Bit(m', 8 * k + i);
        assert Mask(8 * k + i) == Mask(i);
      }
      BitsDetermine(m[k], m'[k]);
    }
  }
}
