/** How many blocks a file owns, and how many a write takes. */
module Accounting {
  import opened Bytes
  import opened Codec
  import opened FileTrees
  import opened Volumes
  import opened Writing
  import opened WriteSteps

  // ---- cardinalities ---------------------------------------------------------------------------------

  function Below(n: nat): (r: set<nat>)
    ensures forall p: nat :: p in r <==> p < n
  {
    if n == 0 then {} else Below(n - 1) + {n - 1}
  }

  lemma {:induction false} BelowCount(n: nat)
    ensures |Below(n)| == n
  {
    if n > 0 { BelowCount(n - 1); }
  }

  /** Distinct slots make for as many slots as blocks. */
  lemma {:induction false} ImageCount(owner: Owner, ps: set<nat>)
    requires ps <= owner.Keys
    requires forall p, q :: p in ps && q in ps && owner[p] == owner[q] ==> p == q
    ensures |set p | p in ps :: owner[p]| == |ps|
    decreases |ps|
  {
    if ps != {} {
      var p :| p in ps;
      ImageCount(owner, ps - {p});
      assert (set q | q in ps :: owner[q]) == (set q | q in ps - {p} :: owner[q]) + {owner[p]};
    } else {
      assert (set q | q in ps :: owner[q]) == {};
    }
  }

  // ---- the slots of a file of e data blocks ------------------------------------------------------------

  /** The slots that a file needs for its block b in addition to those for the blocks before. */
  function NewSlots(i: nat, b: nat): set<Slot> {
    {Data(i, RegionOf(b), b - First(RegionOf(b)))}
    + (if b == 6 then {Ind1(i)} else {}) + (if b == 262 then {Ind2(i)} else {})
    + (if b >= 262 && (b - 262) % 256 == 0 then {Tab(i, (b - 262) / 256)} else {})
  }

  /** The slots that a file of e data blocks needs. */
  function Slots(i: nat, e: nat): set<Slot> {
    if e == 0 then {} else Slots(i, e - 1) + NewSlots(i, e - 1)
  }

  lemma NewSlotsAre(i: nat, b: nat, s: Slot)
    requires b < MAX_BLOCKS
    ensures s in NewSlots(i, b) <==> Of(s, i) && ValidSlot(s) && Needs(b + 1, s) && !Needs(b, s)
  {
    if s.Data? && ValidSlot(s) && First(s.r) + s.k == b { RegionUnique(s.r, s.k); }
  }

  lemma {:induction false} SlotsAre(i: nat, e: nat, s: Slot)
    requires e <= MAX_BLOCKS
    ensures s in Slots(i, e) <==> Of(s, i) && ValidSlot(s) && Needs(e, s)
  {
    hide NewSlots;
    if e > 0 {
      SlotsAre(i, e - 1, s);
      NewSlotsAre(i, e - 1, s);
    }
  }

  /** The number of blocks of a file of e data blocks: the data, the indirect block, the double-indirect block and its
      tables. */
  function BlockCount(e: nat): nat {
    e + (if e > 6 then 1 else 0) + (if e > 262 then 1 + DivRoundUp(e - 262, 256) else 0)
  }

  lemma NewSlotsCount(i: nat, b: nat)
    ensures |NewSlots(i, b)| == BlockCount(b + 1) - BlockCount(b)
  {
    if b == 6 {
    } else if b > 262 {
      assert DivRoundUp(b + 1 - 262, 256) - DivRoundUp(b - 262, 256) == if (b - 262) % 256 == 0 then 1 else 0;
    }
  }

  lemma {:induction false} SlotsCount(i: nat, e: nat)
    requires e <= MAX_BLOCKS
    ensures |Slots(i, e)| == BlockCount(e)
  {
    hide NewSlots;
    if e > 0 {
      var b := e - 1;
      SlotsCount(i, b);
      NewSlotsCount(i, b);
      forall s | s in NewSlots(i, b) ensures s !in Slots(i, b) {
        NewSlotsAre(i, b, s);
        SlotsAre(i, b, s);
      }
    } else {
      assert BlockCount(0) == 0;
    }
  }

  // ---- the blocks of a file -------------------------------------------------------------------------------

  ghost function SlotSet(owner: Owner, i: nat): set<Slot> {
    set p | p in Footprint(owner, i) :: owner[p]
  }

  lemma SlotSetCount(owner: Owner, i: nat)
    requires OnePerSlot(i, owner)
    ensures |SlotSet(owner, i)| == |Footprint(owner, i)|
  {
    ImageCount(owner, Footprint(owner, i));
  }

  /** The pointer in slot s. */
  function PtrOf(t: Tree, s: Slot): u32
    requires ValidSlot(s)
  {
    match s
    case Data(_, r, k) => Leaf(t, r)[k]
    case Ind1(_) => t.ind1
    case Ind2(_) => t.ind2
    case Tab(_, j) => t.tabs[j]
  }

  /** The pointer blocks that a file of f data blocks has one block early. */
  function SpareSlots(i: nat, t: Tree, f: nat): set<Slot> {
    (if f == 6 && t.ind1 != 0 then {Ind1(i)} else {}) + (if f == 262 && t.ind2 != 0 then {Ind2(i)} else {})
    + (if EarlyTable(t, f) then {Tab(i, (f - 262) / 256)} else {})
  }

  predicate EarlyTable(t: Tree, f: nat) {
    262 <= f < MAX_BLOCKS && (f - 262) % 256 == 0 && t.tabs[(f - 262) / 256] != 0
  }

  function Spare(t: Tree, f: nat): nat {
    (if f == 6 && t.ind1 != 0 then 1 else 0) + (if f == 262 && t.ind2 != 0 then 1 else 0)
      + (if EarlyTable(t, f) then 1 else 0)
  }

  lemma FilledSlot(i: nat, t: Tree, owner: Owner, s: Slot)
    requires TreeOwned(i, t, owner) && TreeExact(i, t, owner) && 0 !in owner
    ensures s in SlotSet(owner, i) <==> Of(s, i) && ValidSlot(s) && PtrOf(t, s) != 0
  {
    if Of(s, i) && ValidSlot(s) && PtrOf(t, s) != 0 {
      if s.Data? { assert Owned(i, s.r, Leaf(t, s.r), owner); }
      assert PtrOf(t, s) in Footprint(owner, i);
    }
    if s in SlotSet(owner, i) {
      var p :| p in Footprint(owner, i) && owner[p] == s;
      assert Hangs(t, owner[p], p);
    }
  }

  lemma UptoSlot(i: nat, t: Tree, f: nat, s: Slot)
    requires Upto(t, f) && Of(s, i) && ValidSlot(s)
    ensures PtrOf(t, s) != 0 <==> Needs(f, s) || s in SpareSlots(i, t, f)
    ensures !(Needs(f, s) && s in SpareSlots(i, t, f))
  {
    if s.Data? { assert DenseRun(Leaf(t, s.r), First(s.r), f); }
  }

  /** The slots of a file whose data blocks end at block f. */
  lemma SlotSetIs(i: nat, t: Tree, f: nat, owner: Owner)
    requires TreeOwned(i, t, owner) && TreeExact(i, t, owner) && Upto(t, f) && 0 !in owner
    ensures f <= MAX_BLOCKS && SlotSet(owner, i) == Slots(i, f) + SpareSlots(i, t, f)
    ensures Slots(i, f) !! SpareSlots(i, t, f)
  {
    hide Slots, TreeOwned, TreeExact, SlotSet, Needs, PtrOf, DenseLeaves;
    forall s: Slot
      ensures s in SlotSet(owner, i) <==> s in Slots(i, f) + SpareSlots(i, t, f)
      ensures !(s in Slots(i, f) && s in SpareSlots(i, t, f))
    {
      SlotsAre(i, f, s);
      FilledSlot(i, t, owner, s);
      if Of(s, i) && ValidSlot(s) { UptoSlot(i, t, f, s); } else {}
    }
  }

  /** The number of blocks of a file whose data blocks end at block f. */
  lemma FootprintCount(i: nat, t: Tree, f: nat, owner: Owner)
    requires TreeOwned(i, t, owner) && TreeExact(i, t, owner) && Upto(t, f) && 0 !in owner
    ensures |Footprint(owner, i)| == BlockCount(f) + Spare(t, f)
  {
    hide TreeOwned, TreeExact, Upto, Slots, BlockCount, Footprint, SlotSet, OnePerSlot;
    ExactOnePerSlot(i, t, owner);
    SlotSetIs(i, t, f, owner);
    SlotSetCount(owner, i);
    SlotsCount(i, f);
    assert |SpareSlots(i, t, f)| == Spare(t, f);
  }

  /** A file without spare pointer blocks. */
  lemma NoSpare(i: nat, t: Tree, c: nat)
    requires Dense(t, c) && Tight(t, c)
    ensures Upto(t, c) && SpareSlots(i, t, c) == {} && Spare(t, c) == 0
  {
    hide DenseRun;
    DenseUpto(t, c);
  }

  // ---- what a write takes ----------------------------------------------------------------------------------

  lemma PartCount(a: set<nat>, b: set<nat>)
    requires b <= a
    ensures |a - b| == |a| - |b|
  {
    assert a == (a - b) + b;
  }

  /** Blocks have been taken for file i only. */
  lemma TakenCount(first: nat, disk: seq<Block>, used: set<nat>, owner: Owner, disk': seq<Block>, used': set<nat>,
                   owner': Owner, i: nat)
    requires BlocksOk(first, disk, used, owner) && BlocksOk(first, disk', used', owner')
    requires forall p :: p in owner ==> p in owner' && owner'[p] == owner[p]
    requires forall p :: p in owner' && p !in owner ==> Of(owner'[p], i)
    ensures |used'| - |used| == |Footprint(owner', i)| - |Footprint(owner, i)|
  {
    OthersSame(first, disk, used, owner, disk', used', owner', i);
    PartCount(used, Footprint(owner, i));
    PartCount(used', Footprint(owner', i));
  }

  lemma OthersSame(first: nat, disk: seq<Block>, used: set<nat>, owner: Owner, disk': seq<Block>, used': set<nat>,
                   owner': Owner, i: nat)
    requires BlocksOk(first, disk, used, owner) && BlocksOk(first, disk', used', owner')
    requires forall p :: p in owner ==> p in owner' && owner'[p] == owner[p]
    requires forall p :: p in owner' && p !in owner ==> Of(owner'[p], i)
    ensures Footprint(owner, i) <= used && Footprint(owner', i) <= used'
    ensures used' - Footprint(owner', i) == used - Footprint(owner, i)
  {
    hide ZeroBlock;
  }

  /** A write that goes through takes pointer blocks only with the data blocks that need them. */
  lemma SpareAfter(w: Request, owner: Owner, t: Tree)
    requires Handed(w, owner) && TreeOwned(w.ino, t, owner) && TreeExact(w.ino, w.t, w.owner) && TreeKeeps(w.t, t)
    requires Dense(w.t, w.c) && Dense(t, Reach(w, MAX_BLOCKS))
    ensures Spare(t, Reach(w, MAX_BLOCKS)) == if Reach(w, MAX_BLOCKS) == w.c then Spare(w.t, w.c) else 0
    ensures Tight(w.t, w.c) ==> Tight(t, Reach(w, MAX_BLOCKS))
  {
    hide Wanted, Owned, DenseRun, Keeps;
    assert t.ind1 != 0 && t.ind1 as nat in w.owner ==> Hangs(w.t, w.owner[t.ind1], t.ind1);
    assert t.ind2 != 0 && t.ind2 as nat in w.owner ==> Hangs(w.t, w.owner[t.ind2], t.ind2);
  }

  // ---- what a write loses ----------------------------------------------------------------------------------

  /** Of the n blocks of a file that had c data blocks when a write found the disk full, so many can be reached from
      the disk. */
  function Kept(c: nat, n: nat): nat {
    if n <= 7 then n
    else if n < 263 then Max(c, 6) + 1
    else if c <= 262 then Min(n, 264)
    else if n < BlockCount(TableEnd(c)) then BlockCount(c)
    else BlockCount(TableEnd(c))
  }

  lemma BlockCountMonotone(a: nat, b: nat)
    requires a < b
    ensures BlockCount(a) < BlockCount(b)
  {
  }

  lemma EarlyBound(t: Tree, f: nat)
    requires f < MAX_BLOCKS
    ensures BlockCount(f) + Spare(t, f) < BlockCount(f + 1)
  {
    if f > 262 {
      assert DivRoundUp(f + 1 - 262, 256) - DivRoundUp(f - 262, 256) == if (f - 262) % 256 == 0 then 1 else 0;
    }
  }

  lemma KeptIs(c: nat, f: nat, t: Tree, td: Tree)
    requires Upto(t, f) && c <= f < MAX_BLOCKS && Dense(td, Landing(c, f)) && td.ind1 == t.ind1 && td.ind2 == t.ind2
    ensures BlockCount(Landing(c, f)) + Spare(td, Landing(c, f)) == Kept(c, BlockCount(f) + Spare(t, f))
  {
    hide DenseRun, DenseLeaves;
    EarlyBound(t, f);
    if f > 262 { BlockCountMonotone(262, f); }
    if c > 262 {
      var e := TableEnd(c);
      if f < e {
        if f + 1 < e { BlockCountMonotone(f + 1, e); }
      } else if e < f {
        BlockCountMonotone(e, f);
      }
    }
  }

  lemma {:induction false} FewerThan<T>(a: set<T>, b: set<T>)
    requires a <= b
    ensures |a| <= |b|
    decreases |a|
  {
    if a != {} {
      var x :| x in a;
      FewerThan(a - {x}, b - {x});
    }
  }
}
