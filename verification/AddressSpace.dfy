/** The address manager: a sorted list of free blocks over a growing address space, with first-fit
    allocation and coalescing.  `live` lists the blocks handed out and not yet freed. */
module AddressSpace {
  import opened Basics
  import Alignment

  datatype Block = Block(start: nat, size: nat)

  function End(b: Block): nat { b.start + b.size }

  /** The manager's fields; `inUse` is its running total. */
  datatype Space = Space(size: nat, align: nat, free: seq<Block>, inUse: int)

  /** compute_aligned_size. */
  function Aligned(sp: Space, raw: nat): int { Alignment.AlignTo(raw, sp.align) }

  /** The first block with room for n. */
  function FirstFit(free: seq<Block>, n: int): (i: nat)
    ensures i <= |free|
    ensures i < |free| ==> free[i].size >= n
    ensures forall j :: 0 <= j < i ==> free[j].size < n
  {
    if free == [] || free[0].size >= n then 0 else 1 + FirstFit(free[1..], n)
  }

  /** bisect_left by start address. */
  function LowerBound(free: seq<Block>, x: nat): (i: nat)
    ensures i <= |free|
    ensures i < |free| ==> free[i].start >= x
    ensures forall j :: 0 <= j < i ==> free[j].start < x
  {
    if free == [] || free[0].start >= x then 0 else 1 + LowerBound(free[1..], x)
  }

  /** SortedList.add, for a start address not yet in the list. */
  function Insert(free: seq<Block>, b: Block): seq<Block>
  {
    var i := LowerBound(free, b.start);
    free[..i] + [b] + free[i..]
  }

  function Remove(free: seq<Block>, i: nat): seq<Block>
    requires i < |free|
  {
    free[..i] + free[i + 1..]
  }

  function NewSpace(size: nat, align: nat): Space { Space(size, align, [Block(0, size)], 0) }

  function Allocate(sp: Space, raw: nat): Option<(Space, Block)>
  {
    var n := Aligned(sp, raw);
    var i := FirstFit(sp.free, n);
    if n < 0 || i == |sp.free| then None
    else
      var b := sp.free[i];
      var rest := Remove(sp.free, i);
      var free := if b.size > n then Insert(rest, Block(b.start + n, b.size - n)) else rest;
      Some((sp.(free := free, inUse := sp.inUse + n), Block(b.start, n)))
  }

  /** _coalesce of a new free block into its neighbours, or its insertion when neither touches it. */
  function Coalesce(free: seq<Block>, b: Block, i: nat): seq<Block>
    requires i <= |free|
  {
    var mergePrev := i > 0 && End(free[i - 1]) == b.start;
    var mergeNext := i < |free| && End(b) == free[i].start;
    if mergePrev && mergeNext then
      free[..i - 1] + [Block(free[i - 1].start, free[i - 1].size + b.size + free[i].size)] + free[i + 1..]
    else if mergePrev then
      free[i - 1 := Block(free[i - 1].start, free[i - 1].size + b.size)]
    else if mergeNext then
      Insert(Remove(free, i), Block(b.start, b.size + free[i].size))
    else Insert(free, b)
  }

  function Release(sp: Space, b: Block): Space
  {
    sp.(free := Coalesce(sp.free, b, LowerBound(sp.free, b.start)), inUse := sp.inUse - b.size)
  }

  /** sbrk: the new block has only a left neighbour. */
  function Grow(sp: Space, raw: nat): Space
  {
    var n := Aligned(sp, raw);
    if n < 0 then sp else sp.(free := Coalesce(sp.free, Block(sp.size, n), |sp.free|), size := sp.size + n)
  }

  // ---- the invariant ----

  /** Sorted, with a gap between neighbours: nothing left to coalesce. */
  ghost predicate Coalesced(free: seq<Block>)
  {
    forall i, j :: 0 <= i < j < |free| ==> End(free[i]) < free[j].start
  }

  ghost predicate Disjoint(a: Block, b: Block) { End(a) <= b.start || End(b) <= a.start }

  predicate Inside(b: Block, x: nat) { b.start <= x < End(b) }

  ghost predicate IsFree(sp: Space, x: nat) { exists i :: 0 <= i < |sp.free| && Inside(sp.free[i], x) }

  ghost predicate IsLive(live: set<Block>, x: nat) { exists b :: b in live && Inside(b, x) }

  function FreeTotal(free: seq<Block>): nat
  {
    if free == [] then 0 else free[0].size + FreeTotal(free[1..])
  }

  ghost predicate FreeOk(sp: Space)
  {
    && Coalesced(sp.free)
    && (forall i :: 0 <= i < |sp.free| ==> End(sp.free[i]) <= sp.size)
    && (sp.size > 0 ==> forall i :: 0 <= i < |sp.free| ==> sp.free[i].size > 0)
    && (sp.size == 0 ==> sp.free == [Block(0, 0)])
  }

  ghost predicate LiveOk(size: nat, live: set<Block>)
  {
    && (forall b :: b in live ==> b.size > 0 && End(b) <= size)
    && (forall a, b :: a in live && b in live && a != b ==> Disjoint(a, b))
  }

  ghost predicate Apart(free: seq<Block>, live: set<Block>)
  {
    forall b, i :: b in live && 0 <= i < |free| ==> Disjoint(b, free[i])
  }

  ghost predicate Covers(sp: Space, live: set<Block>)
  {
    forall x: nat :: x < sp.size ==> IsFree(sp, x) || IsLive(live, x)
  }

  /** The free list is coalesced, no two blocks overlap whether free or live, every address below
      the size is free or live, and the totals balance. */
  ghost predicate SpaceOk(sp: Space, live: set<Block>)
  {
    && FreeOk(sp) && LiveOk(sp.size, live) && Apart(sp.free, live) && Covers(sp, live)
    && FreeTotal(sp.free) + sp.inUse == sp.size
  }

  lemma {:induction false} FreeTotalConcat(a: seq<Block>, b: seq<Block>)
    ensures FreeTotal(a + b) == FreeTotal(a) + FreeTotal(b)
  {
    if a == [] {
      assert a + b == b;
    } else {
      assert (a + b)[1..] == a[1..] + b;
      FreeTotalConcat(a[1..], b);
    }
  }

  lemma FreeTotalAt(free: seq<Block>, i: nat)
    requires i < |free|
    ensures FreeTotal(free) == FreeTotal(free[..i]) + free[i].size + FreeTotal(free[i + 1..])
  {
    assert free == free[..i] + free[i..] && free[i..] == [free[i]] + free[i + 1..];
    FreeTotalConcat(free[..i], free[i..]);
  }

  lemma LowerBoundIs(free: seq<Block>, x: nat, i: nat)
    requires i <= |free| && (forall j :: 0 <= j < i ==> free[j].start < x) && (i < |free| ==> free[i].start >= x)
    ensures LowerBound(free, x) == i
  {
    hide LowerBound;
    var k := LowerBound(free, x);
    assert k < |free| ==> free[k].start >= x;
    assert i < |free| ==> free[i].start >= x;
  }

  lemma NewSpaceOk(size: nat, align: nat)
    ensures SpaceOk(NewSpace(size, align), {})
  {
    hide FreeTotal;
    FreeTotalOne(Block(0, size));
    var sp := NewSpace(size, align);
    forall x: nat | x < size ensures IsFree(sp, x) { assert Inside(sp.free[0], x); }
  }

  /** First fit, as a list edit: block i loses its first n bytes, or vanishes. */
  lemma AllocateShape(sp: Space, raw: nat)
    requires Coalesced(sp.free) && Allocate(sp, raw).Some?
    ensures var n := Aligned(sp, raw); var i := FirstFit(sp.free, n); var r := Allocate(sp, raw).value;
            && n >= 0 && i < |sp.free|
            && r.1 == Block(sp.free[i].start, n) && r.0.size == sp.size && r.0.align == sp.align && r.0.inUse == sp.inUse + n
            && r.0.free == Carve(sp.free, i, n)
  {
    hide FirstFit, LowerBound, Aligned;
    var n := Aligned(sp, raw);
    var i := FirstFit(sp.free, n);
    var b := sp.free[i];
    if b.size > n { InsertAt(sp.free, i, Block(b.start + n, b.size - n)); }
  }

  /** Putting back a block that starts inside block i puts it in block i's place. */
  lemma InsertAt(free: seq<Block>, i: nat, b: Block)
    requires Coalesced(free) && i < |free| && free[i].start <= b.start <= End(free[i])
    ensures Insert(Remove(free, i), b) == free[i := b]
  {
    hide LowerBound;
    var rest := Remove(free, i);
    forall j | 0 <= j < i ensures rest[j].start < b.start { assert End(free[j]) < free[i].start; }
    assert i < |rest| ==> rest[i] == free[i + 1] && End(free[i]) < free[i + 1].start;
    LowerBoundIs(rest, b.start, i);
  }

  /** Allocation fails exactly when no free block has room; otherwise the block it returns was
      free, is live afterwards, and the invariant is kept. */
  lemma AllocateOk(sp: Space, raw: nat, live: set<Block>)
    requires SpaceOk(sp, live) && Aligned(sp, raw) > 0
    ensures Allocate(sp, raw).None? <==> forall i :: 0 <= i < |sp.free| ==> sp.free[i].size < Aligned(sp, raw)
    ensures Allocate(sp, raw).Some? ==>
              && Allocate(sp, raw).value.1 !in live
              && Allocate(sp, raw).value.1.size == Aligned(sp, raw)
              && SpaceOk(Allocate(sp, raw).value.0, live + {Allocate(sp, raw).value.1})
  {
    if Allocate(sp, raw).Some? {
      AllocateShape(sp, raw);
      var n := Aligned(sp, raw);
      var i := FirstFit(sp.free, n);
      hide Allocate, FirstFit, Aligned;
      CarveOk(sp, live, i, n, Allocate(sp, raw).value.0);
    }
  }

  function Carve(free: seq<Block>, i: nat, n: nat): seq<Block>
    requires i < |free| && n <= free[i].size
  {
    if free[i].size > n then free[i := Block(free[i].start + n, free[i].size - n)] else Remove(free, i)
  }

  /** Where an entry of the carved list comes from. */
  lemma CarveEntry(free: seq<Block>, i: nat, n: nat, j: nat)
    requires i < |free| && 0 < n <= free[i].size && j < |Carve(free, i, n)|
    ensures var k := if free[i].size > n || j < i then j else j + 1;
            && k < |free| && free[k].start <= Carve(free, i, n)[j].start && End(Carve(free, i, n)[j]) == End(free[k])
            && (free[k].size > 0 ==> Carve(free, i, n)[j].size > 0)
            && (k == i ==> Carve(free, i, n)[j].start == free[i].start + n)
  {}

  lemma CarveOk(sp: Space, live: set<Block>, i: nat, n: nat, sp': Space)
    requires SpaceOk(sp, live) && i < |sp.free| && 0 < n <= sp.free[i].size
    requires sp' == sp.(free := Carve(sp.free, i, n), inUse := sp.inUse + n)
    ensures Block(sp.free[i].start, n) !in live
    ensures SpaceOk(sp', live + {Block(sp.free[i].start, n)})
  {
    var taken := Block(sp.free[i].start, n);
    var live' := live + {taken};
    assert taken in live ==> Disjoint(taken, sp.free[i]);
    CarveTotals(sp.free, i, n);
    CarveFreeOk(sp, i, n);
    CarveApart(sp, live, i, n);
    assert LiveOk(sp.size, live') by {
      hide Coalesced, Covers;
      assert forall b :: b in live ==> Disjoint(b, sp.free[i]);
    }
    forall x: nat | x < sp.size ensures IsFree(sp', x) || IsLive(live', x) {
      hide FreeOk, LiveOk, Apart, IsFree, IsLive;
      CarveCovers(sp, live, i, n, sp', x);
    }
  }

  lemma CarveFreeOk(sp: Space, i: nat, n: nat)
    requires FreeOk(sp) && i < |sp.free| && 0 < n <= sp.free[i].size
    ensures FreeOk(sp.(free := Carve(sp.free, i, n)))
  {
    var free' := Carve(sp.free, i, n);
    forall j | 0 <= j < |free'| ensures End(free'[j]) <= sp.size && free'[j].size > 0 { CarveEntry(sp.free, i, n, j); }
    forall j, k | 0 <= j < k < |free'| ensures End(free'[j]) < free'[k].start {
      CarveEntry(sp.free, i, n, j);
      CarveEntry(sp.free, i, n, k);
    }
  }

  lemma CarveApart(sp: Space, live: set<Block>, i: nat, n: nat)
    requires FreeOk(sp) && Apart(sp.free, live) && i < |sp.free| && 0 < n <= sp.free[i].size
    ensures Apart(Carve(sp.free, i, n), live + {Block(sp.free[i].start, n)})
  {
    var taken := Block(sp.free[i].start, n);
    var free' := Carve(sp.free, i, n);
    forall b, j | b in live + {taken} && 0 <= j < |free'| ensures Disjoint(b, free'[j]) {
      CarveEntry(sp.free, i, n, j);
      var k := if sp.free[i].size > n || j < i then j else j + 1;
      assert b in live ==> Disjoint(b, sp.free[k]);
      assert k < i ==> End(sp.free[k]) < sp.free[i].start;
      assert i < k ==> End(sp.free[i]) < sp.free[k].start;
    }
  }

  lemma CarveTotals(free: seq<Block>, i: nat, n: nat)
    requires i < |free| && n <= free[i].size
    ensures FreeTotal(Carve(free, i, n)) == FreeTotal(free) - n
  {
    FreeTotalAt(free, i);
    var free' := free[i := Block(free[i].start + n, free[i].size - n)];
    FreeTotalAt(free', i);
    assert free'[..i] == free[..i] && free'[i + 1..] == free[i + 1..];
    FreeTotalConcat(free[..i], free[i + 1..]);
  }

  lemma CarveCovers(sp: Space, live: set<Block>, i: nat, n: nat, sp': Space, x: nat)
    requires i < |sp.free| && 0 < n <= sp.free[i].size
    requires sp'.free == Carve(sp.free, i, n)
    requires IsFree(sp, x) || IsLive(live, x)
    ensures IsFree(sp', x) || IsLive(live + {Block(sp.free[i].start, n)}, x)
  {
    var taken := Block(sp.free[i].start, n);
    if Inside(taken, x) {
      assert taken in live + {taken};
    } else if IsFree(sp, x) {
      var j :| 0 <= j < |sp.free| && Inside(sp.free[j], x);
      var k := if sp.free[i].size > n || j <= i then j else j - 1;
      assert 0 <= k < |sp'.free| && Inside(sp'.free[k], x);
    } else {
      var b :| b in live && Inside(b, x);
      assert b in live + {taken};
    }
  }

  // ---- freeing and growing ----

  /** Block b fits between entries i - 1 and i. */
  ghost predicate FitsAt(free: seq<Block>, b: Block, i: nat)
  {
    && i <= |free| && b.size > 0
    && (forall j :: 0 <= j < i ==> End(free[j]) <= b.start)
    && (forall j :: i <= j < |free| ==> End(b) <= free[j].start)
  }

  function MergedLow(free: seq<Block>, b: Block, i: nat): nat
    requires i <= |free|
  {
    if i > 0 && End(free[i - 1]) == b.start then i - 1 else i
  }

  function MergedHigh(free: seq<Block>, b: Block, i: nat): nat
    requires i <= |free|
  {
    if i < |free| && End(b) == free[i].start then i + 1 else i
  }

  /** b with the neighbours it touches. */
  function Merged(free: seq<Block>, b: Block, i: nat): Block
    requires i <= |free|
  {
    var prev := if i > 0 && End(free[i - 1]) == b.start then free[i - 1].size else 0;
    var next := if i < |free| && End(b) == free[i].start then free[i].size else 0;
    Block(if i > 0 && End(free[i - 1]) == b.start then free[i - 1].start else b.start, prev + b.size + next)
  }

  /** Coalescing replaces the touching neighbours by one block that spans them and b. */
  lemma CoalesceShape(free: seq<Block>, b: Block, i: nat)
    requires Coalesced(free) && FitsAt(free, b, i)
    ensures Coalesce(free, b, i) == free[..MergedLow(free, b, i)] + [Merged(free, b, i)] + free[MergedHigh(free, b, i)..]
  {
    hide LowerBound, Coalesced, Insert, Remove;
    if MergedLow(free, b, i) == i {
      StartsBelow(free, b, i);
      hide FitsAt;
      if MergedHigh(free, b, i) == i + 1 {
        InsertAfterRemove(free, Block(b.start, b.size + free[i].size), i);
      } else {
        InsertHere(free, b, i);
      }
    }
  }

  lemma InsertAfterRemove(free: seq<Block>, b: Block, i: nat)
    requires i < |free| && (forall j :: 0 <= j < i ==> free[j].start < b.start)
    requires i < |free| - 1 ==> free[i + 1].start >= b.start
    ensures Insert(Remove(free, i), b) == free[..i] + [b] + free[i + 1..]
  {
    hide Insert;
    var rest := Remove(free, i);
    InsertHere(rest, b, i);
    assert rest[..i] == free[..i] && rest[i..] == free[i + 1..];
  }

  lemma InsertHere(free: seq<Block>, b: Block, i: nat)
    requires i <= |free| && (forall j :: 0 <= j < i ==> free[j].start < b.start) && (i < |free| ==> free[i].start >= b.start)
    ensures Insert(free, b) == free[..i] + [b] + free[i..]
  {
    LowerBoundIs(free, b.start, i);
  }

  lemma StartsBelow(free: seq<Block>, b: Block, i: nat)
    requires Coalesced(free) && FitsAt(free, b, i) && MergedLow(free, b, i) == i
    ensures forall j :: 0 <= j < i ==> free[j].start < b.start
    ensures i < |free| ==> free[i].start >= b.start
    ensures i < |free| - 1 ==> free[i + 1].start >= b.start
  {
    forall j | 0 <= j < i ensures free[j].start < b.start {
      if j < i - 1 { assert End(free[j]) < free[i - 1].start; }
      assert End(free[i - 1]) <= b.start;
    }
    assert i < |free| - 1 ==> End(b) <= free[i + 1].start;
  }

  /** The edge blocks of a coalesced list: strictly apart from the merged block. */
  lemma MergedGaps(free: seq<Block>, b: Block, i: nat)
    requires Coalesced(free) && FitsAt(free, b, i)
    ensures forall j :: 0 <= j < MergedLow(free, b, i) ==> End(free[j]) < Merged(free, b, i).start
    ensures forall j :: MergedHigh(free, b, i) <= j < |free| ==> End(Merged(free, b, i)) < free[j].start
    ensures forall x: nat :: Inside(Merged(free, b, i), x) <==>
              Inside(b, x) || (MergedLow(free, b, i) < i && Inside(free[i - 1], x)) || (i < MergedHigh(free, b, i) && Inside(free[i], x))
    ensures End(Merged(free, b, i)) == if i < MergedHigh(free, b, i) then End(free[i]) else End(b)
    ensures Merged(free, b, i).size > 0
  {
    forall j | 0 <= j < MergedLow(free, b, i) ensures End(free[j]) < Merged(free, b, i).start {
      if j < i - 1 { assert End(free[j]) < free[i - 1].start; }
    }
    forall j | MergedHigh(free, b, i) <= j < |free| ensures End(Merged(free, b, i)) < free[j].start {
      if j > i { assert End(free[i]) < free[j].start; }
      assert End(b) <= free[j].start;
    }
  }

  lemma SplicedFreeOk(free: seq<Block>, m: Block, lo: nat, hi: nat)
    requires Coalesced(free) && lo <= hi <= |free|
    requires forall j :: 0 <= j < lo ==> End(free[j]) < m.start
    requires forall j :: hi <= j < |free| ==> End(m) < free[j].start
    ensures Coalesced(free[..lo] + [m] + free[hi..])
    ensures FreeTotal(free[..lo] + [m] + free[hi..]) == FreeTotal(free[..lo]) + m.size + FreeTotal(free[hi..])
  {
    var r := free[..lo] + [m] + free[hi..];
    forall j, k | 0 <= j < k < |r| ensures End(r[j]) < r[k].start {
      var j' := if j < lo then j else j - lo - 1 + hi;
      var k' := if k < lo then k else k - lo - 1 + hi;
      if j != lo && k != lo { assert r[j] == free[j'] && r[k] == free[k']; }
    }
    FreeTotalConcat(free[..lo] + [m], free[hi..]);
    FreeTotalConcat(free[..lo], [m]);
    assert FreeTotal([m]) == m.size + FreeTotal([m][1..]);
  }

  lemma FreeTotalOne(b: Block)
    ensures FreeTotal([b]) == b.size
  {
    assert [b][1..] == [];
  }

  /** The totals of free[..lo] and free[..i] differ by the block between them. */
  lemma FreeTotalSplit(free: seq<Block>, lo: nat, i: nat)
    requires lo <= i <= |free|
    ensures FreeTotal(free[lo..]) == FreeTotal(free[lo..i]) + FreeTotal(free[i..])
    ensures FreeTotal(free[..i]) == FreeTotal(free[..lo]) + FreeTotal(free[lo..i])
  {
    hide FreeTotal;
    FreeTotalConcat(free[lo..i], free[i..]);
    FreeTotalConcat(free[..lo], free[lo..i]);
    assert free[lo..] == free[lo..i] + free[i..] && free[..i] == free[..lo] + free[lo..i];
  }

  lemma MergedTotal(free: seq<Block>, b: Block, i: nat)
    requires i <= |free|
    ensures FreeTotal(free[..MergedLow(free, b, i)]) + Merged(free, b, i).size + FreeTotal(free[MergedHigh(free, b, i)..])
            == FreeTotal(free) + b.size
  {
    var lo, hi := MergedLow(free, b, i), MergedHigh(free, b, i);
    FreeTotalSplit(free, 0, i);
    FreeTotalSplit(free, lo, i);
    FreeTotalSplit(free, i, hi);
    assert free[0..] == free && free[0..i] == free[..i];
    if lo < i { FreeTotalOne(free[lo]); assert free[lo..i] == [free[lo]]; }
    if i < hi { FreeTotalOne(free[i]); assert free[i..hi] == [free[i]]; }
  }

  /** Giving block b to the free list: the invariant is kept when b leaves the live blocks, or is
      new address space at the end. */
  lemma CoalesceOk(sp: Space, live: set<Block>, b: Block, i: nat, sp': Space, live': set<Block>)
    requires FreeOk(sp) && Apart(sp.free, live) && FitsAt(sp.free, b, i) && (sp.size == 0 ==> b.start == 0)
    requires FreeTotal(sp.free) + b.size + sp'.inUse == sp'.size
    requires sp'.free == Coalesce(sp.free, b, i) && sp.size <= sp'.size && End(b) <= sp'.size
    requires LiveOk(sp'.size, live') && live' <= live && b !in live' && forall c :: c in live' ==> Disjoint(c, b)
    requires forall x: nat :: x < sp'.size ==> IsFree(sp, x) || IsLive(live', x) || Inside(b, x)
    ensures SpaceOk(sp', live')
  {
    var lo, hi, m := MergedLow(sp.free, b, i), MergedHigh(sp.free, b, i), Merged(sp.free, b, i);
    CoalesceShape(sp.free, b, i);
    MergedGaps(sp.free, b, i);
    MergedTotal(sp.free, b, i);
    SplicedApart(sp.free, live', b, i, sp'.free);
    MergedEnd(sp, b, i, sp'.size);
    hide Coalesce, FreeTotal, Merged, MergedLow, MergedHigh, FitsAt, Apart, LiveOk, IsLive, IsFree, Inside, Disjoint;
    forall x: nat | x < sp'.size ensures IsFree(sp', x) || IsLive(live', x) {
      if IsFree(sp, x) || Inside(b, x) { SplicedCovers(sp, b, i, sp', x); }
    }
    SplicedOk(sp, lo, hi, m, sp', live');
  }

  lemma SplicedOk(sp: Space, lo: nat, hi: nat, m: Block, sp': Space, live: set<Block>)
    requires FreeOk(sp) && sp.size <= sp'.size && lo <= hi <= |sp.free|
    requires m.size > 0 && End(m) <= sp'.size && (sp.size == 0 ==> lo == 0 && hi == |sp.free|)
    requires forall j :: 0 <= j < lo ==> End(sp.free[j]) < m.start
    requires forall j :: hi <= j < |sp.free| ==> End(m) < sp.free[j].start
    requires sp'.free == sp.free[..lo] + [m] + sp.free[hi..]
    requires FreeTotal(sp.free[..lo]) + m.size + FreeTotal(sp.free[hi..]) + sp'.inUse == sp'.size
    requires LiveOk(sp'.size, live) && Apart(sp'.free, live) && Covers(sp', live)
    ensures SpaceOk(sp', live)
  {
    hide LiveOk, Apart, Covers, FreeTotal;
    SplicedBounds(sp, lo, hi, m, sp');
    SplicedFreeOk(sp.free, m, lo, hi);
  }

  lemma MergedEnd(sp: Space, b: Block, i: nat, size: nat)
    requires FreeOk(sp) && FitsAt(sp.free, b, i) && sp.size <= size && End(b) <= size && (sp.size == 0 ==> b.start == 0)
    ensures MergedLow(sp.free, b, i) <= i <= MergedHigh(sp.free, b, i) <= |sp.free|
    ensures End(Merged(sp.free, b, i)) <= size
    ensures sp.size == 0 ==> MergedLow(sp.free, b, i) == 0 && MergedHigh(sp.free, b, i) == |sp.free|
  {
    hide Coalesced;
    if sp.size == 0 { assert sp.free[0] == Block(0, 0) && i == 1; }
  }

  lemma SplicedBounds(sp: Space, lo: nat, hi: nat, m: Block, sp': Space)
    requires FreeOk(sp) && sp.size <= sp'.size && lo <= hi <= |sp.free|
    requires m.size > 0 && End(m) <= sp'.size && (sp.size == 0 ==> lo == 0 && hi == |sp.free|)
    requires sp'.free == sp.free[..lo] + [m] + sp.free[hi..]
    ensures sp'.size > 0 && forall j :: 0 <= j < |sp'.free| ==> End(sp'.free[j]) <= sp'.size && sp'.free[j].size > 0
  {
    hide Coalesced;
    forall j | 0 <= j < |sp'.free| ensures End(sp'.free[j]) <= sp'.size && sp'.free[j].size > 0 {
      if j < lo { assert sp'.free[j] == sp.free[j]; } else if j > lo { assert sp'.free[j] == sp.free[j - lo - 1 + hi]; }
    }
  }

  lemma SplicedApart(free: seq<Block>, live: set<Block>, b: Block, i: nat, free': seq<Block>)
    requires Coalesced(free) && FitsAt(free, b, i) && Apart(free, live) && forall c :: c in live ==> Disjoint(c, b) && c.size > 0
    requires free' == free[..MergedLow(free, b, i)] + [Merged(free, b, i)] + free[MergedHigh(free, b, i)..]
    ensures Apart(free', live)
  {
    var lo, hi := MergedLow(free, b, i), MergedHigh(free, b, i);
    forall c, j | c in live && 0 <= j < |free'| ensures Disjoint(c, free'[j]) {
      if j < lo {
        assert Disjoint(c, free[j]);
      } else if j > lo {
        assert Disjoint(c, free[j - lo - 1 + hi]);
      } else {
        assert lo < i ==> Disjoint(c, free[i - 1]);
        assert i < hi ==> Disjoint(c, free[i]);
      }
    }
  }

  lemma SplicedCovers(sp: Space, b: Block, i: nat, sp': Space, x: nat)
    requires Coalesced(sp.free) && FitsAt(sp.free, b, i) && (IsFree(sp, x) || Inside(b, x))
    requires sp'.free == sp.free[..MergedLow(sp.free, b, i)] + [Merged(sp.free, b, i)] + sp.free[MergedHigh(sp.free, b, i)..]
    ensures IsFree(sp', x)
  {
    var lo, hi := MergedLow(sp.free, b, i), MergedHigh(sp.free, b, i);
    MergedGaps(sp.free, b, i);
    if Inside(b, x) {
      assert Inside(sp'.free[lo], x);
    } else {
      var j :| 0 <= j < |sp.free| && Inside(sp.free[j], x);
      var k := if j < lo then j else if j >= hi then j - hi + lo + 1 else lo;
      assert Inside(sp'.free[k], x);
    }
  }

  /** A live block lies between the free blocks whose starts are below and above its own. */
  lemma LiveFits(sp: Space, live: set<Block>, b: Block)
    requires SpaceOk(sp, live) && b in live
    ensures FitsAt(sp.free, b, LowerBound(sp.free, b.start))
  {
    hide LowerBound;
    var i := LowerBound(sp.free, b.start);
    assert sp.size > 0;
    forall j | 0 <= j < i ensures End(sp.free[j]) <= b.start { assert Disjoint(b, sp.free[j]); }
    forall j | i <= j < |sp.free| ensures End(b) <= sp.free[j].start {
      assert Disjoint(b, sp.free[j]);
      assert i < j ==> End(sp.free[i]) < sp.free[j].start;
    }
  }

  /** Freeing a live block gives exactly its addresses back and keeps the invariant. */
  lemma ReleaseOk(sp: Space, live: set<Block>, b: Block)
    requires SpaceOk(sp, live) && b in live
    ensures SpaceOk(Release(sp, b), live - {b})
  {
    LiveFits(sp, live, b);
    var sp', live' := Release(sp, b), live - {b};
    forall x: nat | x < sp.size ensures IsFree(sp, x) || IsLive(live', x) || Inside(b, x) {
      if IsLive(live, x) && !Inside(b, x) {
        var c :| c in live && Inside(c, x);
        assert c in live';
      }
    }
    hide LowerBound, Coalesce;
    CoalesceOk(sp, live, b, LowerBound(sp.free, b.start), sp', live');
  }

  /** sbrk makes the new addresses free and keeps everything else. */
  lemma GrowOk(sp: Space, live: set<Block>, raw: nat)
    requires SpaceOk(sp, live) && Aligned(sp, raw) > 0
    ensures SpaceOk(Grow(sp, raw), live) && Grow(sp, raw).size == sp.size + Aligned(sp, raw)
  {
    var sp', b := Grow(sp, raw), Block(sp.size, Aligned(sp, raw));
    hide Coalesce, Aligned;
    CoalesceOk(sp, live, b, |sp.free|, sp', live);
  }
}
