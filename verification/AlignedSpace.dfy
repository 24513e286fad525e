/** Over a power-of-two alignment every block starts on the grid of its multiples, even when the size of
    the space is off that grid: the odd end is then part of the last free block, which is never handed
    out whole. */
module AlignedSpace {
  import opened Basics
  import opened AddressSpace
  import opened Alignment
  import opened LazyAllocators

  predicate OnGrid(x: int, align: nat)
    requires align > 0
  {
    x % align == 0
  }

  ghost predicate StartsOnGrid(free: seq<Block>, align: nat)
    requires align > 0
  {
    forall j :: 0 <= j < |free| ==> OnGrid(free[j].start, align)
  }

  /** The last free block reaches the end of the space. */
  predicate TailFree(sp: Space) { sp.free != [] && End(sp.free[|sp.free| - 1]) == sp.size }

  ghost predicate GridOk(sp: Space, live: set<Block>)
  {
    && sp.align > 0 && StartsOnGrid(sp.free, sp.align)
    && (forall b :: b in live ==> OnGrid(b.start, sp.align) && OnGrid(b.size, sp.align))
    && (OnGrid(sp.size, sp.align) || TailFree(sp))
  }

  lemma GridAdd(x: nat, y: nat, align: nat)
    requires align > 0 && OnGrid(x, align)
    ensures OnGrid(x + y, align) <==> OnGrid(y, align)
    ensures (x + y) % align == y % align
  {
    ModAdd(x, y, align);
  }

  lemma NewGridOk(size: nat, align: nat)
    requires align > 0
    ensures GridOk(NewSpace(size, align), {})
  {
    ModUnique(0, align, 0, 0);
  }

  lemma GridBelow(x: nat, y: nat, align: nat)
    requires align > 0 && OnGrid(x, align) && x <= y
    ensures x <= y - y % align
  {
    DivModOf(x, align);
    DivModOf(y, align);
    var q, r := x / align, y / align;
    if q > r { MulMono(r + 1, q, align); }
    MulMono(q, r, align);
  }

  /** The live blocks end on the grid, so not past the last multiple of the alignment. */
  lemma LiveEnds(sp: Space, live: set<Block>, b: Block)
    requires SpaceOk(sp, live) && GridOk(sp, live) && b in live
    ensures End(b) <= sp.size - sp.size % sp.align
  {
    assert End(b) <= sp.size;
    hide SpaceOk, OnGrid, StartsOnGrid, TailFree;
    GridAdd(b.start, b.size, sp.align);
    GridBelow(End(b), sp.size, sp.align);
  }

  lemma TakeGridOk(sp: Space, raw: nat, live: set<Block>)
    requires SpaceOk(sp, live) && GridOk(sp, live) && Aligned(sp, raw) > 0 && OnGrid(Aligned(sp, raw), sp.align)
    requires Allocate(sp, raw).Some?
    ensures GridOk(Allocate(sp, raw).value.0, live + {Allocate(sp, raw).value.1})
  {
    assert Coalesced(sp.free);
    hide Allocate, FirstFit, Aligned, SpaceOk, OnGrid, GridOk, Coalesced, Carve;
    AllocateShape(sp, raw);
    CarveGridOk(sp, live, FirstFit(sp.free, Aligned(sp, raw)), Aligned(sp, raw), Allocate(sp, raw).value.0);
  }

  lemma CarveGridOk(sp: Space, live: set<Block>, i: nat, n: nat, sp': Space)
    requires GridOk(sp, live) && i < |sp.free| && 0 < n <= sp.free[i].size && OnGrid(n, sp.align)
    requires sp'.free == Carve(sp.free, i, n) && sp'.size == sp.size && sp'.align == sp.align
    ensures GridOk(sp', live + {Block(sp.free[i].start, n)})
  {
    hide OnGrid, Carve;
    GridAdd(sp.free[i].start, n, sp.align);
    CarveStarts(sp.free, i, n, sp.align);
    if !OnGrid(sp.size, sp.align) { CarveTail(sp, i, n); }
  }

  lemma CarveStarts(free: seq<Block>, i: nat, n: nat, align: nat)
    requires align > 0 && StartsOnGrid(free, align) && i < |free| && 0 < n <= free[i].size
    requires OnGrid(free[i].start + n, align)
    ensures StartsOnGrid(Carve(free, i, n), align)
  {
    hide OnGrid;
    forall j | 0 <= j < |Carve(free, i, n)| ensures OnGrid(Carve(free, i, n)[j].start, align) {
      if free[i].size == n {
        assert Carve(free, i, n)[j] == free[if j < i then j else j + 1];
      } else if j != i {
        assert Carve(free, i, n)[j] == free[j];
      }
    }
  }

  lemma CarveTail(sp: Space, i: nat, n: nat)
    requires sp.align > 0 && TailFree(sp) && !OnGrid(sp.size, sp.align) && i < |sp.free| && 0 < n <= sp.free[i].size
    requires OnGrid(sp.free[i].start + n, sp.align)
    ensures TailFree(sp.(free := Carve(sp.free, i, n)))
  {
    hide OnGrid;
    var last := |sp.free| - 1;
    if i < last { assert sp.free[i].size == n ==> Carve(sp.free, i, n)[last - 1] == sp.free[last]; }
  }

  /** Giving a block on the grid to the free list keeps the starts on the grid. */
  lemma CoalesceStarts(free: seq<Block>, b: Block, i: nat, align: nat)
    requires align > 0 && StartsOnGrid(free, align) && Coalesced(free) && FitsAt(free, b, i)
    requires MergedLow(free, b, i) < i || OnGrid(b.start, align)
    ensures StartsOnGrid(Coalesce(free, b, i), align)
  {
    CoalesceShape(free, b, i);
    hide Coalesced, FitsAt, Coalesce, OnGrid;
    var lo, hi, free' := MergedLow(free, b, i), MergedHigh(free, b, i), Coalesce(free, b, i);
    assert OnGrid(Merged(free, b, i).start, align);
    hide Merged, MergedLow, MergedHigh;
    forall j | 0 <= j < |free'| ensures OnGrid(free'[j].start, align) {
      if j < lo { assert free'[j] == free[j]; } else if j > lo { assert free'[j] == free[j - lo - 1 + hi]; }
    }
  }

  /** A block in front of the last free one leaves the tail where it is. */
  lemma ReleaseTail(sp: Space, b: Block, i: nat)
    requires Coalesced(sp.free) && FitsAt(sp.free, b, i) && TailFree(sp) && End(b) <= sp.size
    ensures Coalesce(sp.free, b, i) != [] && End(Coalesce(sp.free, b, i)[|Coalesce(sp.free, b, i)| - 1]) == sp.size
  {
    var last := |sp.free| - 1;
    assert i <= last && End(b) <= sp.free[i].start;
    CoalesceShape(sp.free, b, i);
    MergedGaps(sp.free, b, i);
    hide Coalesced, FitsAt, Coalesce, Merged, MergedLow, Inside;
    var hi, free' := MergedHigh(sp.free, b, i), Coalesce(sp.free, b, i);
    if hi <= last {
      assert free'[|free'| - 1] == sp.free[hi..][last - hi];
    } else {
      assert free'[|free'| - 1] == Merged(sp.free, b, i);
    }
  }

  lemma GiveBackGridOk(sp: Space, live: set<Block>, b: Block)
    requires SpaceOk(sp, live) && GridOk(sp, live) && b in live
    ensures GridOk(Release(sp, b), live - {b})
  {
    hide SpaceOk, Coalesce, LowerBound, OnGrid, StartsOnGrid, Coalesced, FitsAt, MergedLow;
    LiveFits(sp, live, b);
    LiveBounds(sp, live, b);
    var i := LowerBound(sp.free, b.start);
    CoalesceStarts(sp.free, b, i, sp.align);
    if TailFree(sp) { ReleaseTail(sp, b, i); }
  }

  lemma LiveBounds(sp: Space, live: set<Block>, b: Block)
    requires SpaceOk(sp, live) && b in live
    ensures Coalesced(sp.free) && End(b) <= sp.size
  {
    hide Coalesced;
  }

  lemma GrowGridOk(sp: Space, live: set<Block>, raw: nat)
    requires SpaceOk(sp, live) && GridOk(sp, live) && Aligned(sp, raw) > 0 && OnGrid(Aligned(sp, raw), sp.align)
    ensures GridOk(Grow(sp, raw), live)
    ensures Grow(sp, raw).size % sp.align == sp.size % sp.align
  {
    var n := Aligned(sp, raw);
    var b, i := Block(sp.size, n), |sp.free|;
    assert FitsAt(sp.free, b, i);
    GridAdd(n, sp.size, sp.align);
    CoalesceShape(sp.free, b, i);
    MergedGaps(sp.free, b, i);
    CoalesceStarts(sp.free, b, i, sp.align);
    hide Coalesce, Aligned, OnGrid, StartsOnGrid, Apart, Covers, FreeTotal, Coalesced, FitsAt;
    var free' := Grow(sp, raw).free;
    assert free'[|free'| - 1] == Merged(sp.free, b, i);
  }
}
