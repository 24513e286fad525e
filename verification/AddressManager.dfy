/** The address manager as the object it is: its free list and totals change in place.  Each method
    is tied to the function on values that AddressSpace proves the invariant about. */
module AddressManagers {
  import opened Basics
  import opened AddressSpace

  class AddressManager {
    const align: nat
    var size: nat
    var free: seq<Block>
    var inUse: int
    /** The blocks handed out and not yet given back. */
    ghost var live: set<Block>

    ghost function View(): Space
      reads this
    {
      Space(size, align, free, inUse)
    }

    ghost predicate Valid()
      reads this
    {
      align > 0 && SpaceOk(View(), live)
    }

    constructor (size: nat, align: nat)
      requires align > 0
      ensures Valid() && live == {} && this.align == align && View() == NewSpace(size, align)
    {
      this.align := align;
      this.size := size;
      this.free := [Block(0, size)];
      this.inUse := 0;
      this.live := {};
      NewSpaceOk(size, align);
    }

    /** First fit: RuntimeError (None) exactly when no free block is large enough, and then nothing
        changes. */
    method Allocate(raw: nat) returns (r: Option<Block>)
      requires Valid() && Aligned(View(), raw) > 0
      modifies this
      ensures Valid() && size == old(size)
      ensures r.None? <==> forall i :: 0 <= i < |old(free)| ==> old(free)[i].size < Aligned(old(View()), raw)
      ensures r.None? ==> View() == old(View()) && live == old(live)
      ensures r.Some? ==> r.value.size == Aligned(old(View()), raw) && r.value !in old(live) && live == old(live) + {r.value}
      ensures r.Some? ==> AddressSpace.Allocate(old(View()), raw) == Some((View(), r.value))
    {
      hide LowerBound, SpaceOk, FirstFit, Alignment.AlignTo, Alignment.BitAnd, AddressSpace.Allocate, Insert, Remove;
      ghost var sp := View();
      AllocateOk(sp, raw, live);
      var n := Alignment.AlignTo(raw, align);
      var i := FindFit(n);
      AllocateBy(sp, raw, i);
      if i == |free| { return None; }
      var block := free[i];
      free := Remove(free, i);
      if block.size > n {
        free := Insert(free, Block(block.start + n, block.size - n));
      }
      inUse := inUse + n;
      r := Some(Block(block.start, n));
      live := live + {r.value};
    }

    method FindFit(n: int) returns (i: nat)
      ensures i == FirstFit(free, n)
    {
      i := 0;
      while i < |free| && free[i].size < n
        invariant i <= |free|
        invariant forall j :: 0 <= j < i ==> free[j].size < n
      {
        i := i + 1;
      }
      FirstFitIs(free, n, i);
    }

    /** free of a block that is live: exactly its addresses come back. */
    method Free(b: Block)
      requires Valid() && b in live
      modifies this
      ensures Valid() && live == old(live) - {b} && View() == Release(old(View()), b)
    {
      ReleaseOk(View(), live, b);
      hide LowerBound, Coalesce, SpaceOk;
      free := Coalesce(free, b, LowerBound(free, b.start));
      inUse := inUse - b.size;
      live := live - {b};
    }

    /** sbrk: the address space grows by the rounded size, and all of the growth is free. */
    method Sbrk(raw: nat)
      requires Valid() && Aligned(View(), raw) > 0
      modifies this
      ensures Valid() && live == old(live) && View() == Grow(old(View()), raw)
      ensures size == old(size) + Aligned(old(View()), raw)
    {
      GrowOk(View(), live, raw);
      hide Coalesce, SpaceOk;
      var n := Alignment.AlignTo(raw, align);
      free := Coalesce(free, Block(size, n), |free|);
      size := size + n;
    }
  }

  lemma AllocateBy(sp: Space, raw: nat, i: nat)
    requires Aligned(sp, raw) > 0 && i == FirstFit(sp.free, Aligned(sp, raw))
    ensures i == |sp.free| ==> Allocate(sp, raw).None?
    ensures i < |sp.free| ==>
              var n: nat, b := Aligned(sp, raw), sp.free[i];
              var rest := Remove(sp.free, i);
              Allocate(sp, raw) == Some((sp.(free := if b.size > n then Insert(rest, Block(b.start + n, b.size - n)) else rest,
                                             inUse := sp.inUse + n), Block(b.start, n)))
  {
    hide FirstFit, LowerBound, Aligned;
  }

  lemma {:induction false} FirstFitIs(free: seq<Block>, n: int, i: nat)
    requires i <= |free| && (forall j :: 0 <= j < i ==> free[j].size < n) && (i < |free| ==> free[i].size >= n)
    ensures FirstFit(free, n) == i
  {
    if i > 0 { FirstFitIs(free[1..], n, i - 1); }
  }
}
