/** The lazy pinned allocator: pins its buffer chunk by chunk in the background and hands each pinned
    gigabyte to the address manager. */
module LazyAllocators {
  import opened Basics
  import opened AddressManagers
  import opened Alignment

  const PIN_CHUNK_SIZE: nat := 67108864
  const COMMIT_SIZE: nat := 1073741824

  /** A pinned range, by its offset in the buffer. */
  datatype Pin = Pin(offset: nat, size: nat)

  /** The records lie end to end from offset 0 to upTo. */
  ghost predicate PinsTile(pins: seq<Pin>, upTo: nat)
  {
    && |pins| > 0 && pins[0].offset == 0
    && (forall i :: 0 <= i < |pins| - 1 ==> pins[i + 1].offset == pins[i].offset + pins[i].size)
    && pins[|pins| - 1].offset + pins[|pins| - 1].size == upTo
  }

  /** The three assertions in _pin_memory_chunk. */
  predicate PinAllowed(offset: nat, size: nat, finalSize: nat)
  {
    && BitAnd(offset, PIN_CHUNK_SIZE - 1) == 0
    && BitAnd(size, PIN_CHUNK_SIZE - 1) == 0
    && offset + size <= finalSize
  }

  predicate WholeChunks(x: int) { x % PIN_CHUNK_SIZE == 0 }

  /** By how much the commits of a growth of d exceed what is pinned: every commit is rounded up to the
      alignment, the full ones and the last. */
  function Excess(d: nat, align: nat): int
  {
    d / COMMIT_SIZE * (AlignTo(COMMIT_SIZE, align) - COMMIT_SIZE) + (AlignTo(d % COMMIT_SIZE, align) - d % COMMIT_SIZE)
  }

  lemma ChunkIsPowerOfTwo()
    ensures Pow2(26) == PIN_CHUNK_SIZE && COMMIT_SIZE == 16 * PIN_CHUNK_SIZE
  {
    assert Pow2(8) == 256;
    assert Pow2(16) == 65536;
    assert Pow2(24) == 16777216;
  }

  lemma PinAllowedMeaning(offset: nat, size: nat, finalSize: nat)
    ensures PinAllowed(offset, size, finalSize) <==> WholeChunks(offset) && WholeChunks(size) && offset + size <= finalSize
  {
    ChunkIsPowerOfTwo();
    KeepLowBits(offset, 26);
    KeepLowBits(size, 26);
    hide BitAnd, Pow2;
  }

  lemma RoundedUp(size: nat)
    ensures WholeChunks(AlignTo(size, PIN_CHUNK_SIZE)) && size <= AlignTo(size, PIN_CHUNK_SIZE) < size + PIN_CHUNK_SIZE
  {
    ChunkIsPowerOfTwo();
    AlignToIsLeastMultiple(size, 26);
  }

  /** Every pinned address lies in one of the records. */
  lemma {:induction false} PinnedAddress(pins: seq<Pin>, upTo: nat, x: nat) returns (i: nat)
    requires PinsTile(pins, upTo) && x < upTo
    ensures i < |pins| && pins[i].offset <= x < pins[i].offset + pins[i].size
  {
    i := |pins| - 1;
    if x < pins[i].offset {
      i := PinnedAddress(pins[..i], pins[i].offset, x);
    }
  }

  lemma PinsExtend(pins: seq<Pin>, upTo: nat, size: nat)
    requires PinsTile(pins, upTo)
    ensures PinsTile(pins + [Pin(upTo, size)], upTo + size)
  {}

  lemma NextChunk(curr: nat, final: nat)
    requires WholeChunks(curr) && WholeChunks(final) && curr < final
    ensures WholeChunks(curr + PIN_CHUNK_SIZE) && curr + PIN_CHUNK_SIZE <= final && WholeChunks(PIN_CHUNK_SIZE)
  {}

  /** Rounding up adds nothing exactly to the multiples of the alignment. */
  lemma CommitRounds(e: nat, align: nat, k: nat)
    requires align == Pow2(k)
    ensures AlignTo(e, align) >= e && (AlignTo(e, align) == e <==> e % align == 0) && AlignTo(e, align) % align == 0
  {
    AlignToIsLeastMultiple(e, k);
  }

  /** A growth by whole commits and one more of e. */
  lemma ExcessStep(d: nat, e: nat, align: nat, k: nat)
    requires align == Pow2(k) && d % COMMIT_SIZE == 0 && 0 < e <= COMMIT_SIZE
    ensures Excess(d + e, align) == Excess(d, align) + AlignTo(e, align) - e
  {
    CommitRounds(0, align, k);
    hide AlignTo, Pow2;
    assert AlignTo(0, align) == 0;
    var q, c := d / COMMIT_SIZE, AlignTo(COMMIT_SIZE, align) - COMMIT_SIZE;
    if e == COMMIT_SIZE {
      assert (d + e) / COMMIT_SIZE == q + 1 && (d + e) % COMMIT_SIZE == 0;
      assert (q + 1) * c == q * c + c;
    } else {
      assert (d + e) / COMMIT_SIZE == q && (d + e) % COMMIT_SIZE == e;
    }
  }

  /** The excess only grows from commit to commit. */
  lemma ExcessGrows(d: nat, more: nat, align: nat, k: nat)
    requires align == Pow2(k) && d <= more && (d % COMMIT_SIZE == 0 || d == more)
    ensures 0 <= Excess(d, align) <= Excess(more, align)
  {
    CommitRounds(0, align, k);
    CommitRounds(COMMIT_SIZE, align, k);
    CommitRounds(d % COMMIT_SIZE, align, k);
    CommitRounds(more % COMMIT_SIZE, align, k);
    hide AlignTo, Pow2;
    var c: nat := AlignTo(COMMIT_SIZE, align) - COMMIT_SIZE;
    assert AlignTo(0, align) == 0;
    MulMono(d / COMMIT_SIZE, more / COMMIT_SIZE, c);
    MulMono(0, d / COMMIT_SIZE, c);
  }

  lemma {:induction false} MultipleOf(c: nat, t: nat, align: nat)
    requires align > 0 && c % align == 0
    ensures (t * c) % align == 0
  {
    if t > 0 {
      MultipleOf(c, t - 1, align);
      assert t * c == (t - 1) * c + c;
      ModAdd((t - 1) * c, c, align);
    }
  }

  lemma ModAdd(d: nat, e: nat, align: nat)
    requires align > 0 && d % align == 0
    ensures (d + e) % align == e % align
  {
    DivModOf(d, align);
    DivModOf(e, align);
    var q, r := d / align + e / align, e % align;
    assert align * q == align * (d / align) + align * (e / align);
    hide *;
    ModUnique(d + e, align, q, r);
  }

  class LazyMemoryAllocator {
    const finalSize: nat
    const manager: AddressManager
    ghost const k: nat
    var currSize: nat
    var pins: seq<Pin>

    ghost predicate Valid()
      reads this, manager
    {
      && manager.Valid() && manager.align == Pow2(k)
      && WholeChunks(currSize) && WholeChunks(finalSize) && currSize <= finalSize
      && PinsTile(pins, currSize)
    }

    constructor (currSize: nat, finalSize: nat, align: nat, ghost k: nat)
      requires align == Pow2(k) && WholeChunks(currSize) && WholeChunks(finalSize) && currSize <= finalSize
      ensures Valid() && fresh(manager) && manager.align == align && manager.live == {}
      ensures this.currSize == currSize == manager.size && this.finalSize == finalSize
    {
      this.finalSize := finalSize;
      this.k := k;
      this.currSize := currSize;
      this.pins := [Pin(0, currSize)];
      this.manager := new AddressManager(currSize, align);
    }

    /** __init__: an AssertionError (None) exactly when the rounded initial size exceeds the rounded
        final one; otherwise the whole initial size is pinned and usable. */
    static method Create(initSize: nat, finalSize: nat, align: nat, ghost k: nat) returns (r: Option<LazyMemoryAllocator>)
      requires align == Pow2(k)
      ensures r.None? <==> AlignTo(initSize, PIN_CHUNK_SIZE) > AlignTo(finalSize, PIN_CHUNK_SIZE)
      ensures r.Some? ==>
                && r.value.Valid() && fresh(r.value) && fresh(r.value.manager)
                && initSize <= r.value.currSize == r.value.manager.size < initSize + PIN_CHUNK_SIZE
                && finalSize <= r.value.finalSize < finalSize + PIN_CHUNK_SIZE
    {
      var curr, final := AlignTo(initSize, PIN_CHUNK_SIZE), AlignTo(finalSize, PIN_CHUNK_SIZE);
      RoundedUp(initSize);
      RoundedUp(finalSize);
      hide AlignTo, BitAnd, Pow2;
      PinAllowedMeaning(0, curr, final);
      if !PinAllowed(0, curr, final) { return None; }
      var a := new LazyMemoryAllocator(curr, final, align, k);
      r := Some(a);
    }

    /** _pin_memory_chunk: false stands for an AssertionError. */
    method PinMemoryChunk(offset: nat, size: nat) returns (ok: bool)
      modifies this`pins
      ensures ok <==> WholeChunks(offset) && WholeChunks(size) && offset + size <= finalSize
      ensures pins == if ok then old(pins) + [Pin(offset, size)] else old(pins)
    {
      PinAllowedMeaning(offset, size, finalSize);
      ok := PinAllowed(offset, size, finalSize);
      if ok { pins := pins + [Pin(offset, size)]; }
    }

    /** The inner loop: up to sixteen chunks are pinned. */
    method PinRound() returns (ok: bool)
      requires Valid()
      modifies this
      ensures ok && Valid()
      ensures currSize == Min(finalSize, old(currSize) + COMMIT_SIZE) && old(pins) <= pins
    {
      hide Pow2, AddressManager.Valid, AlignTo, BitAnd;
      ok := true;
      for i := 0 to COMMIT_SIZE / PIN_CHUNK_SIZE
        invariant ok && Valid()
        invariant currSize == Min(finalSize, old(currSize) + i * PIN_CHUNK_SIZE)
        invariant old(pins) <= pins
      {
        if currSize >= finalSize { break; }
        NextChunk(currSize, finalSize);
        PinsExtend(pins, currSize, PIN_CHUNK_SIZE);
        hide PinsTile, WholeChunks;
        ok := PinMemoryChunk(currSize, PIN_CHUNK_SIZE);
        currSize := currSize + PIN_CHUNK_SIZE;
      }
    }

    /** One outer iteration: a round is pinned and committed.  It is iteration t of a worker that
        started at c0. */
    method ExpandOnce(ghost t: nat, ghost c0: nat) returns (ok: bool)
      requires Valid() && currSize < finalSize
      requires currSize == c0 + t * COMMIT_SIZE
      requires manager.size == currSize + Excess(currSize - c0, manager.align)
      modifies this, manager
      ensures ok && Valid() && manager.live == old(manager.live)
      ensures currSize == Min(finalSize, old(currSize) + COMMIT_SIZE)
      ensures old(pins) <= pins && manager.size == currSize + Excess(currSize - c0, manager.align)
    {
      hide Pow2, Excess, AlignTo, BitAnd, PinsTile;
      var last := currSize;
      ok := PinRound();
      var expand := currSize - last;
      CommitRounds(expand, manager.align, k);
      MultipleOf(COMMIT_SIZE, t, COMMIT_SIZE);
      ExcessStep(last - c0, expand, manager.align, k);
      hide WholeChunks;
      manager.Sbrk(expand);
    }

    /** _expand_worker.  `rounds` is how many times the loop's test finds the stop flag clear; with no
        stop the whole buffer ends up pinned.  The address space is then larger than the pinned size by
        exactly the excess of the commits. */
    method ExpandWorker(rounds: Option<nat>) returns (ok: bool)
      requires Valid() && manager.size == currSize
      modifies this, manager
      ensures ok && Valid() && manager.live == old(manager.live)
      ensures currSize == if rounds.None? then finalSize else Min(finalSize, old(currSize) + rounds.value * COMMIT_SIZE)
      ensures old(pins) <= pins && manager.size == currSize + Excess(currSize - old(currSize), manager.align)
    {
      var t := 0;
      ok := true;
      NoExcess(manager.align, k);
      while currSize < finalSize && (rounds.None? || t < rounds.value)
        invariant ok && Valid() && manager.live == old(manager.live)
        invariant currSize == Min(finalSize, old(currSize) + t * COMMIT_SIZE)
        invariant rounds.Some? ==> t <= rounds.value
        invariant old(pins) <= pins && manager.size == currSize + Excess(currSize - old(currSize), manager.align)
        decreases finalSize - currSize
      {
        ok := ExpandOnce(t, old(currSize));
        t := t + 1;
      }
    }
  }

  lemma NoExcess(align: nat, k: nat)
    requires align == Pow2(k)
    ensures Excess(0, align) == 0
  {
    CommitRounds(0, align, k);
    hide AlignTo;
  }

  lemma WholeChunksAligned(e: nat, align: nat, k: nat)
    requires k <= 26 && align == Pow2(k) && WholeChunks(e)
    ensures AlignTo(e, align) == e
  {
    ChunkIsPowerOfTwo();
    Pow2Divides(k, 26);
    CommitRounds(e, align, k);
    hide AlignTo, Pow2;
    MultipleOf(PIN_CHUNK_SIZE, e / PIN_CHUNK_SIZE, align);
    DivModOf(e, PIN_CHUNK_SIZE);
  }

  /** An alignment up to the chunk size has no excess over any growth by whole chunks. */
  lemma SmallAlignmentsFit(d: nat, align: nat, k: nat)
    requires k <= 26 && align == Pow2(k) && WholeChunks(d)
    ensures Excess(d, align) == 0
  {
    WholeChunksAligned(COMMIT_SIZE, align, k);
    WholeChunksAligned(d % COMMIT_SIZE, align, k);
    hide AlignTo;
    assert d / COMMIT_SIZE * (AlignTo(COMMIT_SIZE, align) - COMMIT_SIZE) == 0;
  }

  lemma {:induction false} Pow2Divides(k: nat, n: nat)
    requires k <= n
    ensures Pow2(n) % Pow2(k) == 0
  {
    if k == n {
      ModUnique(Pow2(n), Pow2(n), 1, 0);
    } else {
      Pow2Divides(k, n - 1);
      MultipleOf(Pow2(n - 1), 2, Pow2(k));
    }
  }
}
