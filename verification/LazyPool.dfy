/** Threads allocate and free while the worker expands the pool.  Each call into the address manager
    holds its lock, so it is one step; the worker's own fields are touched by the worker alone. */
module LazyPool {
  import opened Basics
  import opened AddressSpace
  import opened AlignedSpace
  import opened Alignment
  import opened LazyAllocators

  /** Where the worker is: at the outer test, about to pin chunk i of a round, or returned. */
  datatype Place = OuterTest | Pinning(i: nat) | Returned(failed: bool)

  datatype Pool = Pool(space: Space, live: set<Block>, curr: nat, final: nat, last: nat,
                       pins: seq<Pin>, stop: bool, worker: Place)

  datatype Action = Take(raw: nat) | GiveBack(block: Block) | RequestStop | Test | PinChunk | Commit

  const CHUNKS_PER_COMMIT: nat := COMMIT_SIZE / PIN_CHUNK_SIZE

  predicate Enabled(p: Pool, a: Action)
  {
    match a
    case Take(raw) => raw > 0
    case GiveBack(b) => b in p.live
    case RequestStop => true
    case Test => p.worker.OuterTest?
    case PinChunk => p.worker.Pinning? && p.worker.i < CHUNKS_PER_COMMIT && p.curr < p.final
    case Commit => p.worker.Pinning? && !(p.worker.i < CHUNKS_PER_COMMIT && p.curr < p.final) && p.last <= p.curr
  }

  predicate WorkerAction(a: Action) { a.Test? || a.PinChunk? || a.Commit? }

  function Step(p: Pool, a: Action): Pool
    requires Enabled(p, a)
  {
    match a
    case Take(raw) =>
      var r := Allocate(p.space, raw);
      if r.None? then p else p.(space := r.value.0, live := p.live + {r.value.1})
    case GiveBack(b) => p.(space := Release(p.space, b), live := p.live - {b})
    case RequestStop => p.(stop := true)
    case Test => p.(worker := if p.curr < p.final && !p.stop then Pinning(0) else Returned(false))
    case PinChunk =>
      if PinAllowed(p.curr, PIN_CHUNK_SIZE, p.final) then
        p.(curr := p.curr + PIN_CHUNK_SIZE, pins := p.pins + [Pin(p.curr, PIN_CHUNK_SIZE)], worker := Pinning(p.worker.i + 1))
      else p.(worker := Returned(true))
    case Commit => p.(space := Grow(p.space, p.curr - p.last), last := p.curr, worker := OuterTest)
  }

  predicate Legal(p: Pool, run: seq<Action>)
    decreases |run|
  {
    run == [] || (Enabled(p, run[0]) && Legal(Step(p, run[0]), run[1..]))
  }

  function After(p: Pool, run: seq<Action>): Pool
    requires Legal(p, run)
    decreases |run|
  {
    if run == [] then p else After(Step(p, run[0]), run[1..])
  }

  function Start(init: nat, final: nat, align: nat): Pool
  {
    Pool(NewSpace(init, align), {}, init, final, init, [Pin(0, init)], false, OuterTest)
  }

  /** The worker's fields: at the outer test everything pinned is committed, and every commit but the
      last is a full one. */
  ghost predicate WorkerOk(curr: nat, final: nat, last: nat, pins: seq<Pin>, stop: bool, worker: Place, init: nat)
  {
    && WholeChunks(curr) && WholeChunks(final) && curr <= final && PinsTile(pins, curr)
    && init <= last && WholeChunks(last) && ((last - init) % COMMIT_SIZE == 0 || last == final)
    && match worker
       case Pinning(i) => curr == last + i * PIN_CHUNK_SIZE && i <= CHUNKS_PER_COMMIT && (i == 0 ==> curr < final)
       case OuterTest => curr == last
       case Returned(failed) => curr == last && !failed && (curr == final || stop)
  }

  /** The address space: as large as what was committed and its excess. */
  ghost predicate RoomOk(space: Space, live: set<Block>, last: nat, k: nat, init: nat)
  {
    && space.align == Pow2(k) && SpaceOk(space, live) && GridOk(space, live)
    && init <= last && space.size == last + Excess(last - init, space.align)
    && space.size % space.align == init % space.align
  }

  ghost predicate PoolOk(p: Pool, k: nat, init: nat)
  {
    && WorkerOk(p.curr, p.final, p.last, p.pins, p.stop, p.worker, init)
    && RoomOk(p.space, p.live, p.last, k, init)
  }

  lemma TakeOk(p: Pool, raw: nat, k: nat, init: nat)
    requires PoolOk(p, k, init) && raw > 0
    ensures PoolOk(Step(p, Take(raw)), k, init)
  {
    hide WorkerOk, SpaceOk, GridOk, AlignTo, Pow2, Allocate, Excess;
    CommitRounds(raw, p.space.align, k);
    AllocateOk(p.space, raw, p.live);
    var r := Allocate(p.space, raw);
    if r.Some? {
      AllocateKeeps(p.space, raw);
      TakeGridOk(p.space, raw, p.live);
    }
  }

  lemma AllocateKeeps(sp: Space, raw: nat)
    requires Allocate(sp, raw).Some?
    ensures Allocate(sp, raw).value.0.size == sp.size && Allocate(sp, raw).value.0.align == sp.align
  {
    hide FirstFit, Aligned, Insert, Remove;
  }

  lemma GiveBackOk(p: Pool, b: Block, k: nat, init: nat)
    requires PoolOk(p, k, init) && b in p.live
    ensures PoolOk(Step(p, GiveBack(b)), k, init)
  {
    hide WorkerOk, SpaceOk, GridOk, Coalesce, LowerBound, Pow2, Excess;
    ReleaseOk(p.space, p.live, b);
    GiveBackGridOk(p.space, p.live, b);
  }

  /** What a commit hands over: a full round, or all that is left. */
  lemma CommitSize(p: Pool, k: nat, init: nat)
    requires PoolOk(p, k, init) && Enabled(p, Commit)
    ensures 0 < p.curr - p.last <= COMMIT_SIZE && (p.curr - p.last == COMMIT_SIZE || p.curr == p.final)
    ensures init <= p.last && (p.last - init) % COMMIT_SIZE == 0
    ensures WorkerOk(p.curr, p.final, p.curr, p.pins, p.stop, OuterTest, init)
  {
    hide RoomOk, PinsTile, WholeChunks;
    FullCommit(p.last - init);
  }

  lemma FullCommit(d: int)
    ensures d % COMMIT_SIZE == 0 ==> (d + COMMIT_SIZE) % COMMIT_SIZE == 0
  {}

  lemma CommitOk(p: Pool, k: nat, init: nat)
    requires PoolOk(p, k, init) && Enabled(p, Commit)
    ensures PoolOk(Step(p, Commit), k, init)
  {
    hide WorkerOk, RoomOk, Grow;
    CommitSize(p, k, init);
    RoomGrows(p.space, p.live, p.last, p.curr, k, init);
  }

  lemma RoomGrows(space: Space, live: set<Block>, last: nat, curr: nat, k: nat, init: nat)
    requires RoomOk(space, live, last, k, init) && 0 < curr - last <= COMMIT_SIZE && (last - init) % COMMIT_SIZE == 0
    ensures RoomOk(Grow(space, curr - last), live, curr, k, init)
  {
    hide SpaceOk, GridOk, Coalesce, AlignTo, Pow2, FreeTotal, Excess;
    var e := curr - last;
    CommitRounds(e, space.align, k);
    ExcessStep(last - init, e, space.align, k);
    GrowOk(space, live, e);
    GrowGridOk(space, live, e);
  }

  lemma PinChunkOk(p: Pool, k: nat, init: nat)
    requires PoolOk(p, k, init) && Enabled(p, PinChunk)
    ensures PoolOk(Step(p, PinChunk), k, init)
  {
    hide RoomOk, PinAllowed, PinsTile, WholeChunks;
    PinAllowedMeaning(p.curr, PIN_CHUNK_SIZE, p.final);
    NextChunk(p.curr, p.final);
    PinsExtend(p.pins, p.curr, PIN_CHUNK_SIZE);
  }

  lemma StepOk(p: Pool, a: Action, k: nat, init: nat)
    requires PoolOk(p, k, init) && Enabled(p, a)
    ensures PoolOk(Step(p, a), k, init)
  {
    match a
    case Take(raw) => TakeOk(p, raw, k, init);
    case GiveBack(b) => GiveBackOk(p, b, k, init);
    case RequestStop =>
    case Test =>
    case PinChunk => PinChunkOk(p, k, init);
    case Commit => CommitOk(p, k, init);
  }

  lemma {:induction false} RunOk(p: Pool, run: seq<Action>, k: nat, init: nat)
    requires PoolOk(p, k, init) && Legal(p, run)
    ensures PoolOk(After(p, run), k, init)
    decreases |run|
  {
    hide PoolOk;
    if run != [] {
      StepOk(p, run[0], k, init);
      RunOk(Step(p, run[0]), run[1..], k, init);
    }
  }

  lemma StartOk(init: nat, final: nat, k: nat)
    requires WholeChunks(init) && WholeChunks(final) && init <= final
    ensures PoolOk(Start(init, final, Pow2(k)), k, init)
  {
    NewSpaceOk(init, Pow2(k));
    NewGridOk(init, Pow2(k));
    NoExcess(Pow2(k), k);
    hide SpaceOk, GridOk, Pow2, Excess;
  }

  /** In every run, with any interleaving of allocations, frees, expansion and a stop request, and for
      any power-of-two alignment: the pinned records tile the buffer up to the pinned size, no two
      blocks in use overlap, no pin assertion fails, and a worker that returns has committed all it
      pinned, which is everything unless it was stopped.  The space is larger than what was committed
      by exactly the excess of the commits. */
  lemma PinsAndBlocks(init: nat, final: nat, k: nat, run: seq<Action>)
    requires WholeChunks(init) && WholeChunks(final) && init <= final
    requires Legal(Start(init, final, Pow2(k)), run)
    ensures var p := After(Start(init, final, Pow2(k)), run);
            && PinsTile(p.pins, p.curr) && init <= p.last <= p.curr <= p.final
            && (forall b, c :: b in p.live && c in p.live && b != c ==> Disjoint(b, c))
            && (forall b :: b in p.live ==> b.size > 0 && End(b) <= p.space.size)
            && p.space.size == p.last + Excess(p.last - init, p.space.align)
            && !(p.worker.Returned? && p.worker.failed)
            && (!p.worker.Pinning? ==> p.last == p.curr)
            && (p.worker.Returned? && !p.stop ==> p.last == p.final)
  {
    StartOk(init, final, k);
    RunOk(Start(init, final, Pow2(k)), run, k, init);
    hide After, Legal, Pow2, Covers, FreeOk, FreeTotal, GridOk, Excess, PinsTile;
  }

  /** Every address of a block in use lies in a pinned record. */
  ghost predicate AllPinned(p: Pool)
  {
    forall b, x: nat :: b in p.live && Inside(b, x) ==> Pinned(p.pins, x)
  }

  ghost predicate Pinned(pins: seq<Pin>, x: nat) { exists i :: 0 <= i < |pins| && Holds(pins[i], x) }

  lemma {:induction false} PinnedBelow(pins: seq<Pin>, upTo: nat, x: nat)
    requires PinsTile(pins, upTo) && Pinned(pins, x)
    ensures x < upTo
  {
    var i :| 0 <= i < |pins| && Holds(pins[i], x);
    var n := |pins| - 1;
    if i < n {
      assert Holds(pins[..n][i], x);
      PinnedBelow(pins[..n], pins[n].offset, x);
    }
  }

  /** With no more excess than the initial size is off the alignment, every block in use is pinned in
      every run. */
  lemma LiveBlocksArePinned(init: nat, final: nat, k: nat, run: seq<Action>)
    requires WholeChunks(init) && WholeChunks(final) && init <= final
    requires Excess(final - init, Pow2(k)) <= init % Pow2(k) && Legal(Start(init, final, Pow2(k)), run)
    ensures AllPinned(After(Start(init, final, Pow2(k)), run))
  {
    hide PoolOk, After, Legal, Start, Pow2, Excess, AllPinned;
    StartOk(init, final, k);
    RunOk(Start(init, final, Pow2(k)), run, k, init);
    StaysFinal(Start(init, final, Pow2(k)), run);
    StartFinal(init, final, k);
    PinnedNow(After(Start(init, final, Pow2(k)), run), k, init);
  }

  lemma StartFinal(init: nat, final: nat, k: nat)
    ensures Start(init, final, Pow2(k)).final == final
  {}

  lemma PinnedNow(p: Pool, k: nat, init: nat)
    requires PoolOk(p, k, init) && init <= p.final && Excess(p.final - init, Pow2(k)) <= init % Pow2(k)
    ensures AllPinned(p)
  {
    hide Pow2, SpaceOk, GridOk, Excess, PinsTile, Pinned;
    SpaceBelow(p, k, init);
    forall b, x: nat | b in p.live && Inside(b, x) ensures Pinned(p.pins, x) {
      LiveEnds(p.space, p.live, b);
      var i := PinnedAddress(p.pins, p.curr, x);
      InRecord(p.pins, i, x);
    }
  }

  /** The last multiple of the alignment in the space is pinned. */
  lemma SpaceBelow(p: Pool, k: nat, init: nat)
    requires PoolOk(p, k, init) && init <= p.final && Excess(p.final - init, Pow2(k)) <= init % Pow2(k)
    ensures p.space.size - p.space.size % p.space.align <= p.curr
  {
    hide Pow2, SpaceOk, GridOk, Excess, PinsTile, WholeChunks;
    ExcessGrows(p.last - init, p.final - init, Pow2(k), k);
    assert p.last <= p.curr;
  }

  lemma InRecord(pins: seq<Pin>, i: nat, x: nat)
    requires i < |pins| && pins[i].offset <= x < pins[i].offset + pins[i].size
    ensures Pinned(pins, x)
  {
    assert Holds(pins[i], x);
  }

  lemma {:induction false} StaysFinal(p: Pool, run: seq<Action>)
    requires Legal(p, run)
    ensures After(p, run).final == p.final
    decreases |run|
  {
    if run != [] { StaysFinal(Step(p, run[0]), run[1..]); }
    hide Allocate, Release, Grow, PinAllowed;
  }

  // ---- the converse ----

  /** Nothing is in use and the free list is one block. */
  predicate Untouched(p: Pool) { p.live == {} && !p.stop && p.space.free == [Block(0, p.space.size)] }

  lemma GrowWhole(sp: Space, raw: nat)
    requires sp.free == [Block(0, sp.size)] && Aligned(sp, raw) >= 0
    ensures Grow(sp, raw).free == [Block(0, Grow(sp, raw).size)]
  {
    hide Aligned;
  }

  lemma WorkerLeavesUntouched(p: Pool, a: Action, k: nat, init: nat)
    requires PoolOk(p, k, init) && Untouched(p) && Enabled(p, a) && WorkerAction(a)
    ensures Untouched(Step(p, a))
  {
    if a.Commit? {
      CommitRounds(p.curr - p.last, p.space.align, k);
      GrowWhole(p.space, p.curr - p.last);
    }
    hide SpaceOk, GridOk, AlignTo, Pow2, PinsTile, Excess, Grow, PinAllowed;
  }

  /** The worker runs to its end, and then everything on the grid is taken at once. */
  lemma {:induction false} RunAndTake(p: Pool, k: nat, init: nat) returns (run: seq<Action>)
    requires PoolOk(p, k, init) && Untouched(p)
    requires Excess(p.final - init, Pow2(k)) > init % Pow2(k)
    ensures Legal(p, run) && After(p, run).final == p.final
    ensures exists b :: b in After(p, run).live && End(b) > p.final
    decreases WorkLeft(p)
  {
    if p.worker.Returned? {
      run := TakeAll(p, k, init);
    } else {
      var a := WorkerNotStuck(p, k, init);
      StepOk(p, a, k, init);
      WorkShrinks(p, a, k, init);
      WorkerLeavesUntouched(p, a, k, init);
      assert Step(p, a).final == p.final by { StaysFinal(p, [a]); OneStep(p, a); }
      hide PoolOk, Untouched, WorkLeft, Excess, Pow2, Step, Enabled, WorkerAction;
      var rest := RunAndTake(Step(p, a), k, init);
      run := [a] + rest;
      assert run[1..] == rest;
    }
  }

  lemma OneStep(p: Pool, a: Action)
    requires Enabled(p, a)
    ensures Legal(p, [a]) && After(p, [a]) == Step(p, a)
  {
    assert [a][1..] == [];
    hide Step;
  }

  lemma TakeAll(p: Pool, k: nat, init: nat) returns (run: seq<Action>)
    requires PoolOk(p, k, init) && Untouched(p) && p.worker.Returned?
    requires Excess(p.final - init, Pow2(k)) > init % Pow2(k)
    ensures Legal(p, run) && After(p, run).final == p.final
    ensures exists b :: b in After(p, run).live && End(b) > p.final
  {
    var size, align := p.space.size, p.space.align;
    var raw := size - size % align;
    hide SpaceOk, GridOk, AlignTo, Pow2, PinsTile, Excess;
    assert size == p.final + Excess(p.final - init, align);
    DivModOf(size, align);
    ModUnique(raw, align, size / align, 0);
    CommitRounds(raw, align, k);
    TakesFirst(p.space, raw);
    run := [Take(raw)];
    OneStep(p, Take(raw));
    hide Allocate, Legal, After;
    assert Block(0, raw) in Step(p, Take(raw)).live;
  }

  lemma TakesFirst(sp: Space, raw: nat)
    requires sp.free == [Block(0, sp.size)] && Aligned(sp, raw) == raw <= sp.size
    ensures Allocate(sp, raw).Some? && Allocate(sp, raw).value.1 == Block(0, raw)
  {
    hide Aligned, Insert, Remove;
  }

  /** Otherwise some run hands out a block that reaches past the buffer's own end. */
  lemma SomeBlockIsNotPinned(init: nat, final: nat, k: nat) returns (run: seq<Action>)
    requires WholeChunks(init) && WholeChunks(final) && init <= final
    requires Excess(final - init, Pow2(k)) > init % Pow2(k)
    ensures Legal(Start(init, final, Pow2(k)), run)
    ensures !AllPinned(After(Start(init, final, Pow2(k)), run))
    ensures exists b :: b in After(Start(init, final, Pow2(k)), run).live && End(b) > final
  {
    StartOk(init, final, k);
    var s := Start(init, final, Pow2(k));
    assert Untouched(s) && s.final == final;
    hide Excess, Pow2, Legal, After, PoolOk, PinsTile, AllPinned, Untouched, Start;
    run := RunAndTake(s, k, init);
    PinsAndBlocks(init, final, k, run);
    PastTheEnd(After(s, run));
  }

  lemma PastTheEnd(p: Pool)
    requires PinsTile(p.pins, p.curr) && p.curr <= p.final && (forall b :: b in p.live ==> b.size > 0)
    requires exists b :: b in p.live && End(b) > p.final
    ensures !AllPinned(p)
  {
    hide PinsTile, Pinned;
    var b :| b in p.live && End(b) > p.final;
    var x := End(b) - 1;
    if AllPinned(p) {
      assert Inside(b, x);
      PinnedBelow(p.pins, p.curr, x);
      assert false;
    }
  }

  lemma SmallAlignments(init: nat, final: nat, k: nat)
    requires k <= 26 && WholeChunks(init) && WholeChunks(final) && init <= final
    ensures Excess(final - init, Pow2(k)) <= init % Pow2(k)
  {
    SmallAlignmentsFit(final - init, Pow2(k), k);
    DivModOf(init, Pow2(k));
    hide Excess;
  }

  /** So every block in use is pinned in every run exactly when the excess of the commits is no more than
      the initial size is off the alignment: always for alignments up to the pin chunk size. */
  lemma LiveBlocksArePinnedIff(init: nat, final: nat, k: nat)
    requires WholeChunks(init) && WholeChunks(final) && init <= final
    ensures (forall run :: Legal(Start(init, final, Pow2(k)), run) ==> AllPinned(After(Start(init, final, Pow2(k)), run)))
       <==> Excess(final - init, Pow2(k)) <= init % Pow2(k)
    ensures k <= 26 ==> Excess(final - init, Pow2(k)) <= init % Pow2(k)
  {
    hide AllPinned, Excess, Pow2, Legal, After, Start;
    if k <= 26 { SmallAlignments(init, final, k); }
    if Excess(final - init, Pow2(k)) <= init % Pow2(k) {
      forall run | Legal(Start(init, final, Pow2(k)), run) ensures AllPinned(After(Start(init, final, Pow2(k)), run)) {
        LiveBlocksArePinned(init, final, k, run);
      }
    } else {
      var run := SomeBlockIsNotPinned(init, final, k);
    }
  }

  /** An alignment of two chunks: a pool that grows from two chunks to three commits a fourth, and a run
      hands out a block that reaches past the end of the buffer. */
  lemma LargeAlignmentOvercommits() returns (run: seq<Action>)
    ensures var s := Start(2 * PIN_CHUNK_SIZE, 3 * PIN_CHUNK_SIZE, 2 * PIN_CHUNK_SIZE);
            Legal(s, run) && exists b :: b in After(s, run).live && End(b) > 3 * PIN_CHUNK_SIZE
  {
    hide Legal, After, Start, Excess;
    ChunkIsPowerOfTwo();
    assert Pow2(27) == 2 * PIN_CHUNK_SIZE;
    hide Pow2;
    OneChunkExcess();
    run := SomeBlockIsNotPinned(2 * PIN_CHUNK_SIZE, 3 * PIN_CHUNK_SIZE, 27);
  }

  lemma OneChunkExcess()
    ensures Excess(PIN_CHUNK_SIZE, 2 * PIN_CHUNK_SIZE) == PIN_CHUNK_SIZE
  {
    ChunkIsPowerOfTwo();
    assert Pow2(27) == 2 * PIN_CHUNK_SIZE;
    hide AlignTo, Pow2, Excess;
    ChunkRounds();
    TwoChunks(AlignTo(PIN_CHUNK_SIZE, Pow2(27)));
    ExcessOfPart(PIN_CHUNK_SIZE, 2 * PIN_CHUNK_SIZE);
  }

  lemma ChunkRounds()
    ensures AlignTo(PIN_CHUNK_SIZE, Pow2(27)) % Pow2(27) == 0
    ensures PIN_CHUNK_SIZE <= AlignTo(PIN_CHUNK_SIZE, Pow2(27)) < PIN_CHUNK_SIZE + Pow2(27)
  {
    hide AlignTo, Pow2;
    AlignToIsLeastMultiple(PIN_CHUNK_SIZE, 27);
  }

  lemma TwoChunks(r: int)
    requires r % (2 * PIN_CHUNK_SIZE) == 0 && PIN_CHUNK_SIZE <= r < 3 * PIN_CHUNK_SIZE
    ensures r == 2 * PIN_CHUNK_SIZE
  {}

  /** A growth of less than a full commit is one commit. */
  lemma ExcessOfPart(d: nat, align: nat)
    requires d < COMMIT_SIZE
    ensures Excess(d, align) == AlignTo(d, align) - d
  {
    hide AlignTo;
    assert d / COMMIT_SIZE == 0 && d % COMMIT_SIZE == d;
    assert 0 * (AlignTo(COMMIT_SIZE, align) - COMMIT_SIZE) == 0;
  }

  predicate Holds(pin: Pin, x: nat) { pin.offset <= x < pin.offset + pin.size }

  /** What the worker still has to do. */
  function WorkLeft(p: Pool): nat
  {
    3 * (if p.curr < p.final then (p.final - p.curr) / PIN_CHUNK_SIZE else 0)
    + match p.worker case OuterTest => 1 case Pinning(i) => (if i == 0 then 0 else 2) case Returned(_) => 0
  }

  function WorkerSteps(run: seq<Action>): nat
  {
    if run == [] then 0 else (if WorkerAction(run[0]) then 1 else 0) + WorkerSteps(run[1..])
  }

  lemma WorkShrinks(p: Pool, a: Action, k: nat, init: nat)
    requires PoolOk(p, k, init) && Enabled(p, a)
    ensures WorkLeft(Step(p, a)) + (if WorkerAction(a) then 1 else 0) <= WorkLeft(p)
  {
    hide RoomOk, PinsTile, Allocate, Release, Grow;
    if a.PinChunk? { PinAllowedMeaning(p.curr, PIN_CHUNK_SIZE, p.final); hide PinAllowed; }
  }

  lemma {:induction false} RunShrinksWork(p: Pool, run: seq<Action>, k: nat, init: nat)
    requires PoolOk(p, k, init) && Legal(p, run)
    ensures WorkerSteps(run) + WorkLeft(After(p, run)) <= WorkLeft(p)
    decreases |run|
  {
    hide PoolOk, WorkLeft;
    if run != [] {
      StepOk(p, run[0], k, init);
      WorkShrinks(p, run[0], k, init);
      RunShrinksWork(Step(p, run[0]), run[1..], k, init);
    }
  }

  lemma WorkerNotStuck(p: Pool, k: nat, init: nat) returns (a: Action)
    requires PoolOk(p, k, init) && !p.worker.Returned?
    ensures WorkerAction(a) && Enabled(p, a)
  {
    hide RoomOk, PinsTile, WholeChunks;
    a := if p.worker.OuterTest? then Test
    else if p.worker.i < CHUNKS_PER_COMMIT && p.curr < p.final then PinChunk
    else Commit;
  }

  /** The worker ends: in any run it takes at most three steps for each chunk to pin and one more, and
      until it has returned one of its steps is possible. */
  lemma WorkerFinishes(init: nat, final: nat, k: nat, run: seq<Action>)
    requires WholeChunks(init) && WholeChunks(final) && init <= final
    requires Legal(Start(init, final, Pow2(k)), run)
    ensures WorkerSteps(run) <= 3 * ((final - init) / PIN_CHUNK_SIZE) + 1
    ensures var p := After(Start(init, final, Pow2(k)), run);
            p.worker.Returned? || exists a :: WorkerAction(a) && Enabled(p, a)
  {
    StartOk(init, final, k);
    var s := Start(init, final, Pow2(k));
    assert WorkLeft(s) <= 3 * ((final - init) / PIN_CHUNK_SIZE) + 1;
    hide Start, PoolOk, WorkLeft, Pow2, After, Legal, WholeChunks, Enabled, WorkerAction;
    RunShrinksWork(s, run, k, init);
    RunOk(s, run, k, init);
    if !After(s, run).worker.Returned? { var a := WorkerNotStuck(After(s, run), k, init); }
  }

  // ---- a stop request ----

  /** The stop flag is set exactly by a request, and stays set. */
  lemma {:induction false} StopIsRequested(p: Pool, run: seq<Action>)
    requires Legal(p, run)
    ensures After(p, run).stop <==> p.stop || RequestStop in run
    decreases |run|
  {
    if run != [] {
      StopIsRequested(Step(p, run[0]), run[1..]);
      assert run == [run[0]] + run[1..];
      assert Step(p, run[0]).stop <==> p.stop || run[0] == RequestStop;
    }
    hide Allocate, Release, Grow, PinAllowed;
  }

  /** What is left of the worker's round. */
  function RoundLeft(worker: Place): nat
  {
    match worker
    case OuterTest => 1
    case Pinning(i) => (if i < CHUNKS_PER_COMMIT then CHUNKS_PER_COMMIT - i else 0) + 2
    case Returned(_) => 0
  }

  lemma RoundShrinks(p: Pool, a: Action)
    requires Enabled(p, a) && p.stop
    ensures RoundLeft(Step(p, a).worker) + (if WorkerAction(a) then 1 else 0) <= RoundLeft(p.worker) && Step(p, a).stop
  {
    hide Allocate, Release, Grow, PinAllowed;
  }

  /** Once a stop is requested the worker finishes its round at most: sixteen chunks, a commit and a test. */
  lemma {:induction false} StopEndsWorker(p: Pool, run: seq<Action>)
    requires Legal(p, run) && p.stop
    ensures WorkerSteps(run) + RoundLeft(After(p, run).worker) <= RoundLeft(p.worker) <= 18
    decreases |run|
  {
    assert CHUNKS_PER_COMMIT == 16;
    if run != [] {
      RoundShrinks(p, run[0]);
      hide RoundLeft, Step;
      StopEndsWorker(Step(p, run[0]), run[1..]);
    }
  }

  /** The worker's steps in a run are those that test, pin or commit. */
  lemma {:induction false} WorkerStepsMean(run: seq<Action>)
    ensures WorkerSteps(run) == |set i | 0 <= i < |run| && (run[i] == Test || run[i] == PinChunk || run[i] == Commit)|
  {
    if run != [] {
      WorkerStepsMean(run[..|run| - 1]);
      WorkerStepsAppend(run[..|run| - 1], run[|run| - 1]);
      var n := |run| - 1;
      assert run == run[..n] + [run[n]];
      assert (set i | 0 <= i < |run| && (run[i] == Test || run[i] == PinChunk || run[i] == Commit))
          == (set i | 0 <= i < n && (run[..n][i] == Test || run[..n][i] == PinChunk || run[..n][i] == Commit))
             + if WorkerAction(run[n]) then {n} else {};
    }
  }

  lemma {:induction false} WorkerStepsAppend(run: seq<Action>, a: Action)
    ensures WorkerSteps(run + [a]) == WorkerSteps(run) + if WorkerAction(a) then 1 else 0
  {
    if run == [] {
      assert [a][1..] == [] && [] + [a] == [a];
    } else {
      assert (run + [a])[1..] == run[1..] + [a];
      WorkerStepsAppend(run[1..], a);
    }
  }
}
