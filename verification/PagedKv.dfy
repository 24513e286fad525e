/** Moving token rows between a host tensor and paged KV memory in its four page layouts.  Tensors are
    arrays of the same rank as in the code and an indexed assignment is a forall statement; the last
    two dimensions of a page (heads, head size) are one dimension of the host tensor. */
module PagedKv {
  import opened Basics

  datatype Direction = H2D | D2H

  datatype Format = NB_NL_TWO_BS_NH_HS | NL_X_TWO_NB_BS_NH_HS | NL_X_NB_TWO_BS_NH_HS | NL_X_NB_BS_HS
                  | TWO_X_NL_X_NBBS_NH_HS | NL_X_NBBS_ONE_HS

  datatype Outcome = Done | ValueError | NotImplementedError | IndexError | RuntimeError

  /** One layer's tensor: [blocks, block, width], [2, blocks, block, heads, size] or
      [blocks, 2, block, heads, size]. */
  datatype Layer<E> = Latent(rows: array3<E>) | PlanesFirst(pages: array5<E>) | BlocksFirst(pages: array5<E>)

  /** A list of layers, or one tensor [blocks, layers, 2, block, heads, size]. */
  datatype Paged<E> = Layers(layers: seq<Layer<E>>) | Fused(all: array6<E>)

  /** The common dimensions: planes (1 for latent pages, else 2), layers, blocks, block size, row width. */
  datatype Dims = Dims(planes: nat, layers: nat, blocks: nat, block: nat, width: nat)

  function Store<E>(layer: Layer<E>): object
  {
    match layer
    case Latent(rows) => rows
    case PlanesFirst(pages) => pages
    case BlocksFirst(pages) => pages
  }

  function Stores<E>(p: Paged<E>): set<object>
  {
    match p
    case Layers(layers) => set l | 0 <= l < |layers| :: Store(layers[l])
    case Fused(all) => {all}
  }

  ghost predicate LayerShape<E>(layer: Layer<E>, dm: Dims)
  {
    match layer
    case Latent(rows) =>
      dm.planes == 1 && rows.Length0 == dm.blocks && rows.Length1 == dm.block && rows.Length2 == dm.width
    case PlanesFirst(pages) =>
      && dm.planes == 2 && pages.Length0 == 2 && pages.Length1 == dm.blocks && pages.Length2 == dm.block
      && pages.Length3 * pages.Length4 == dm.width
    case BlocksFirst(pages) =>
      && dm.planes == 2 && pages.Length0 == dm.blocks && pages.Length1 == 2 && pages.Length2 == dm.block
      && pages.Length3 * pages.Length4 == dm.width
  }

  ghost predicate Shape<E>(p: Paged<E>, dm: Dims)
  {
    match p
    case Layers(layers) =>
      && |layers| == dm.layers
      && (forall l :: 0 <= l < |layers| ==> LayerShape(layers[l], dm))
      && (forall l, m :: 0 <= l < m < |layers| ==> Store(layers[l]) != Store(layers[m]))
    case Fused(all) =>
      && dm.planes == 2 && all.Length0 == dm.blocks && all.Length1 == dm.layers && all.Length2 == 2
      && all.Length3 == dm.block && all.Length4 * all.Length5 == dm.width
  }

  predicate InDims(dm: Dims, plane: nat, b: nat, o: nat, x: nat)
  {
    plane < dm.planes && b < dm.blocks && o < dm.block && x < dm.width
  }

  /** Row element x splits into a head and a position in it. */
  lemma Split(x: nat, heads: nat, size: nat)
    requires x < heads * size
    ensures size > 0 && 0 <= x / size < heads && 0 <= x % size < size && x / size * size + x % size == x
  {
    var q := x / size;
    if q >= heads { MulMono(heads, q, size); }
  }

  /** The head of each element of a row, and its position in the head: the reshape of a row. */
  function HeadOf(width: nat, size: nat): seq<nat>
  {
    seq(width, x => if size == 0 then 0 else x / size)
  }

  function PositionOf(width: nat, size: nat): seq<nat>
  {
    seq(width, x => if size == 0 then 0 else x % size)
  }

  lemma Reshape(heads: nat, size: nat)
    ensures var w := heads * size; Places(HeadOf(w, size), PositionOf(w, size))
    ensures var w := heads * size; forall x: nat :: x < w ==> size > 0 && HeadOf(w, size)[x] < heads && PositionOf(w, size)[x] < size
  {
    var w := heads * size;
    forall x: nat | x < w ensures size > 0 && HeadOf(w, size)[x] < heads && PositionOf(w, size)[x] < size { Split(x, heads, size); }
    forall x, y | 0 <= x < y < w ensures HeadOf(w, size)[x] != HeadOf(w, size)[y] || PositionOf(w, size)[x] != PositionOf(w, size)[y] {
      Split(x, heads, size);
      Split(y, heads, size);
    }
  }

  /** What a layer holds for a plane, a block, an offset in the block and a row element. */
  ghost function LayerCell<E>(layer: Layer<E>, dm: Dims, plane: nat, b: nat, o: nat, x: nat): E
    requires LayerShape(layer, dm) && InDims(dm, plane, b, o, x)
    reads Store(layer)
  {
    match layer
    case Latent(rows) => rows[b, o, x]
    case PlanesFirst(pages) =>
      Reshape(pages.Length3, pages.Length4);
      pages[plane, b, o, HeadOf(dm.width, pages.Length4)[x], PositionOf(dm.width, pages.Length4)[x]]
    case BlocksFirst(pages) =>
      Reshape(pages.Length3, pages.Length4);
      pages[b, plane, o, HeadOf(dm.width, pages.Length4)[x], PositionOf(dm.width, pages.Length4)[x]]
  }

  /** The logical contents, whatever the layout. */
  ghost function Cell<E>(p: Paged<E>, dm: Dims, plane: nat, l: nat, b: nat, o: nat, x: nat): E
    requires Shape(p, dm) && l < dm.layers && InDims(dm, plane, b, o, x)
    reads Stores(p)
  {
    match p
    case Layers(layers) => LayerCell(layers[l], dm, plane, b, o, x)
    case Fused(all) => Reshape(all.Length4, all.Length5); all[b, l, plane, o, HeadOf(dm.width, all.Length5)[x], PositionOf(dm.width, all.Length5)[x]]
  }

  /** A block index counts from the end when it is negative. */
  predicate Inside(slot: int, bs: nat, blocks: nat)
  {
    bs > 0 && 0 <= slot / bs + blocks && slot / bs < blocks
  }

  predicate AllInside(slots: seq<int>, bs: nat, blocks: nat)
  {
    forall i :: 0 <= i < |slots| ==> Inside(slots[i], bs, blocks)
  }

  /** _block_indices: floor division and its remainder, and the block that indexing picks. */
  function BlockOf(slot: int, bs: nat, blocks: nat): nat
    requires Inside(slot, bs, blocks)
  {
    var b := slot / bs;
    if b < 0 then b + blocks else b
  }

  function OffsetOf(slot: int, bs: nat): nat
    requires bs > 0
  {
    slot % bs
  }

  /** The slot counted from the front. */
  function FromFront(slot: int, bs: nat, blocks: nat): int
  {
    if slot < 0 then slot + blocks * bs else slot
  }

  predicate Distinct(s: seq<int>, bs: nat, blocks: nat)
  {
    forall i, j :: 0 <= i < j < |s| ==> FromFront(s[i], bs, blocks) != FromFront(s[j], bs, blocks)
  }

  /** No two positions name the same block and offset. */
  predicate Places(bi: seq<nat>, bo: seq<nat>)
  {
    |bi| == |bo| && forall i, j :: 0 <= i < j < |bi| ==> bi[i] != bi[j] || bo[i] != bo[j]
  }

  predicate Within(bi: seq<nat>, bo: seq<nat>, dm: Dims)
  {
    |bi| == |bo| && forall i :: 0 <= i < |bi| ==> bi[i] < dm.blocks && bo[i] < dm.block
  }

  predicate Named(bi: seq<nat>, bo: seq<nat>, b: nat, o: nat)
    requires |bi| == |bo|
  {
    exists i :: 0 <= i < |bi| && bi[i] == b && bo[i] == o
  }

  /** A slot counted from the front is its block and offset. */
  lemma SlotIsPlace(s: int, t: int, bs: nat, blocks: nat)
    requires Inside(s, bs, blocks) && Inside(t, bs, blocks)
    ensures FromFront(s, bs, blocks) == FromFront(t, bs, blocks) <==>
            BlockOf(s, bs, blocks) == BlockOf(t, bs, blocks) && OffsetOf(s, bs) == OffsetOf(t, bs)
  {
    PlaceOfFront(s, bs, blocks);
    PlaceOfFront(t, bs, blocks);
    DivModUnique(bs, BlockOf(s, bs, blocks), OffsetOf(s, bs), BlockOf(t, bs, blocks), OffsetOf(t, bs));
  }

  lemma PlaceOfFront(s: int, bs: nat, blocks: nat)
    requires Inside(s, bs, blocks)
    ensures FromFront(s, bs, blocks) == BlockOf(s, bs, blocks) * bs + OffsetOf(s, bs)
  {
    var q, o := s / bs, s % bs;
    assert s == q * bs + o;
    if s < 0 {
      assert q < 0 by { if q >= 0 { MulMono(0, q, bs); } }
      assert (q + blocks) * bs == q * bs + blocks * bs;
    } else {
      assert q >= 0;
    }
  }

  lemma DivModUnique(bs: nat, a: nat, o: nat, b: nat, u: nat)
    requires o < bs && u < bs
    ensures a * bs + o == b * bs + u <==> a == b && o == u
  {
    if a < b { MulMono(a + 1, b, bs); }
    if b < a { MulMono(b + 1, a, bs); }
  }

  // ---- repeated places ----

  /** When a place is listed more than once, which of its positions ends up there is not determined, not
      even from one element to the next: for plane, layer, block, offset and row element, the position
      whose row is stored. */
  type Winner = (nat, nat, nat, nat, nat) -> nat

  ghost predicate Wins(win: Winner, bi: seq<nat>, bo: seq<nat>)
    requires |bi| == |bo|
  {
    forall plane: nat, l: nat, i: nat, x: nat :: i < |bi| ==>
      var w := win(plane, l, bi[i], bo[i], x); w < |bi| && bi[w] == bi[i] && bo[w] == bo[i]
  }

  /** What winning asks of the bounds alone. */
  ghost predicate Picks(win: Winner, bi: seq<nat>, bo: seq<nat>)
    requires |bi| == |bo|
  {
    forall plane: nat, l: nat, i: nat, x: nat :: i < |bi| ==> win(plane, l, bi[i], bo[i], x) < |bi|
  }

  lemma WinsPick(win: Winner, bi: seq<nat>, bo: seq<nat>)
    requires |bi| == |bo| && Wins(win, bi, bo)
    ensures Picks(win, bi, bo)
  {}

  lemma PlacesWin(win: Winner, bi: seq<nat>, bo: seq<nat>)
    requires |bi| == |bo| && Wins(win, bi, bo) && Places(bi, bo)
    ensures forall plane: nat, l: nat, i: nat, x: nat :: i < |bi| ==> win(plane, l, bi[i], bo[i], x) == i
  {
    forall plane: nat, l: nat, i: nat, x: nat | i < |bi| ensures win(plane, l, bi[i], bo[i], x) == i {
      var w := win(plane, l, bi[i], bo[i], x);
      assert bi[w] == bi[i] && bo[w] == bo[i];
    }
  }

  /** Layer l of the pages holds host rows off, off + 1, ... at the named places. */
  ghost predicate LayerHolds<E>(layer: Layer<E>, dm: Dims, host: array4<E>, l: nat, off: nat, bi: seq<nat>, bo: seq<nat>)
    requires LayerShape(layer, dm) && host.Length0 == dm.planes && host.Length3 == dm.width
    requires l < host.Length1 && off + |bi| <= host.Length2 && Within(bi, bo, dm)
    reads Store(layer), host
  {
    forall plane: nat, i: nat, x: nat :: plane < dm.planes && i < |bi| && x < dm.width ==>
      LayerCell(layer, dm, plane, bi[i], bo[i], x) == host[plane, l, off + i, x]
  }

  /** Layer l of the pages holds at each named place, element by element, the row of the position that
      won it. */
  ghost predicate LayerWon<E>(layer: Layer<E>, dm: Dims, host: array4<E>, l: nat, off: nat, bi: seq<nat>, bo: seq<nat>, win: Winner)
    requires LayerShape(layer, dm) && host.Length0 == dm.planes && host.Length3 == dm.width
    requires l < host.Length1 && off + |bi| <= host.Length2 && Within(bi, bo, dm) && Wins(win, bi, bo)
    reads Store(layer), host
  {
    forall plane: nat, i: nat, x: nat :: plane < dm.planes && i < |bi| && x < dm.width ==>
      LayerCell(layer, dm, plane, bi[i], bo[i], x) == host[plane, l, off + win(plane, l, bi[i], bo[i], x), x]
  }

  /** Places that are not named hold what they held. */
  twostate predicate LayerKept<E>(layer: Layer<E>, dm: Dims, bi: seq<nat>, bo: seq<nat>)
    requires LayerShape(layer, dm) && |bi| == |bo|
    reads Store(layer)
  {
    forall plane: nat, b: nat, o: nat, x: nat :: InDims(dm, plane, b, o, x) && !Named(bi, bo, b, o) ==>
      LayerCell(layer, dm, plane, b, o, x) == old(LayerCell(layer, dm, plane, b, o, x))
  }

  /** The same on the layer's own tensor. */
  twostate predicate TensorKept<E>(layer: Layer<E>, bi: seq<nat>, bo: seq<nat>)
    requires |bi| == |bo|
    reads Store(layer)
  {
    match layer
    case Latent(rows) =>
      forall b: nat, o: nat, x: nat :: b < rows.Length0 && o < rows.Length1 && x < rows.Length2 && !Named(bi, bo, b, o) ==>
        rows[b, o, x] == old(rows[b, o, x])
    case PlanesFirst(pages) =>
      forall plane: nat, b: nat, o: nat, h: nat, d: nat ::
        plane < pages.Length0 && b < pages.Length1 && o < pages.Length2 && h < pages.Length3 && d < pages.Length4 && !Named(bi, bo, b, o) ==>
        pages[plane, b, o, h, d] == old(pages[plane, b, o, h, d])
    case BlocksFirst(pages) =>
      forall plane: nat, b: nat, o: nat, h: nat, d: nat ::
        plane < pages.Length1 && b < pages.Length0 && o < pages.Length2 && h < pages.Length3 && d < pages.Length4 && !Named(bi, bo, b, o) ==>
        pages[b, plane, o, h, d] == old(pages[b, plane, o, h, d])
  }

  /** And on the tensors of all layers. */
  twostate predicate TensorsKept<E>(p: Paged<E>, bi: seq<nat>, bo: seq<nat>)
    requires |bi| == |bo|
    reads Stores(p)
  {
    match p
    case Layers(layers) => forall l: nat :: l < |layers| ==> TensorKept(layers[l], bi, bo)
    case Fused(all) =>
      forall plane: nat, l: nat, b: nat, o: nat, h: nat, d: nat ::
        plane < all.Length2 && l < all.Length1 && b < all.Length0 && o < all.Length3 && h < all.Length4 && d < all.Length5
        && !Named(bi, bo, b, o) ==>
        all[b, l, plane, o, h, d] == old(all[b, l, plane, o, h, d])
  }

  /** Host rows from n on, and the rows of layers from l on, are what they were. */
  twostate predicate HostKept<E>(host: array4<E>, l: nat, n: nat)
    reads host
  {
    forall plane: nat, m: nat, i: nat, x: nat ::
      plane < host.Length0 && m < host.Length1 && i < host.Length2 && x < host.Length3 && (m >= l || i >= n) ==>
      host[plane, m, i, x] == old(host[plane, m, i, x])
  }

  method ScatterPlanesFirst<E>(pages: array5<E>, host: array4<E>, l: nat, off: nat, bi: seq<nat>, bo: seq<nat>, win: Winner,
                         hs: seq<nat>, ds: seq<nat>)
    requires pages.Length0 == 2 && pages as object != host as object && |bi| == |bo| && Picks(win, bi, bo) && Places(hs, ds)
    requires host.Length0 == 2 && l < host.Length1 && off + |bi| <= host.Length2 && |hs| == host.Length3
    requires Within(bi, bo, Dims(2, 0, pages.Length1, pages.Length2, 0)) && Within(hs, ds, Dims(2, 0, pages.Length3, pages.Length4, 0))
    modifies pages
    ensures forall plane: nat, i: nat, x: nat :: plane < 2 && i < |bi| && x < |hs| ==>
              pages[plane, bi[i], bo[i], hs[x], ds[x]] == host[plane, l, off + win(plane, l, bi[i], bo[i], x), x]
    ensures forall plane: nat, b: nat, o: nat, h: nat, d: nat ::
              plane < 2 && b < pages.Length1 && o < pages.Length2 && h < pages.Length3 && d < pages.Length4 && !Named(bi, bo, b, o) ==>
              pages[plane, b, o, h, d] == old(pages[plane, b, o, h, d])
  {
    forall plane: nat, i: nat, x: nat | plane < 2 && i < |bi| && x < |hs| {
      pages[plane, bi[i], bo[i], hs[x], ds[x]] := host[plane, l, off + win(plane, l, bi[i], bo[i], x), x];
    }
  }

  method ScatterBlocksFirst<E>(pages: array5<E>, host: array4<E>, l: nat, off: nat, bi: seq<nat>, bo: seq<nat>, win: Winner,
                         hs: seq<nat>, ds: seq<nat>)
    requires pages.Length1 == 2 && pages as object != host as object && |bi| == |bo| && Picks(win, bi, bo) && Places(hs, ds)
    requires host.Length0 == 2 && l < host.Length1 && off + |bi| <= host.Length2 && |hs| == host.Length3
    requires Within(bi, bo, Dims(2, 0, pages.Length0, pages.Length2, 0)) && Within(hs, ds, Dims(2, 0, pages.Length3, pages.Length4, 0))
    modifies pages
    ensures forall plane: nat, i: nat, x: nat :: plane < 2 && i < |bi| && x < |hs| ==>
              pages[bi[i], plane, bo[i], hs[x], ds[x]] == host[plane, l, off + win(plane, l, bi[i], bo[i], x), x]
    ensures forall plane: nat, b: nat, o: nat, h: nat, d: nat ::
              plane < 2 && b < pages.Length0 && o < pages.Length2 && h < pages.Length3 && d < pages.Length4 && !Named(bi, bo, b, o) ==>
              pages[b, plane, o, h, d] == old(pages[b, plane, o, h, d])
  {
    forall plane: nat, i: nat, x: nat | plane < 2 && i < |bi| && x < |hs| {
      pages[bi[i], plane, bo[i], hs[x], ds[x]] := host[plane, l, off + win(plane, l, bi[i], bo[i], x), x];
    }
  }

  method ScatterLatent<E>(rows: array3<E>, host: array4<E>, l: nat, off: nat, bi: seq<nat>, bo: seq<nat>, win: Winner)
    requires rows as object != host as object && |bi| == |bo| && Picks(win, bi, bo) && host.Length0 == 1 && host.Length3 == rows.Length2
    requires l < host.Length1 && off + |bi| <= host.Length2 && Within(bi, bo, Dims(1, 0, rows.Length0, rows.Length1, 0))
    modifies rows
    ensures forall i: nat, x: nat :: i < |bi| && x < rows.Length2 ==>
              rows[bi[i], bo[i], x] == host[0, l, off + win(0, l, bi[i], bo[i], x), x]
    ensures forall b: nat, o: nat, x: nat :: b < rows.Length0 && o < rows.Length1 && x < rows.Length2 && !Named(bi, bo, b, o) ==>
              rows[b, o, x] == old(rows[b, o, x])
  {
    forall i: nat, x: nat | i < |bi| && x < rows.Length2 {
      rows[bi[i], bo[i], x] := host[0, l, off + win(0, l, bi[i], bo[i], x), x];
    }
  }

  method ScatterLayer<E>(layer: Layer<E>, host: array4<E>, ghost dm: Dims, l: nat, off: nat, bi: seq<nat>, bo: seq<nat>, win: Winner)
    requires LayerShape(layer, dm) && host.Length0 == dm.planes && host.Length3 == dm.width
    requires l < host.Length1 && off + |bi| <= host.Length2 && Store(layer) != host
    requires Within(bi, bo, dm) && Wins(win, bi, bo)
    modifies Store(layer)
    ensures LayerWon(layer, dm, host, l, off, bi, bo, win) && LayerKept(layer, dm, bi, bo) && TensorKept(layer, bi, bo)
  {
    WinsPick(win, bi, bo);
    hide Wins, Picks, Places;
    match layer
    case Latent(rows) =>
      ScatterLatent(rows, host, l, off, bi, bo, win);
    case PlanesFirst(pages) =>
      Reshape(pages.Length3, pages.Length4);
      var hs, ds := HeadOf(host.Length3, pages.Length4), PositionOf(host.Length3, pages.Length4);
      ScatterPlanesFirst(pages, host, l, off, bi, bo, win, hs, ds);
    case BlocksFirst(pages) =>
      Reshape(pages.Length3, pages.Length4);
      var hs, ds := HeadOf(host.Length3, pages.Length4), PositionOf(host.Length3, pages.Length4);
      ScatterBlocksFirst(pages, host, l, off, bi, bo, win, hs, ds);
  }

  method GatherLayer<E>(layer: Layer<E>, host: array4<E>, ghost dm: Dims, l: nat, bi: seq<nat>, bo: seq<nat>)
    requires LayerShape(layer, dm) && host.Length0 == dm.planes && host.Length3 == dm.width
    requires l < host.Length1 && |bi| <= host.Length2 && Store(layer) != host && Within(bi, bo, dm)
    modifies host
    ensures LayerHolds(layer, dm, host, l, 0, bi, bo)
    ensures forall plane: nat, m: nat, i: nat, x: nat ::
              plane < host.Length0 && m < host.Length1 && i < host.Length2 && x < host.Length3 && (m != l || i >= |bi|) ==>
              host[plane, m, i, x] == old(host[plane, m, i, x])
  {
    match layer
    case Latent(rows) =>
      forall i: nat, x: nat | i < |bi| && x < rows.Length2 {
        host[0, l, i, x] := rows[bi[i], bo[i], x];
      }
    case PlanesFirst(pages) =>
      Reshape(pages.Length3, pages.Length4);
      var hs, ds := HeadOf(host.Length3, pages.Length4), PositionOf(host.Length3, pages.Length4);
      forall plane: nat, i: nat, x: nat | plane < 2 && i < |bi| && x < |hs| {
        host[plane, l, i, x] := pages[plane, bi[i], bo[i], hs[x], ds[x]];
      }
    case BlocksFirst(pages) =>
      Reshape(pages.Length3, pages.Length4);
      var hs, ds := HeadOf(host.Length3, pages.Length4), PositionOf(host.Length3, pages.Length4);
      forall plane: nat, i: nat, x: nat | plane < 2 && i < |bi| && x < |hs| {
        host[plane, l, i, x] := pages[bi[i], plane, bo[i], hs[x], ds[x]];
      }
  }

  ghost predicate LayersApart<E>(layers: seq<Layer<E>>, host: array4<E>)
  {
    && (forall l :: 0 <= l < |layers| ==> Store(layers[l]) != host)
    && (forall l, m :: 0 <= l < m < |layers| ==> Store(layers[l]) != Store(layers[m]))
  }

  method ScatterLayers<E>(layers: seq<Layer<E>>, host: array4<E>, ghost dm: Dims, off: nat, bi: seq<nat>, bo: seq<nat>, win: Winner)
    requires Shape(Layers(layers), dm) && LayersApart(layers, host)
    requires host.Length0 == dm.planes && host.Length1 == dm.layers && host.Length3 == dm.width
    requires off + |bi| <= host.Length2 && Within(bi, bo, dm) && Wins(win, bi, bo)
    modifies Stores(Layers(layers))
    ensures forall l: nat :: l < dm.layers ==> LayerWon(layers[l], dm, host, l, off, bi, bo, win) && LayerKept(layers[l], dm, bi, bo)
    ensures TensorsKept(Layers(layers), bi, bo)
  {
    hide Wins, LayerWon;
    for l := 0 to |layers|
      invariant forall m: nat :: m < l ==> LayerWon(layers[m], dm, host, m, off, bi, bo, win) && LayerKept(layers[m], dm, bi, bo)
      invariant forall m: nat :: m < l ==> TensorKept(layers[m], bi, bo)
      invariant forall m: nat :: l <= m < |layers| ==> unchanged(Store(layers[m]))
    {
      ScatterLayer(layers[l], host, dm, l, off, bi, bo, win);
    }
  }

  method GatherLayers<E>(layers: seq<Layer<E>>, host: array4<E>, ghost dm: Dims, bi: seq<nat>, bo: seq<nat>)
    requires Shape(Layers(layers), dm) && LayersApart(layers, host)
    requires host.Length0 == dm.planes && host.Length1 == dm.layers && host.Length3 == dm.width
    requires |bi| <= host.Length2 && Within(bi, bo, dm)
    modifies host
    ensures forall l: nat :: l < dm.layers ==> LayerHolds(layers[l], dm, host, l, 0, bi, bo)
    ensures HostKept(host, dm.layers, |bi|)
  {
    for l := 0 to |layers|
      invariant forall m: nat :: m < l ==> LayerHolds(layers[m], dm, host, m, 0, bi, bo)
      invariant HostKept(host, l, |bi|)
    {
      GatherLayer(layers[l], host, dm, l, bi, bo);
    }
  }

  method ScatterSix<E>(all: array6<E>, host: array4<E>, off: nat, bi: seq<nat>, bo: seq<nat>, win: Winner, hs: seq<nat>, ds: seq<nat>)
    requires all.Length2 == 2 && all as object != host as object && |bi| == |bo| && Picks(win, bi, bo) && Places(hs, ds)
    requires host.Length0 == 2 && host.Length1 == all.Length1 && off + |bi| <= host.Length2 && |hs| == host.Length3
    requires Within(bi, bo, Dims(2, 0, all.Length0, all.Length3, 0)) && Within(hs, ds, Dims(2, 0, all.Length4, all.Length5, 0))
    modifies all
    ensures forall plane: nat, l: nat, i: nat, x: nat :: plane < 2 && l < all.Length1 && i < |bi| && x < |hs| ==>
              all[bi[i], l, plane, bo[i], hs[x], ds[x]] == host[plane, l, off + win(plane, l, bi[i], bo[i], x), x]
    ensures forall plane: nat, l: nat, b: nat, o: nat, h: nat, d: nat ::
              plane < 2 && l < all.Length1 && b < all.Length0 && o < all.Length3 && h < all.Length4 && d < all.Length5
              && !Named(bi, bo, b, o) ==>
              all[b, l, plane, o, h, d] == old(all[b, l, plane, o, h, d])
  {
    forall plane: nat, l: nat, i: nat, x: nat | plane < 2 && l < all.Length1 && i < |bi| && x < |hs| {
      all[bi[i], l, plane, bo[i], hs[x], ds[x]] := host[plane, l, off + win(plane, l, bi[i], bo[i], x), x];
    }
  }

  method ScatterFused<E>(all: array6<E>, host: array4<E>, ghost dm: Dims, off: nat, bi: seq<nat>, bo: seq<nat>, win: Winner)
    requires Shape(Fused(all), dm) && all as object != host as object
    requires host.Length0 == dm.planes && host.Length1 == dm.layers && host.Length3 == dm.width
    requires off + |bi| <= host.Length2 && Within(bi, bo, dm) && Wins(win, bi, bo)
    modifies all
    ensures forall plane: nat, l: nat, i: nat, x: nat :: plane < dm.planes && l < dm.layers && i < |bi| && x < dm.width ==>
              Cell(Fused(all), dm, plane, l, bi[i], bo[i], x) == host[plane, l, off + win(plane, l, bi[i], bo[i], x), x]
    ensures forall plane: nat, l: nat, b: nat, o: nat, x: nat :: InDims(dm, plane, b, o, x) && l < dm.layers && !Named(bi, bo, b, o) ==>
              Cell(Fused(all), dm, plane, l, b, o, x) == old(Cell(Fused(all), dm, plane, l, b, o, x))
    ensures TensorsKept(Fused(all), bi, bo)
  {
    Reshape(all.Length4, all.Length5);
    var hs, ds := HeadOf(host.Length3, all.Length5), PositionOf(host.Length3, all.Length5);
    WinsPick(win, bi, bo);
    hide Wins, Picks, Places;
    ScatterSix(all, host, off, bi, bo, win, hs, ds);
  }

  method GatherFused<E>(all: array6<E>, host: array4<E>, ghost dm: Dims, bi: seq<nat>, bo: seq<nat>)
    requires Shape(Fused(all), dm) && all as object != host as object
    requires host.Length0 == dm.planes && host.Length1 == dm.layers && host.Length3 == dm.width
    requires |bi| <= host.Length2 && Within(bi, bo, dm)
    modifies host
    ensures forall plane: nat, l: nat, i: nat, x: nat :: plane < dm.planes && l < dm.layers && i < |bi| && x < dm.width ==>
              Cell(Fused(all), dm, plane, l, bi[i], bo[i], x) == host[plane, l, i, x]
    ensures HostKept(host, dm.layers, |bi|)
  {
    Reshape(all.Length4, all.Length5);
    var hs, ds := HeadOf(host.Length3, all.Length5), PositionOf(host.Length3, all.Length5);
    forall plane: nat, l: nat, i: nat, x: nat | plane < 2 && l < all.Length1 && i < |bi| && x < |hs| {
      host[plane, l, i, x] := all[bi[i], l, plane, bo[i], hs[x], ds[x]];
    }
  }

  // ---- the whole transfer ----

  function Blocks(slots: seq<int>, bs: nat, blocks: nat): seq<nat>
    requires AllInside(slots, bs, blocks)
  {
    seq(|slots|, i requires 0 <= i < |slots| => BlockOf(slots[i], bs, blocks))
  }

  function Offsets(slots: seq<int>, bs: nat): seq<nat>
    requires bs > 0
  {
    seq(|slots|, i requires 0 <= i < |slots| => OffsetOf(slots[i], bs))
  }

  /** The slots a call moves: storing into pages skips a prefix, reading from them does not. */
  function Moved(slots: seq<int>, dir: Direction, skip: nat): seq<int>
  {
    if dir.D2H? then slots else if skip <= |slots| then slots[skip..] else []
  }

  predicate Fits<E>(fmt: Format, p: Paged<E>)
  {
    match fmt
    case NB_NL_TWO_BS_NH_HS => p.Fused?
    case NL_X_NB_BS_HS => p.Layers? && forall l :: 0 <= l < |p.layers| ==> p.layers[l].Latent?
    case NL_X_TWO_NB_BS_NH_HS => p.Layers? && forall l :: 0 <= l < |p.layers| ==> p.layers[l].PlanesFirst?
    case NL_X_NB_TWO_BS_NH_HS => p.Layers? && forall l :: 0 <= l < |p.layers| ==> p.layers[l].BlocksFirst?
    case _ => p.Layers?
  }

  predicate Supported(fmt: Format) { !fmt.TWO_X_NL_X_NBBS_NH_HS? && !fmt.NL_X_NBBS_ONE_HS? }

  /** Place (bi[i], bo[i]) holds host row off + i, in every plane and layer. */
  ghost predicate Holds<E>(p: Paged<E>, dm: Dims, host: array4<E>, off: nat, bi: seq<nat>, bo: seq<nat>)
    requires Shape(p, dm) && Within(bi, bo, dm)
    requires host.Length0 == dm.planes && host.Length1 == dm.layers && host.Length3 == dm.width && off + |bi| <= host.Length2
    reads Stores(p), host
  {
    forall plane: nat, l: nat, i: nat, x: nat :: plane < dm.planes && l < dm.layers && i < |bi| && x < dm.width ==>
      Cell(p, dm, plane, l, bi[i], bo[i], x) == host[plane, l, off + i, x]
  }

  /** Each named place holds, element by element, the host row of the position that won it. */
  ghost predicate Won<E>(p: Paged<E>, dm: Dims, host: array4<E>, off: nat, bi: seq<nat>, bo: seq<nat>, win: Winner)
    requires Shape(p, dm) && Within(bi, bo, dm) && Wins(win, bi, bo)
    requires host.Length0 == dm.planes && host.Length1 == dm.layers && host.Length3 == dm.width && off + |bi| <= host.Length2
    reads Stores(p), host
  {
    forall plane: nat, l: nat, i: nat, x: nat :: plane < dm.planes && l < dm.layers && i < |bi| && x < dm.width ==>
      Cell(p, dm, plane, l, bi[i], bo[i], x) == host[plane, l, off + win(plane, l, bi[i], bo[i], x), x]
  }

  /** Places that are not named hold what they held. */
  twostate predicate Kept<E>(p: Paged<E>, dm: Dims, bi: seq<nat>, bo: seq<nat>)
    requires Shape(p, dm) && |bi| == |bo|
    reads Stores(p)
  {
    forall plane: nat, l: nat, b: nat, o: nat, x: nat ::
      InDims(dm, plane, b, o, x) && l < dm.layers && !Named(bi, bo, b, o) ==>
      Cell(p, dm, plane, l, b, o, x) == old(Cell(p, dm, plane, l, b, o, x))
  }

  lemma DistinctPlaces(slots: seq<int>, bs: nat, blocks: nat)
    requires bs > 0 && AllInside(slots, bs, blocks) && Distinct(slots, bs, blocks)
    ensures Places(Blocks(slots, bs, blocks), Offsets(slots, bs))
  {
    hide FromFront, BlockOf, OffsetOf, Inside;
    forall i, j | 0 <= i < j < |slots|
      ensures BlockOf(slots[i], bs, blocks) != BlockOf(slots[j], bs, blocks) || OffsetOf(slots[i], bs) != OffsetOf(slots[j], bs)
    {
      SlotIsPlace(slots[i], slots[j], bs, blocks);
    }
  }

  ghost predicate HostFits<E>(host: array4<E>, p: Paged<E>, dm: Dims, n: nat)
  {
    && host.Length0 == dm.planes && host.Length1 == dm.layers && host.Length3 == dm.width
    && n <= host.Length2 && host !in Stores(p)
  }

  /** The slots lie in the pages. */
  predicate InPages(slots: seq<int>, bs: int, dm: Dims)
  {
    bs > 0 ==> AllInside(slots, bs, dm.blocks) && Within(Blocks(slots, bs, dm.blocks), Offsets(slots, bs), dm)
  }

  method StorePages<E>(host: array4<E>, p: Paged<E>, ghost dm: Dims, off: nat, bi: seq<nat>, bo: seq<nat>, win: Winner)
    requires Shape(p, dm) && HostFits(host, p, dm, off + |bi|) && Within(bi, bo, dm) && Wins(win, bi, bo)
    modifies Stores(p)
    ensures Won(p, dm, host, off, bi, bo, win) && Kept(p, dm, bi, bo) && TensorsKept(p, bi, bo)
  {
    match p
    case Fused(all) => ScatterFused(all, host, dm, off, bi, bo, win);
    case Layers(layers) => ScatterLayers(layers, host, dm, off, bi, bo, win);
  }

  method LoadPages<E>(host: array4<E>, p: Paged<E>, ghost dm: Dims, bi: seq<nat>, bo: seq<nat>)
    requires Shape(p, dm) && HostFits(host, p, dm, |bi|) && Within(bi, bo, dm)
    modifies host
    ensures Holds(p, dm, host, 0, bi, bo) && HostKept(host, dm.layers, |bi|)
  {
    match p
    case Fused(all) => GatherFused(all, host, dm, bi, bo);
    case Layers(layers) => GatherLayers(layers, host, dm, bi, bo);
  }

  // ---- the same on the tensors themselves ----

  /** Position d of head h is element h * size + d of a row. */
  lemma RowMajor(heads: nat, size: nat, h: nat, d: nat)
    requires h < heads && d < size
    ensures h * size + d < heads * size
    ensures HeadOf(heads * size, size)[h * size + d] == h && PositionOf(heads * size, size)[h * size + d] == d
  {
    InRow(heads, size, h, d);
    var x := h * size + d;
    DivModUnique(size, x / size, x % size, h, d);
  }

  lemma InRow(heads: nat, size: nat, h: nat, d: nat)
    requires h < heads && d < size
    ensures h * size + d < heads * size
  {
    MulMono(h + 1, heads, size);
  }

  /** The slot is offset o of block b, counted from the front or from the end. */
  predicate SlotAt(slot: int, bs: nat, blocks: nat, b: nat, o: nat)
  {
    b < blocks && o < bs && (slot == b * bs + o || slot + blocks * bs == b * bs + o)
  }

  lemma SlotIsAt(slot: int, bs: nat, blocks: nat, b: nat, o: nat)
    requires Inside(slot, bs, blocks)
    ensures SlotAt(slot, bs, blocks, b, o) <==> BlockOf(slot, bs, blocks) == b && OffsetOf(slot, bs) == o
  {
    PlaceOfFront(slot, bs, blocks);
    SlotRange(slot, bs, blocks);
    if b < blocks && o < bs {
      DivModUnique(bs, BlockOf(slot, bs, blocks), OffsetOf(slot, bs), b, o);
      InRow(blocks, bs, b, o);
    }
  }

  lemma SlotRange(slot: int, bs: nat, blocks: nat)
    requires bs > 0
    ensures Inside(slot, bs, blocks) <==> -(blocks * bs) <= slot < blocks * bs
  {
    var q := slot / bs;
    assert slot == q * bs + slot % bs;
    if q < blocks { MulMono(q + 1, blocks, bs); } else { MulMono(blocks, q, bs); }
    var low: int := 0 - (blocks as int);
    if low <= q { MulMono(low, q, bs); } else { MulMono(q + 1, low, bs); }
  }

  /** Slots lie in the pages when they count a token of some block from the front or from the end. */
  lemma InPagesMeans(slots: seq<int>, bs: nat, dm: Dims)
    requires bs > 0
    ensures InPages(slots, bs, dm) <==>
            forall i :: 0 <= i < |slots| ==> -(dm.blocks * bs) <= slots[i] < dm.blocks * bs && slots[i] % bs < dm.block
  {
    forall i | 0 <= i < |slots| ensures Inside(slots[i], bs, dm.blocks) <==> -(dm.blocks * bs) <= slots[i] < dm.blocks * bs {
      SlotRange(slots[i], bs, dm.blocks);
    }
    hide Inside;
    if AllInside(slots, bs, dm.blocks) {
      forall i | 0 <= i < |slots| ensures Blocks(slots, bs, dm.blocks)[i] < dm.blocks && Offsets(slots, bs)[i] == slots[i] % bs {
        BlockInRange(slots[i], bs, dm.blocks);
      }
    }
  }

  lemma BlockInRange(slot: int, bs: nat, blocks: nat)
    requires Inside(slot, bs, blocks)
    ensures BlockOf(slot, bs, blocks) < blocks
  {}

  /** Row i of layer l of the host holds, in row-major order, what the layer's own tensor holds at slot i. */
  ghost predicate LayerLoaded<E>(layer: Layer<E>, dm: Dims, host: array4<E>, l: nat, slots: seq<int>, bs: nat)
    requires LayerShape(layer, dm) && host.Length0 == dm.planes && host.Length3 == dm.width && l < host.Length1 && |slots| <= host.Length2
    reads Store(layer), host
  {
    match layer
    case Latent(rows) =>
      forall i: nat, b: nat, o: nat, x: nat ::
        i < |slots| && SlotAt(slots[i], bs, rows.Length0, b, o) && o < rows.Length1 && x < rows.Length2 ==>
        host[0, l, i, x] == rows[b, o, x]
    case PlanesFirst(pages) =>
      forall plane: nat, i: nat, b: nat, o: nat, h: nat, d: nat ::
        plane < 2 && i < |slots| && SlotAt(slots[i], bs, pages.Length1, b, o) && o < pages.Length2 && h < pages.Length3 && d < pages.Length4 ==>
        (InRow(pages.Length3, pages.Length4, h, d); host[plane, l, i, h * pages.Length4 + d] == pages[plane, b, o, h, d])
    case BlocksFirst(pages) =>
      forall plane: nat, i: nat, b: nat, o: nat, h: nat, d: nat ::
        plane < 2 && i < |slots| && SlotAt(slots[i], bs, pages.Length0, b, o) && o < pages.Length2 && h < pages.Length3 && d < pages.Length4 ==>
        (InRow(pages.Length3, pages.Length4, h, d); host[plane, l, i, h * pages.Length4 + d] == pages[b, plane, o, h, d])
  }

  ghost predicate TensorsLoaded<E>(p: Paged<E>, dm: Dims, host: array4<E>, slots: seq<int>, bs: nat)
    requires Shape(p, dm) && HostFits(host, p, dm, |slots|)
    reads Stores(p), host
  {
    match p
    case Layers(layers) => forall l: nat :: l < |layers| ==> LayerLoaded(layers[l], dm, host, l, slots, bs)
    case Fused(all) =>
      forall plane: nat, l: nat, i: nat, b: nat, o: nat, h: nat, d: nat ::
        plane < 2 && l < all.Length1 && i < |slots| && SlotAt(slots[i], bs, all.Length0, b, o) && o < all.Length3
        && h < all.Length4 && d < all.Length5 ==>
        (InRow(all.Length4, all.Length5, h, d); host[plane, l, i, h * all.Length5 + d] == all[b, l, plane, o, h, d])
  }

  lemma PlaceOfSlot(slots: seq<int>, bs: nat, dm: Dims)
    requires bs > 0 && InPages(slots, bs, dm)
    ensures forall i: nat, b: nat, o: nat :: i < |slots| && SlotAt(slots[i], bs, dm.blocks, b, o) ==>
              Blocks(slots, bs, dm.blocks)[i] == b && Offsets(slots, bs)[i] == o
  {
    hide Inside, BlockOf, OffsetOf;
    forall i: nat, b: nat, o: nat | i < |slots| && SlotAt(slots[i], bs, dm.blocks, b, o)
      ensures Blocks(slots, bs, dm.blocks)[i] == b && Offsets(slots, bs)[i] == o {
      SlotIsAt(slots[i], bs, dm.blocks, b, o);
    }
  }

  lemma LatentRowMajor<E>(layer: Layer<E>, dm: Dims, host: array4<E>, l: nat, slots: seq<int>, bs: nat)
    requires layer.Latent? && LayerShape(layer, dm) && host.Length0 == dm.planes && host.Length3 == dm.width
    requires l < host.Length1 && |slots| <= host.Length2 && bs > 0 && InPages(slots, bs, dm)
    requires LayerHolds(layer, dm, host, l, 0, Blocks(slots, bs, dm.blocks), Offsets(slots, bs))
    ensures LayerLoaded(layer, dm, host, l, slots, bs)
  {
    PlaceOfSlot(slots, bs, dm);
    hide SlotAt, Inside, BlockOf, OffsetOf;
    var bi, bo, rows := Blocks(slots, bs, dm.blocks), Offsets(slots, bs), layer.rows;
    forall i: nat, b: nat, o: nat, x: nat | i < |slots| && SlotAt(slots[i], bs, rows.Length0, b, o) && o < rows.Length1 && x < rows.Length2
      ensures host[0, l, i, x] == rows[b, o, x] {
      assert LayerCell(layer, dm, 0, bi[i], bo[i], x) == host[0, l, 0 + i, x];
    }
  }

  lemma PlanesRowMajor<E>(layer: Layer<E>, dm: Dims, host: array4<E>, l: nat, slots: seq<int>, bs: nat)
    requires layer.PlanesFirst? && LayerShape(layer, dm) && host.Length0 == dm.planes && host.Length3 == dm.width
    requires l < host.Length1 && |slots| <= host.Length2 && bs > 0 && InPages(slots, bs, dm)
    requires LayerHolds(layer, dm, host, l, 0, Blocks(slots, bs, dm.blocks), Offsets(slots, bs))
    ensures LayerLoaded(layer, dm, host, l, slots, bs)
  {
    PlaceOfSlot(slots, bs, dm);
    hide SlotAt, Inside, BlockOf, OffsetOf, HeadOf, PositionOf;
    var bi, bo, pages := Blocks(slots, bs, dm.blocks), Offsets(slots, bs), layer.pages;
    forall plane: nat, i: nat, b: nat, o: nat, h: nat, d: nat
      | plane < 2 && i < |slots| && SlotAt(slots[i], bs, pages.Length1, b, o) && o < pages.Length2 && h < pages.Length3 && d < pages.Length4
      ensures h * pages.Length4 + d < host.Length3 && host[plane, l, i, h * pages.Length4 + d] == pages[plane, b, o, h, d] {
      RowMajor(pages.Length3, pages.Length4, h, d);
      assert LayerCell(layer, dm, plane, bi[i], bo[i], h * pages.Length4 + d) == host[plane, l, 0 + i, h * pages.Length4 + d];
    }
  }

  lemma BlocksRowMajor<E>(layer: Layer<E>, dm: Dims, host: array4<E>, l: nat, slots: seq<int>, bs: nat)
    requires layer.BlocksFirst? && LayerShape(layer, dm) && host.Length0 == dm.planes && host.Length3 == dm.width
    requires l < host.Length1 && |slots| <= host.Length2 && bs > 0 && InPages(slots, bs, dm)
    requires LayerHolds(layer, dm, host, l, 0, Blocks(slots, bs, dm.blocks), Offsets(slots, bs))
    ensures LayerLoaded(layer, dm, host, l, slots, bs)
  {
    PlaceOfSlot(slots, bs, dm);
    hide SlotAt, Inside, BlockOf, OffsetOf, HeadOf, PositionOf;
    var bi, bo, pages := Blocks(slots, bs, dm.blocks), Offsets(slots, bs), layer.pages;
    forall plane: nat, i: nat, b: nat, o: nat, h: nat, d: nat
      | plane < 2 && i < |slots| && SlotAt(slots[i], bs, pages.Length0, b, o) && o < pages.Length2 && h < pages.Length3 && d < pages.Length4
      ensures h * pages.Length4 + d < host.Length3 && host[plane, l, i, h * pages.Length4 + d] == pages[b, plane, o, h, d] {
      RowMajor(pages.Length3, pages.Length4, h, d);
      assert LayerCell(layer, dm, plane, bi[i], bo[i], h * pages.Length4 + d) == host[plane, l, 0 + i, h * pages.Length4 + d];
    }
  }

  lemma LayerRowMajor<E>(layer: Layer<E>, dm: Dims, host: array4<E>, l: nat, slots: seq<int>, bs: nat)
    requires LayerShape(layer, dm) && host.Length0 == dm.planes && host.Length3 == dm.width && l < host.Length1 && |slots| <= host.Length2
    requires bs > 0 && InPages(slots, bs, dm)
    requires LayerHolds(layer, dm, host, l, 0, Blocks(slots, bs, dm.blocks), Offsets(slots, bs))
    ensures LayerLoaded(layer, dm, host, l, slots, bs)
  {
    hide LayerHolds, LayerLoaded, LayerShape;
    match layer
    case Latent(_) => LatentRowMajor(layer, dm, host, l, slots, bs);
    case PlanesFirst(_) => PlanesRowMajor(layer, dm, host, l, slots, bs);
    case BlocksFirst(_) => BlocksRowMajor(layer, dm, host, l, slots, bs);
  }

  /** Gathered rows are the tensors' own elements, in row-major order. */
  lemma RowsAreRowMajor<E>(p: Paged<E>, dm: Dims, host: array4<E>, slots: seq<int>, bs: nat)
    requires Shape(p, dm) && HostFits(host, p, dm, |slots|) && bs > 0 && InPages(slots, bs, dm)
    requires Holds(p, dm, host, 0, Blocks(slots, bs, dm.blocks), Offsets(slots, bs))
    ensures TensorsLoaded(p, dm, host, slots, bs)
  {
    var bi, bo := Blocks(slots, bs, dm.blocks), Offsets(slots, bs);
    match p
    case Layers(layers) =>
      forall l: nat | l < |layers| ensures LayerLoaded(layers[l], dm, host, l, slots, bs) {
        assert LayerHolds(layers[l], dm, host, l, 0, bi, bo) by {
          forall plane: nat, i: nat, x: nat | plane < dm.planes && i < |bi| && x < dm.width
            ensures LayerCell(layers[l], dm, plane, bi[i], bo[i], x) == host[plane, l, 0 + i, x] {
            HoldsAt(p, dm, host, 0, bi, bo, plane, l, i, x);
          }
        }
        hide Holds, LayerHolds, LayerLoaded;
        LayerRowMajor(layers[l], dm, host, l, slots, bs);
      }
    case Fused(all) =>
      forall plane: nat, l: nat, i: nat, b: nat, o: nat, h: nat, d: nat
        | plane < 2 && l < all.Length1 && i < |slots| && SlotAt(slots[i], bs, all.Length0, b, o) && o < all.Length3
          && h < all.Length4 && d < all.Length5
        ensures h * all.Length5 + d < host.Length3 && host[plane, l, i, h * all.Length5 + d] == all[b, l, plane, o, h, d] {
        SlotIsAt(slots[i], bs, dm.blocks, b, o);
        RowMajor(all.Length4, all.Length5, h, d);
        HoldsAt(p, dm, host, 0, bi, bo, plane, l, i, h * all.Length5 + d);
      }
  }

  /** The place is the slot's of some position. */
  predicate Listed(slots: seq<int>, bs: nat, blocks: nat, b: nat, o: nat)
  {
    exists i: nat :: i < |slots| && SlotAt(slots[i], bs, blocks, b, o)
  }

  lemma NamedIsListed(slots: seq<int>, bs: nat, dm: Dims, b: nat, o: nat)
    requires bs > 0 && InPages(slots, bs, dm)
    ensures Named(Blocks(slots, bs, dm.blocks), Offsets(slots, bs), b, o) <==> Listed(slots, bs, dm.blocks, b, o)
  {
    hide Inside, BlockOf, OffsetOf, SlotAt;
    forall i: nat | i < |slots|
      ensures SlotAt(slots[i], bs, dm.blocks, b, o) <==> Blocks(slots, bs, dm.blocks)[i] == b && Offsets(slots, bs)[i] == o {
      SlotIsAt(slots[i], bs, dm.blocks, b, o);
    }
  }

  lemma WinnerIsListed(win: Winner, slots: seq<int>, bs: nat, dm: Dims, plane: nat, l: nat, b: nat, o: nat, x: nat)
    requires bs > 0 && InPages(slots, bs, dm) && Wins(win, Blocks(slots, bs, dm.blocks), Offsets(slots, bs))
    requires Listed(slots, bs, dm.blocks, b, o)
    ensures var w := win(plane, l, b, o, x); w < |slots| && SlotAt(slots[w], bs, dm.blocks, b, o)
  {
    hide Inside, BlockOf, OffsetOf, SlotAt;
    var i: nat :| i < |slots| && SlotAt(slots[i], bs, dm.blocks, b, o);
    SlotIsAt(slots[i], bs, dm.blocks, b, o);
    var bi, bo := Blocks(slots, bs, dm.blocks), Offsets(slots, bs);
    assert bi[i] == b && bo[i] == o;
    var w := win(plane, l, bi[i], bo[i], x);
    assert w < |bi| && bi[w] == b && bo[w] == o;
    SlotIsAt(slots[w], bs, dm.blocks, b, o);
  }

  /** The value is element x of the host row that won the place, the row of one of its positions. */
  ghost predicate RowAt<E>(host: array4<E>, win: Winner, slots: seq<int>, bs: nat, blocks: nat, off: nat,
                           plane: nat, l: nat, b: nat, o: nat, x: nat, value: E)
    requires plane < host.Length0 && l < host.Length1 && x < host.Length3 && off + |slots| <= host.Length2
    reads host
  {
    var w := win(plane, l, b, o, x);
    w < |slots| && SlotAt(slots[w], bs, blocks, b, o) && value == host[plane, l, off + w, x]
  }

  /** Every element of the layer's own tensor at a listed place is that of the winning row, in row-major order. */
  ghost predicate LayerStored<E>(layer: Layer<E>, dm: Dims, host: array4<E>, l: nat, off: nat, slots: seq<int>, bs: nat, win: Winner)
    requires LayerShape(layer, dm) && host.Length0 == dm.planes && host.Length3 == dm.width
    requires l < host.Length1 && off + |slots| <= host.Length2
    reads Store(layer), host
  {
    match layer
    case Latent(rows) =>
      forall b: nat, o: nat, x: nat :: b < rows.Length0 && o < rows.Length1 && x < rows.Length2 && Listed(slots, bs, rows.Length0, b, o) ==>
        RowAt(host, win, slots, bs, rows.Length0, off, 0, l, b, o, x, rows[b, o, x])
    case PlanesFirst(pages) =>
      forall plane: nat, b: nat, o: nat, h: nat, d: nat ::
        plane < 2 && b < pages.Length1 && o < pages.Length2 && h < pages.Length3 && d < pages.Length4
        && Listed(slots, bs, pages.Length1, b, o) ==>
        (InRow(pages.Length3, pages.Length4, h, d);
         RowAt(host, win, slots, bs, pages.Length1, off, plane, l, b, o, h * pages.Length4 + d, pages[plane, b, o, h, d]))
    case BlocksFirst(pages) =>
      forall plane: nat, b: nat, o: nat, h: nat, d: nat ::
        plane < 2 && b < pages.Length0 && o < pages.Length2 && h < pages.Length3 && d < pages.Length4
        && Listed(slots, bs, pages.Length0, b, o) ==>
        (InRow(pages.Length3, pages.Length4, h, d);
         RowAt(host, win, slots, bs, pages.Length0, off, plane, l, b, o, h * pages.Length4 + d, pages[b, plane, o, h, d]))
  }

  ghost predicate TensorsStored<E>(p: Paged<E>, dm: Dims, host: array4<E>, off: nat, slots: seq<int>, bs: nat, win: Winner)
    requires Shape(p, dm) && HostFits(host, p, dm, off + |slots|)
    reads Stores(p), host
  {
    match p
    case Layers(layers) => forall l: nat :: l < |layers| ==> LayerStored(layers[l], dm, host, l, off, slots, bs, win)
    case Fused(all) =>
      forall plane: nat, l: nat, b: nat, o: nat, h: nat, d: nat ::
        plane < 2 && l < all.Length1 && b < all.Length0 && o < all.Length3 && h < all.Length4 && d < all.Length5
        && Listed(slots, bs, all.Length0, b, o) ==>
        (InRow(all.Length4, all.Length5, h, d);
         RowAt(host, win, slots, bs, all.Length0, off, plane, l, b, o, h * all.Length5 + d, all[b, l, plane, o, h, d]))
  }

  /** Element h * size + d of a row at a place is position d of head h of the tensor there. */
  lemma LayerElement<E>(layer: Layer<E>, dm: Dims, plane: nat, b: nat, o: nat, h: nat, d: nat)
    requires LayerShape(layer, dm) && !layer.Latent? && plane < dm.planes && b < dm.blocks && o < dm.block
    requires h < layer.pages.Length3 && d < layer.pages.Length4
    ensures var x := h * layer.pages.Length4 + d;
            InDims(dm, plane, b, o, x)
            && LayerCell(layer, dm, plane, b, o, x)
               == if layer.PlanesFirst? then layer.pages[plane, b, o, h, d] else layer.pages[b, plane, o, h, d]
  {
    RowMajor(layer.pages.Length3, layer.pages.Length4, h, d);
  }

  /** What a listed place holds after a store. */
  lemma ListedCell<E>(p: Paged<E>, dm: Dims, host: array4<E>, off: nat, slots: seq<int>, bs: nat, win: Winner,
                      plane: nat, l: nat, b: nat, o: nat, x: nat)
    requires Shape(p, dm) && HostFits(host, p, dm, off + |slots|) && bs > 0 && InPages(slots, bs, dm)
    requires Wins(win, Blocks(slots, bs, dm.blocks), Offsets(slots, bs))
    requires Won(p, dm, host, off, Blocks(slots, bs, dm.blocks), Offsets(slots, bs), win)
    requires l < dm.layers && InDims(dm, plane, b, o, x) && Listed(slots, bs, dm.blocks, b, o)
    ensures RowAt(host, win, slots, bs, dm.blocks, off, plane, l, b, o, x, Cell(p, dm, plane, l, b, o, x))
  {
    hide Cell, Shape, SlotAt, Wins, Won;
    var bi, bo := Blocks(slots, bs, dm.blocks), Offsets(slots, bs);
    NamedIsListed(slots, bs, dm, b, o);
    WinnerIsListed(win, slots, bs, dm, plane, l, b, o, x);
    var i: nat :| i < |bi| && bi[i] == b && bo[i] == o;
    WonAt(p, dm, host, off, bi, bo, win, plane, l, i, x);
  }

  lemma ListedElement<E>(p: Paged<E>, dm: Dims, host: array4<E>, l: nat, off: nat, slots: seq<int>, bs: nat, win: Winner,
                         plane: nat, b: nat, o: nat, h: nat, d: nat)
    requires Shape(p, dm) && HostFits(host, p, dm, off + |slots|) && bs > 0 && InPages(slots, bs, dm)
    requires Wins(win, Blocks(slots, bs, dm.blocks), Offsets(slots, bs)) && p.Layers? && l < |p.layers| && !p.layers[l].Latent?
    requires Won(p, dm, host, off, Blocks(slots, bs, dm.blocks), Offsets(slots, bs), win)
    requires plane < 2 && b < dm.blocks && o < dm.block && h < p.layers[l].pages.Length3 && d < p.layers[l].pages.Length4
    requires Listed(slots, bs, dm.blocks, b, o)
    ensures var layer := p.layers[l];
            var x := h * layer.pages.Length4 + d;
            x < dm.width
            && RowAt(host, win, slots, bs, dm.blocks, off, plane, l, b, o, x,
                     if layer.PlanesFirst? then layer.pages[plane, b, o, h, d] else layer.pages[b, plane, o, h, d])
  {
    hide Wins, Won, InPages, Listed, RowAt, LayerCell;
    LayerElement(p.layers[l], dm, plane, b, o, h, d);
    ListedCell(p, dm, host, off, slots, bs, win, plane, l, b, o, h * p.layers[l].pages.Length4 + d);
  }

  /** Stored rows are the elements of the layer's tensor. */
  lemma LayerIsStored<E>(p: Paged<E>, dm: Dims, host: array4<E>, l: nat, off: nat, slots: seq<int>, bs: nat, win: Winner)
    requires Shape(p, dm) && HostFits(host, p, dm, off + |slots|) && bs > 0 && InPages(slots, bs, dm)
    requires Wins(win, Blocks(slots, bs, dm.blocks), Offsets(slots, bs)) && p.Layers? && l < |p.layers|
    requires Won(p, dm, host, off, Blocks(slots, bs, dm.blocks), Offsets(slots, bs), win)
    ensures LayerStored(p.layers[l], dm, host, l, off, slots, bs, win)
  {
    hide Wins, Won, InPages, Listed, RowAt;
    match p.layers[l]
    case Latent(rows) =>
      forall b: nat, o: nat, x: nat | b < rows.Length0 && o < rows.Length1 && x < rows.Length2 && Listed(slots, bs, rows.Length0, b, o)
        ensures RowAt(host, win, slots, bs, rows.Length0, off, 0, l, b, o, x, rows[b, o, x]) {
        ListedCell(p, dm, host, off, slots, bs, win, 0, l, b, o, x);
      }
    case PlanesFirst(pages) =>
      forall plane: nat, b: nat, o: nat, h: nat, d: nat
        | plane < 2 && b < pages.Length1 && o < pages.Length2 && h < pages.Length3 && d < pages.Length4 && Listed(slots, bs, pages.Length1, b, o)
        ensures h * pages.Length4 + d < dm.width
        ensures RowAt(host, win, slots, bs, pages.Length1, off, plane, l, b, o, h * pages.Length4 + d, pages[plane, b, o, h, d]) {
        hide LayerCell, Cell, Blocks, Offsets;
        ListedElement(p, dm, host, l, off, slots, bs, win, plane, b, o, h, d);
      }
    case BlocksFirst(pages) =>
      forall plane: nat, b: nat, o: nat, h: nat, d: nat
        | plane < 2 && b < pages.Length0 && o < pages.Length2 && h < pages.Length3 && d < pages.Length4 && Listed(slots, bs, pages.Length0, b, o)
        ensures h * pages.Length4 + d < dm.width
        ensures RowAt(host, win, slots, bs, pages.Length0, off, plane, l, b, o, h * pages.Length4 + d, pages[b, plane, o, h, d]) {
        hide LayerCell, Cell, Blocks, Offsets;
        ListedElement(p, dm, host, l, off, slots, bs, win, plane, b, o, h, d);
      }
  }

  /** Stored rows are the tensors' own elements, in row-major order. */
  lemma StoresAreRowMajor<E>(p: Paged<E>, dm: Dims, host: array4<E>, off: nat, slots: seq<int>, bs: nat, win: Winner)
    requires Shape(p, dm) && HostFits(host, p, dm, off + |slots|) && bs > 0 && InPages(slots, bs, dm)
    requires Wins(win, Blocks(slots, bs, dm.blocks), Offsets(slots, bs))
    requires Won(p, dm, host, off, Blocks(slots, bs, dm.blocks), Offsets(slots, bs), win)
    ensures TensorsStored(p, dm, host, off, slots, bs, win)
  {
    hide Wins, Won, InPages, Listed, RowAt, HeadOf, PositionOf, LayerStored;
    match p
    case Layers(layers) =>
      forall l: nat | l < |layers| ensures LayerStored(layers[l], dm, host, l, off, slots, bs, win) {
        LayerIsStored(p, dm, host, l, off, slots, bs, win);
      }
    case Fused(all) =>
      forall plane: nat, l: nat, b: nat, o: nat, h: nat, d: nat
        | plane < 2 && l < all.Length1 && b < all.Length0 && o < all.Length3 && h < all.Length4 && d < all.Length5
          && Listed(slots, bs, all.Length0, b, o)
        ensures h * all.Length5 + d < dm.width
        ensures RowAt(host, win, slots, bs, all.Length0, off, plane, l, b, o, h * all.Length5 + d, all[b, l, plane, o, h, d]) {
        RowMajor(all.Length4, all.Length5, h, d);
        ListedCell(p, dm, host, off, slots, bs, win, plane, l, b, o, h * all.Length5 + d);
      }
  }

  // ---- slots outside the pages ----

  predicate SlotInPages(slot: int, bs: nat, dm: Dims)
  {
    Inside(slot, bs, dm.blocks) && OffsetOf(slot, bs) < dm.block
  }

  /** The positions of the slots that lie in the pages. */
  function Rows(slots: seq<int>, bs: nat, dm: Dims): (r: seq<nat>)
    ensures forall k :: 0 <= k < |r| ==> r[k] < |slots| && SlotInPages(slots[r[k]], bs, dm)
    ensures forall i, j :: 0 <= i < j < |r| ==> r[i] < r[j]
    ensures forall i: nat :: i < |slots| && SlotInPages(slots[i], bs, dm) ==> i in r
  {
    if slots == [] then []
    else
      var n := |slots| - 1;
      Rows(slots[..n], bs, dm) + if SlotInPages(slots[n], bs, dm) then [n] else []
  }

  function RowBlocks(slots: seq<int>, bs: nat, dm: Dims): (r: seq<nat>)
    ensures |r| == |Rows(slots, bs, dm)|
  {
    var rows := Rows(slots, bs, dm);
    seq(|rows|, k requires 0 <= k < |rows| => BlockOf(slots[rows[k]], bs, dm.blocks))
  }

  function RowOffsets(slots: seq<int>, bs: nat, dm: Dims): (r: seq<nat>)
    ensures |r| == |Rows(slots, bs, dm)|
  {
    var rows := Rows(slots, bs, dm);
    seq(|rows|, k requires 0 <= k < |rows| => OffsetOf(slots[rows[k]], bs))
  }

  lemma RowsWithin(slots: seq<int>, bs: nat, dm: Dims)
    ensures Within(RowBlocks(slots, bs, dm), RowOffsets(slots, bs, dm), dm)
  {
    hide Rows;
  }

  /** A slot lies in the pages when it counts a token of some block, from the front or from the end, and
      its block and offset are that token's. */
  lemma RowPlaces(slots: seq<int>, bs: nat, dm: Dims, k: nat)
    requires k < |Rows(slots, bs, dm)|
    ensures SlotAt(slots[Rows(slots, bs, dm)[k]], bs, dm.blocks, RowBlocks(slots, bs, dm)[k], RowOffsets(slots, bs, dm)[k])
  {
    hide Rows, SlotAt, BlockOf, OffsetOf;
    var s := slots[Rows(slots, bs, dm)[k]];
    SlotIsAt(s, bs, dm.blocks, BlockOf(s, bs, dm.blocks), OffsetOf(s, bs));
  }

  lemma SlotInPagesMeans(slot: int, bs: nat, dm: Dims)
    ensures SlotInPages(slot, bs, dm) <==> bs > 0 && -(dm.blocks * bs) <= slot < dm.blocks * bs && slot % bs < dm.block
  {
    if bs > 0 { SlotRange(slot, bs, dm.blocks); }
  }

  lemma {:induction false} AllRows(slots: seq<int>, bs: nat, dm: Dims)
    requires bs > 0 && InPages(slots, bs, dm)
    ensures |Rows(slots, bs, dm)| == |slots| && forall k :: 0 <= k < |slots| ==> Rows(slots, bs, dm)[k] == k
  {
    if slots != [] {
      var n := |slots| - 1;
      FrontInPages(slots, bs, dm, n);
      AllRows(slots[..n], bs, dm);
    }
  }

  lemma FrontInPages(slots: seq<int>, bs: nat, dm: Dims, n: nat)
    requires bs > 0 && InPages(slots, bs, dm) && n < |slots|
    ensures InPages(slots[..n], bs, dm) && SlotInPages(slots[n], bs, dm)
  {
    hide BlockOf, OffsetOf, Inside;
    forall i | 0 <= i < n ensures Blocks(slots[..n], bs, dm.blocks)[i] < dm.blocks && Offsets(slots[..n], bs)[i] < dm.block {
      assert Blocks(slots, bs, dm.blocks)[i] < dm.blocks && Offsets(slots, bs)[i] < dm.block;
    }
    assert Offsets(slots, bs)[n] < dm.block;
  }

  lemma RowsAreAll(slots: seq<int>, bs: nat, dm: Dims)
    requires bs > 0 && InPages(slots, bs, dm)
    ensures RowBlocks(slots, bs, dm) == Blocks(slots, bs, dm.blocks) && RowOffsets(slots, bs, dm) == Offsets(slots, bs)
  {
    AllRows(slots, bs, dm);
    hide Rows, BlockOf, OffsetOf;
  }

  /** Each slot has a row element to move. */
  predicate HasElements<E>(p: Paged<E>, dm: Dims) { dm.width > 0 && (p.Fused? ==> dm.layers > 0) }

  /** Indexing raises for a slot outside the pages, when there is an element to look up or the pages have
      no place at all. */
  predicate OutOfRange<E>(p: Paged<E>, dm: Dims, moved: seq<int>, bs: nat)
    requires bs > 0
  {
    !InPages(moved, bs, dm) && (HasElements(p, dm) || dm.blocks == 0 || dm.block == 0)
  }

  /** How a call ends.  Reading pages without an element to move fails when the rows are put together. */
  function Ending<E>(fmt: Format, p: Paged<E>, dm: Dims, moved: seq<int>, dir: Direction, bs: int): Outcome
  {
    if moved == [] then Done
    else if bs <= 0 then ValueError
    else if p.Layers? && dm.layers == 0 then Done
    else if !Supported(fmt) then NotImplementedError
    else if OutOfRange(p, dm, moved, bs) then IndexError
    else if dir.D2H? && !fmt.NL_X_NB_BS_HS? && !HasElements(p, dm) then RuntimeError
    else Done
  }

  /** A call moves every slot, or when it stores those behind the skipped prefix. */
  lemma MovedMeans(slots: seq<int>, dir: Direction, skip: nat)
    ensures var first := if dir.H2D? then skip else 0;
            var moved := Moved(slots, dir, skip);
            if first < |slots| then first + |moved| == |slots| && forall i: nat :: first <= i < |slots| ==> moved[i - first] == slots[i]
            else moved == []
  {}

  /** The errors: there is something to move and the block size is not positive; a format without a kernel;
      a slot that is no token of a block, with an element to look up or no place at all; pages with no
      element, which cannot be put together. */
  lemma EndingMeans<E>(fmt: Format, p: Paged<E>, dm: Dims, moved: seq<int>, dir: Direction, bs: int)
    ensures var r := Ending(fmt, p, dm, moved, dir, bs);
            var asked := |moved| > 0 && bs > 0 && (p.Fused? || dm.layers > 0);
            var kernel := fmt in {NB_NL_TWO_BS_NH_HS, NL_X_TWO_NB_BS_NH_HS, NL_X_NB_TWO_BS_NH_HS, NL_X_NB_BS_HS};
            var elements := dm.width > 0 && (p.Layers? || dm.layers > 0);
            var outside := bs > 0 && exists i: nat ::
              i < |moved| && !(-(dm.blocks * bs) <= moved[i] < dm.blocks * bs && moved[i] % bs < dm.block);
            var raises := asked && kernel && outside && (elements || dm.blocks == 0 || dm.block == 0);
            && (r.ValueError? <==> |moved| > 0 && bs <= 0)
            && (r.NotImplementedError? <==> asked && !kernel)
            && (r.IndexError? <==> raises)
            && (r.RuntimeError? <==> asked && kernel && !raises && dir.D2H? && fmt != NL_X_NB_BS_HS && !elements)
  {
    if bs > 0 { InPagesMeans(moved, bs, dm); }
    hide InPages;
  }

  /** Which elements a store reaches before it raises is not determined: for plane, layer, block, offset and
      row element. */
  type Landed = (nat, nat, nat, nat, nat) -> bool

  /** A store that raised: in the first layer, or in the one tensor of all layers, the places named by slots
      inside the pages hold the row of a position that names them or what they held, element by element;
      everything else is as it was. */
  twostate predicate PartlyStored<E>(p: Paged<E>, dm: Dims, new host: array4<E>, off: nat, rows: seq<nat>, bi: seq<nat>, bo: seq<nat>,
                                     win: Winner, landed: Landed)
    requires Shape(p, dm) && |rows| == |bi| == |bo| && RowsFit(host, dm, off, rows)
    reads Stores(p), host
  {
    forall plane: nat, l: nat, b: nat, o: nat, x: nat :: InDims(dm, plane, b, o, x) && l < dm.layers ==>
      StoredAt(p, dm, host, off, rows, bi, bo, win, landed, plane, l, b, o, x)
  }

  twostate predicate StoredAt<E>(p: Paged<E>, dm: Dims, new host: array4<E>, off: nat, rows: seq<nat>, bi: seq<nat>, bo: seq<nat>,
                                 win: Winner, landed: Landed, plane: nat, l: nat, b: nat, o: nat, x: nat)
    requires Shape(p, dm) && |rows| == |bi| == |bo| && RowsFit(host, dm, off, rows) && InDims(dm, plane, b, o, x) && l < dm.layers
    reads Stores(p), host
  {
    var w := win(plane, l, b, o, x);
    if Named(bi, bo, b, o) && (p.Fused? || l == 0) && landed(plane, l, b, o, x)
    then w < |rows| && bi[w] == b && bo[w] == o && Cell(p, dm, plane, l, b, o, x) == host[plane, l, off + rows[w], x]
    else Cell(p, dm, plane, l, b, o, x) == old(Cell(p, dm, plane, l, b, o, x))
  }

  ghost predicate RowsFit<E>(host: array4<E>, dm: Dims, off: nat, rows: seq<nat>)
  {
    && host.Length0 == dm.planes && host.Length1 >= dm.layers && host.Length3 == dm.width
    && forall k :: 0 <= k < |rows| ==> off + rows[k] < host.Length2
  }

  /** Row i holds what is to stand at place i when a store fails: the row that landed, or what is there. */
  ghost predicate Mixed<E>(mix: array4<E>, host: array4<E>, p: Paged<E>, dm: Dims, off: nat, rows: seq<nat>, bi: seq<nat>, bo: seq<nat>,
                           landed: Landed)
    requires MixFits(mix, dm, |rows|) && Shape(p, dm) && Within(bi, bo, dm) && |rows| == |bi| && RowsFit(host, dm, off, rows)
    reads mix, host, Stores(p)
  {
    forall plane: nat, l: nat, i: nat, x: nat :: plane < dm.planes && l < dm.layers && i < |rows| && x < dm.width ==>
      mix[plane, l, i, x] == if landed(plane, l, bi[i], bo[i], x) then host[plane, l, off + rows[i], x]
                             else Cell(p, dm, plane, l, bi[i], bo[i], x)
  }

  ghost predicate MixFits<E>(mix: array4<E>, dm: Dims, n: nat)
  {
    mix.Length0 == dm.planes && mix.Length1 == dm.layers && mix.Length2 == n && mix.Length3 == dm.width
  }

  method MixRows<E>(host: array4<E>, p: Paged<E>, dm: Dims, off: nat, rows: seq<nat>, bi: seq<nat>, bo: seq<nat>, landed: Landed)
      returns (mix: array4<E>)
    requires Shape(p, dm) && Within(bi, bo, dm) && |rows| == |bi|
    requires RowsFit(host, dm, off, rows)
    ensures fresh(mix) && MixFits(mix, dm, |rows|)
    ensures Mixed(mix, host, p, dm, off, rows, bi, bo, landed)
  {
    var n := |rows|;
    mix := new E[dm.planes, dm.layers, n, dm.width]((plane, l, i, x)
      requires 0 <= plane < dm.planes && 0 <= l < dm.layers && 0 <= i < n && 0 <= x < dm.width
      reads host => host[plane, l, off + rows[i], x]);
    hide Shape, Cell;
    LoadPages(mix, p, dm, bi, bo);
    label loaded:
    assert Holds(p, dm, mix, 0, bi, bo);
    Overlay(mix, host, off, rows, bi, bo, landed);
    forall plane: nat, l: nat, i: nat, x: nat | plane < dm.planes && l < dm.layers && i < n && x < dm.width
      ensures mix[plane, l, i, x] == if landed(plane, l, bi[i], bo[i], x) then host[plane, l, off + rows[i], x]
                                     else Cell(p, dm, plane, l, bi[i], bo[i], x)
    {
      assert old@loaded(Cell(p, dm, plane, l, bi[i], bo[i], x)) == old@loaded(mix[plane, l, 0 + i, x]);
    }
  }

  /** What a failing store leaves: the rows that landed over what was there. */
  method StoreSome<E>(host: array4<E>, p: Paged<E>, dm: Dims, off: nat, rows: seq<nat>, bi: seq<nat>, bo: seq<nat>,
                      win: Winner, landed: Landed)
    requires Shape(p, dm) && host !in Stores(p) && Within(bi, bo, dm) && |rows| == |bi| && Wins(win, bi, bo)
    requires RowsFit(host, dm, off, rows)
    requires p.Layers? ==> |p.layers| == 1
    modifies Stores(p)
    ensures PartlyStored(p, dm, host, off, rows, bi, bo, win, landed)
  {
    hide Cell, Wins, Shape, Mixed;
    var mix := MixRows(host, p, dm, off, rows, bi, bo, landed);
    label mixed:
    StoreMix(mix, host, p, dm, off, rows, bi, bo, win, landed);
    forall plane: nat, l: nat, b: nat, o: nat, x: nat | InDims(dm, plane, b, o, x) && l < dm.layers
      ensures StoredAt(p, dm, host, off, rows, bi, bo, win, landed, plane, l, b, o, x)
    {
      assert StoredAt@mixed(p, dm, host, off, rows, bi, bo, win, landed, plane, l, b, o, x);
      assert old(Cell(p, dm, plane, l, b, o, x)) == old@mixed(Cell(p, dm, plane, l, b, o, x));
    }
  }

  method StoreMix<E>(mix: array4<E>, ghost host: array4<E>, p: Paged<E>, ghost dm: Dims, ghost off: nat, ghost rows: seq<nat>,
                     bi: seq<nat>, bo: seq<nat>, win: Winner, ghost landed: Landed)
    requires MixFits(mix, dm, |rows|) && Shape(p, dm) && Within(bi, bo, dm) && |rows| == |bi| && RowsFit(host, dm, off, rows)
    requires Wins(win, bi, bo) && mix !in Stores(p) && host !in Stores(p) && (p.Layers? ==> |p.layers| == 1)
    requires Mixed(mix, host, p, dm, off, rows, bi, bo, landed)
    modifies Stores(p)
    ensures PartlyStored(p, dm, host, off, rows, bi, bo, win, landed)
  {
    StorePages(mix, p, dm, 0, bi, bo, win);
    assert p.Layers? ==> dm.layers == 1;
    hide Cell, Wins, Won, Shape;
    forall plane: nat, l: nat, b: nat, o: nat, x: nat | InDims(dm, plane, b, o, x) && l < dm.layers && !Named(bi, bo, b, o)
      ensures StoredAt(p, dm, host, off, rows, bi, bo, win, landed, plane, l, b, o, x)
    {
      hide Mixed;
    }
    forall plane: nat, l: nat, b: nat, o: nat, x: nat | InDims(dm, plane, b, o, x) && l < dm.layers && Named(bi, bo, b, o)
      ensures StoredAt(p, dm, host, off, rows, bi, bo, win, landed, plane, l, b, o, x)
    {
      hide Kept;
      var i: nat :| i < |bi| && bi[i] == b && bo[i] == o;
      WonAt(p, dm, mix, 0, bi, bo, win, plane, l, i, x);
      var w := win(plane, l, b, o, x);
      assert old(mix[plane, l, w, x]) == mix[plane, l, 0 + w, x];
    }
  }

  /** The rows that landed over the others. */
  method Overlay<E>(mix: array4<E>, host: array4<E>, off: nat, rows: seq<nat>, bi: seq<nat>, bo: seq<nat>, landed: Landed)
    requires mix != host && mix.Length0 <= host.Length0 && mix.Length1 <= host.Length1 && mix.Length3 <= host.Length3
    requires |rows| == |bi| == |bo| == mix.Length2 && forall k :: 0 <= k < |rows| ==> off + rows[k] < host.Length2
    modifies mix
    ensures forall plane: nat, l: nat, i: nat, x: nat :: plane < mix.Length0 && l < mix.Length1 && i < |rows| && x < mix.Length3 ==>
              mix[plane, l, i, x] == if landed(plane, l, bi[i], bo[i], x) then host[plane, l, off + rows[i], x] else old(mix[plane, l, i, x])
  {
    forall plane: nat, l: nat, i: nat, x: nat
      | plane < mix.Length0 && l < mix.Length1 && i < |rows| && x < mix.Length3 && landed(plane, l, bi[i], bo[i], x)
    {
      mix[plane, l, i, x] := host[plane, l, off + rows[i], x];
    }
  }

  /** A failing store reaches one tensor of all layers, or the first of a list of layers. */
  method StoreFails<E>(host: array4<E>, p: Paged<E>, dm: Dims, off: nat, rows: seq<nat>, bi: seq<nat>, bo: seq<nat>,
                       win: Winner, landed: Landed)
    requires Shape(p, dm) && HostFits(host, p, dm, 0) && Within(bi, bo, dm) && |rows| == |bi| && Wins(win, bi, bo)
    requires forall k :: 0 <= k < |rows| ==> off + rows[k] < host.Length2
    requires p.Layers? ==> dm.layers > 0
    modifies Stores(p)
    ensures PartlyStored(p, dm, host, off, rows, bi, bo, win, landed)
  {
    match p
    case Fused(_) => StoreSome(host, p, dm, off, rows, bi, bo, win, landed);
    case Layers(layers) =>
      var first, dm1 := Layers(layers[..1]), dm.(layers := 1);
      StoreSome(host, first, dm1, off, rows, bi, bo, win, landed);
      hide Wins, Named, LayerShape;
      forall plane: nat, l: nat, b: nat, o: nat, x: nat | InDims(dm, plane, b, o, x) && l < dm.layers
        ensures StoredAt(p, dm, host, off, rows, bi, bo, win, landed, plane, l, b, o, x)
      {
        if l == 0 {
          assert InDims(dm1, plane, b, o, x) && StoredAt(first, dm1, host, off, rows, bi, bo, win, landed, plane, l, b, o, x);
          assert Cell(p, dm, plane, 0, b, o, x) == Cell(first, dm1, plane, 0, b, o, x);
          assert old(Cell(p, dm, plane, 0, b, o, x)) == old(Cell(first, dm1, plane, 0, b, o, x));
        }
      }
  }

  /** multi_layer_kv_transfer: how it ends, what moves, and what is left alone. */
  method Transfer<E>(host: array4<E>, fmt: Format, p: Paged<E>, dm: Dims, slots: seq<int>, dir: Direction, bs: int, skip: nat,
                     win: Winner, landed: Landed)
      returns (r: Outcome)
    requires Shape(p, dm) && Fits(fmt, p) && HostFits(host, p, dm, |slots|)
    requires dir.H2D? && bs > 0 ==> Wins(win, RowBlocks(Moved(slots, dir, skip), bs, dm), RowOffsets(Moved(slots, dir, skip), bs, dm))
    modifies if dir.H2D? then Stores(p) else {host}
    ensures r == Ending(fmt, p, dm, Moved(slots, dir, skip), dir, bs)
    ensures !r.Done? && !(r.IndexError? && dir.H2D?) ==> unchanged(host) && unchanged(Stores(p))
    ensures r.Done? && (bs <= 0 || !InPages(Moved(slots, dir, skip), bs, dm)) ==> unchanged(host) && unchanged(Stores(p))
    ensures Moved(slots, dir, skip) == [] ==> unchanged(host) && unchanged(Stores(p))
    ensures r.IndexError? && dir.H2D? ==>
              PartlyStored(p, dm, host, skip, Rows(slots[skip..], bs, dm), RowBlocks(slots[skip..], bs, dm), RowOffsets(slots[skip..], bs, dm),
                           win, landed)
    ensures r.Done? && Moved(slots, dir, skip) != [] && bs > 0 && InPages(Moved(slots, dir, skip), bs, dm) && dir.H2D? ==>
              && Wins(win, Blocks(slots[skip..], bs, dm.blocks), Offsets(slots[skip..], bs))
              && Won(p, dm, host, skip, Blocks(slots[skip..], bs, dm.blocks), Offsets(slots[skip..], bs), win)
              && Kept(p, dm, Blocks(slots[skip..], bs, dm.blocks), Offsets(slots[skip..], bs))
              && TensorsStored(p, dm, host, skip, slots[skip..], bs, win)
              && TensorsKept(p, Blocks(slots[skip..], bs, dm.blocks), Offsets(slots[skip..], bs))
    ensures r.Done? && Moved(slots, dir, skip) != [] && bs > 0 && InPages(Moved(slots, dir, skip), bs, dm) && dir.D2H? ==>
              Holds(p, dm, host, 0, Blocks(slots, bs, dm.blocks), Offsets(slots, bs)) && HostKept(host, dm.layers, |slots|)
              && TensorsLoaded(p, dm, host, slots, bs)
  {
    var moved := Moved(slots, dir, skip);
    if |moved| == 0 { return Done; }
    if bs <= 0 { return ValueError; }
    if InPages(moved, bs, dm) { RowsAreAll(moved, bs, dm); }
    if p.Layers? && |p.layers| == 0 { return Done; }
    if !Supported(fmt) { return NotImplementedError; }
    if OutOfRange(p, dm, moved, bs) {
      if dir.H2D? {
        RowsWithin(moved, bs, dm);
        StoreFails(host, p, dm, skip, Rows(moved, bs, dm), RowBlocks(moved, bs, dm), RowOffsets(moved, bs, dm), win, landed);
      }
      return IndexError;
    }
    if dir.D2H? && !fmt.NL_X_NB_BS_HS? && !HasElements(p, dm) { return RuntimeError; }
    if !InPages(moved, bs, dm) { return Done; }
    var bi, bo := Blocks(moved, bs, dm.blocks), Offsets(moved, bs);
    if dir.D2H? {
      LoadPages(host, p, dm, bi, bo);
      RowsAreRowMajor(p, dm, host, slots, bs);
    } else {
      StorePages(host, p, dm, skip, bi, bo, win);
      StoresAreRowMajor(p, dm, host, skip, moved, bs, win);
    }
    r := Done;
  }

  /** With distinct slots each place holds the row of its one position. */
  lemma DistinctHold<E>(p: Paged<E>, dm: Dims, host: array4<E>, off: nat, slots: seq<int>, bs: nat, win: Winner)
    requires Shape(p, dm) && bs > 0 && InPages(slots, bs, dm)
    requires host.Length0 == dm.planes && host.Length1 == dm.layers && host.Length3 == dm.width && off + |slots| <= host.Length2
    requires Wins(win, Blocks(slots, bs, dm.blocks), Offsets(slots, bs))
    requires Won(p, dm, host, off, Blocks(slots, bs, dm.blocks), Offsets(slots, bs), win) && Distinct(slots, bs, dm.blocks)
    ensures Holds(p, dm, host, off, Blocks(slots, bs, dm.blocks), Offsets(slots, bs))
  {
    DistinctPlaces(slots, bs, dm.blocks);
    PlacesWin(win, Blocks(slots, bs, dm.blocks), Offsets(slots, bs));
    hide Cell, Shape, Wins, Places, Distinct;
  }

  /** A place is named exactly when its slot is listed, counted from the front or from the end. */
  lemma NamedMeansListed(slots: seq<int>, bs: nat, blocks: nat, s: int)
    requires bs > 0 && AllInside(slots, bs, blocks) && Inside(s, bs, blocks)
    ensures Named(Blocks(slots, bs, blocks), Offsets(slots, bs), BlockOf(s, bs, blocks), OffsetOf(s, bs))
       <==> exists i :: 0 <= i < |slots| && FromFront(slots[i], bs, blocks) == FromFront(s, bs, blocks)
  {
    hide FromFront, BlockOf, OffsetOf, Inside;
    forall i | 0 <= i < |slots|
      ensures FromFront(slots[i], bs, blocks) == FromFront(s, bs, blocks)
         <==> Blocks(slots, bs, blocks)[i] == BlockOf(s, bs, blocks) && Offsets(slots, bs)[i] == OffsetOf(s, bs)
    {
      SlotIsPlace(slots[i], s, bs, blocks);
    }
    if i :| 0 <= i < |slots| && FromFront(slots[i], bs, blocks) == FromFront(s, bs, blocks) {
      assert Blocks(slots, bs, blocks)[i] == BlockOf(s, bs, blocks);
    }
  }

  // ---- calls in sequence ----

  /** A call whose slots all lie in the pages: it moves every row, or raises and changes nothing; with
      elements to move it raises only for a format that is not supported. */
  method TransferInside<E>(host: array4<E>, fmt: Format, p: Paged<E>, dm: Dims, slots: seq<int>, dir: Direction, bs: nat, skip: nat,
                           win: Winner)
      returns (r: Outcome)
    requires Shape(p, dm) && Fits(fmt, p) && HostFits(host, p, dm, |slots|) && skip <= |slots|
    requires bs > 0 && InPages(Moved(slots, dir, skip), bs, dm)
    requires dir.H2D? ==> Wins(win, Blocks(slots[skip..], bs, dm.blocks), Offsets(slots[skip..], bs))
    modifies if dir.H2D? then Stores(p) else {host}
    ensures Moved(slots, dir, skip) != [] && dm.width > 0 && dm.layers > 0 ==> (r.Done? <==> Supported(fmt))
    ensures !r.Done? || Moved(slots, dir, skip) == [] ==> unchanged(host) && unchanged(Stores(p))
    ensures r.Done? && Moved(slots, dir, skip) != [] && dir.H2D? ==>
              && Won(p, dm, host, skip, Blocks(slots[skip..], bs, dm.blocks), Offsets(slots[skip..], bs), win)
              && Kept(p, dm, Blocks(slots[skip..], bs, dm.blocks), Offsets(slots[skip..], bs))
    ensures r.Done? && Moved(slots, dir, skip) != [] && dir.D2H? ==>
              Holds(p, dm, host, 0, Blocks(slots, bs, dm.blocks), Offsets(slots, bs)) && HostKept(host, dm.layers, |slots|)
  {
    RowsAreAll(Moved(slots, dir, skip), bs, dm);
    hide Rows, RowBlocks, RowOffsets, Blocks, Offsets, Wins, Won, Kept, Holds, HostKept, Shape, PartlyStored;
    r := Transfer(host, fmt, p, dm, slots, dir, bs, skip, win, (_, _, _, _, _) => false);
  }

  lemma HoldsAt<E>(p: Paged<E>, dm: Dims, host: array4<E>, off: nat, bi: seq<nat>, bo: seq<nat>, plane: nat, l: nat, i: nat, x: nat)
    requires Shape(p, dm) && Within(bi, bo, dm)
    requires host.Length0 == dm.planes && host.Length1 == dm.layers && host.Length3 == dm.width && off + |bi| <= host.Length2
    requires Holds(p, dm, host, off, bi, bo) && plane < dm.planes && l < dm.layers && i < |bi| && x < dm.width
    ensures Cell(p, dm, plane, l, bi[i], bo[i], x) == host[plane, l, off + i, x]
  {}

  lemma WonAt<E>(p: Paged<E>, dm: Dims, host: array4<E>, off: nat, bi: seq<nat>, bo: seq<nat>, win: Winner,
                 plane: nat, l: nat, i: nat, x: nat)
    requires Shape(p, dm) && Within(bi, bo, dm) && Wins(win, bi, bo)
    requires host.Length0 == dm.planes && host.Length1 == dm.layers && host.Length3 == dm.width && off + |bi| <= host.Length2
    requires Won(p, dm, host, off, bi, bo, win) && plane < dm.planes && l < dm.layers && i < |bi| && x < dm.width
    ensures var w := win(plane, l, bi[i], bo[i], x);
            w < |bi| && bi[w] == bi[i] && bo[w] == bo[i] && Cell(p, dm, plane, l, bi[i], bo[i], x) == host[plane, l, off + w, x]
  {}

  lemma DropPlaces(slots: seq<int>, bs: nat, blocks: nat, skip: nat)
    requires bs > 0 && AllInside(slots, bs, blocks) && skip <= |slots|
    ensures AllInside(slots[skip..], bs, blocks)
    ensures Blocks(slots[skip..], bs, blocks) == Blocks(slots, bs, blocks)[skip..]
    ensures Offsets(slots[skip..], bs) == Offsets(slots, bs)[skip..]
  {}

  /** Which host row a host row becomes when it is stored and read back. */
  function Origin(win: Winner, slots: seq<int>, bs: nat, dm: Dims, r: Outcome, plane: nat, l: nat, i: nat, x: nat): (o: nat)
    requires bs > 0 && InPages(slots, bs, dm) && Wins(win, Blocks(slots, bs, dm.blocks), Offsets(slots, bs))
    ensures if r.Done? && i < |slots|
            then o < |slots| && o == win(plane, l, Blocks(slots, bs, dm.blocks)[i], Offsets(slots, bs)[i], x)
            else o == i
  {
    var bi, bo := Blocks(slots, bs, dm.blocks), Offsets(slots, bs);
    if r.Done? && i < |bi| then win(plane, l, bi[i], bo[i], x) else i
  }

  /** Storing rows and reading them back: every moved row becomes, element by element, the row of the
      position that won its place, so with distinct slots the host memory is as it was. */
  method StoreThenLoad<E>(host: array4<E>, fmt: Format, p: Paged<E>, dm: Dims, slots: seq<int>, bs: nat, win: Winner) returns (r: Outcome)
    requires Shape(p, dm) && Fits(fmt, p) && HostFits(host, p, dm, |slots|)
    requires bs > 0 && InPages(slots, bs, dm) && Wins(win, Blocks(slots, bs, dm.blocks), Offsets(slots, bs))
    modifies Stores(p), host
    ensures forall plane: nat, l: nat, i: nat, x: nat :: plane < dm.planes && l < dm.layers && i < host.Length2 && x < dm.width ==>
              host[plane, l, i, x] == old(host[plane, l, Origin(win, slots, bs, dm, r, plane, l, i, x), x])
    ensures Distinct(slots, bs, dm.blocks) ==> HostKept(host, 0, 0)
  {
    assert slots[0..] == slots;
    ghost var bi, bo := Blocks(slots, bs, dm.blocks), Offsets(slots, bs);
    if Distinct(slots, bs, dm.blocks) {
      DistinctPlaces(slots, bs, dm.blocks);
      PlacesWin(win, bi, bo);
    }
    r := TransferInside(host, fmt, p, dm, slots, H2D, bs, 0, win);
    label stored:
    ghost var moved := r.Done? && slots != [];
    assert moved ==> Won(p, dm, host, 0, bi, bo, win);
    var r' := TransferInside(host, fmt, p, dm, slots, D2H, bs, 0, win);
    hide Blocks, Offsets, Cell, Shape, Wins, Distinct, Places, Origin;
    forall plane: nat, l: nat, i: nat, x: nat | plane < dm.planes && l < dm.layers && i < host.Length2 && x < dm.width
      ensures host[plane, l, i, x] == old(host[plane, l, Origin(win, slots, bs, dm, r, plane, l, i, x), x]) {
      if moved && i < |slots| {
        assert old@stored(Cell(p, dm, plane, l, bi[i], bo[i], x)) == old(host[plane, l, 0 + win(plane, l, bi[i], bo[i], x), x]);
        HoldsAt(p, dm, host, 0, bi, bo, plane, l, i, x);
      }
    }
  }

  /** Reading slots and storing the rows back leaves the pages as they were, repeated slots included. */
  method LoadThenStore<E>(host: array4<E>, fmt: Format, p: Paged<E>, dm: Dims, slots: seq<int>, bs: nat, win: Winner)
    requires Shape(p, dm) && Fits(fmt, p) && HostFits(host, p, dm, |slots|)
    requires bs > 0 && InPages(slots, bs, dm) && Wins(win, Blocks(slots, bs, dm.blocks), Offsets(slots, bs))
    modifies Stores(p), host
    ensures Kept(p, dm, [], [])
  {
    assert slots[0..] == slots;
    ghost var bi, bo := Blocks(slots, bs, dm.blocks), Offsets(slots, bs);
    var r := TransferInside(host, fmt, p, dm, slots, D2H, bs, 0, win);
    label loaded:
    ghost var moved := r.Done? && slots != [];
    assert moved ==> Holds(p, dm, host, 0, bi, bo);
    var r' := TransferInside(host, fmt, p, dm, slots, H2D, bs, 0, win);
    hide Blocks, Offsets, Cell, Shape, Wins;
    forall plane: nat, l: nat, b: nat, o: nat, x: nat | InDims(dm, plane, b, o, x) && l < dm.layers
      ensures Cell(p, dm, plane, l, b, o, x) == old(Cell(p, dm, plane, l, b, o, x)) {
      if moved && Named(bi, bo, b, o) {
        var i: nat :| i < |bi| && bi[i] == b && bo[i] == o;
        WonAt(p, dm, host, 0, bi, bo, win, plane, l, i, x);
        var w := win(plane, l, bi[i], bo[i], x);
        assert old@loaded(Cell(p, dm, plane, l, bi[w], bo[w], x)) == old@loaded(host[plane, l, 0 + w, x]);
      }
    }
  }

  lemma SameRowAt<E>(hostA: array4<E>, a: Paged<E>, hostB: array4<E>, b: Paged<E>, dm: Dims, bi: seq<nat>, bo: seq<nat>,
                     plane: nat, l: nat, i: nat, x: nat)
    requires Shape(a, dm) && HostFits(hostA, a, dm, |bi|) && Shape(b, dm) && HostFits(hostB, b, dm, |bi|) && Within(bi, bo, dm)
    requires Holds(a, dm, hostA, 0, bi, bo) && Holds(b, dm, hostB, 0, bi, bo)
    requires plane < dm.planes && l < dm.layers && i < |bi| && x < dm.width
    requires Cell(a, dm, plane, l, bi[i], bo[i], x) == Cell(b, dm, plane, l, bi[i], bo[i], x)
    ensures hostA[plane, l, i, x] == hostB[plane, l, i, x]
  {
    hide Cell, Shape;
    HoldsAt(a, dm, hostA, 0, bi, bo, plane, l, i, x);
    HoldsAt(b, dm, hostB, 0, bi, bo, plane, l, i, x);
  }

  /** Two pages of any layouts with the same logical contents gather to the same rows. */
  method SameContentsSameRows<E>(hostA: array4<E>, fmtA: Format, a: Paged<E>, hostB: array4<E>, fmtB: Format, b: Paged<E>,
                                 dm: Dims, slots: seq<int>, bs: nat)
    requires Shape(a, dm) && Fits(fmtA, a) && HostFits(hostA, a, dm, |slots|) && Supported(fmtA)
    requires Shape(b, dm) && Fits(fmtB, b) && HostFits(hostB, b, dm, |slots|) && Supported(fmtB)
    requires hostA != hostB && hostA !in Stores(b) && hostB !in Stores(a)
    requires bs > 0 && InPages(slots, bs, dm)
    requires forall plane: nat, l: nat, k: nat, o: nat, x: nat :: l < dm.layers && InDims(dm, plane, k, o, x) ==>
               Cell(a, dm, plane, l, k, o, x) == Cell(b, dm, plane, l, k, o, x)
    modifies hostA, hostB
    ensures forall plane: nat, l: nat, i: nat, x: nat :: plane < dm.planes && l < dm.layers && i < |slots| && x < dm.width ==>
              hostA[plane, l, i, x] == hostB[plane, l, i, x]
  {
    var win: Winner := (_, _, _, _, _) => 0;
    var r := TransferInside(hostA, fmtA, a, dm, slots, D2H, bs, 0, win);
    var r' := TransferInside(hostB, fmtB, b, dm, slots, D2H, bs, 0, win);
    ghost var bi, bo := Blocks(slots, bs, dm.blocks), Offsets(slots, bs);
    hide Blocks, Offsets, Cell, Shape, Holds;
    forall plane: nat, l: nat, i: nat, x: nat | plane < dm.planes && l < dm.layers && i < |slots| && x < dm.width
      ensures hostA[plane, l, i, x] == hostB[plane, l, i, x] {
      SameRowAt(hostA, a, hostB, b, dm, bi, bo, plane, l, i, x);
    }
  }

  /** Rows that came from one layout and went into the other, whoever won a place: the place's own contents. */
  lemma CopiedAt<E>(host: array4<E>, a: Paged<E>, b: Paged<E>, dm: Dims, bi: seq<nat>, bo: seq<nat>, skip: nat, win: Winner,
                    plane: nat, l: nat, i: nat, x: nat)
    requires Shape(a, dm) && Shape(b, dm) && HostFits(host, a, dm, |bi|) && Within(bi, bo, dm) && skip <= i < |bi|
    requires Within(bi[skip..], bo[skip..], dm) && Wins(win, bi[skip..], bo[skip..])
    requires Holds(a, dm, host, 0, bi, bo) && Won(b, dm, host, skip, bi[skip..], bo[skip..], win)
    requires plane < dm.planes && l < dm.layers && x < dm.width
    ensures Cell(b, dm, plane, l, bi[i], bo[i], x) == Cell(a, dm, plane, l, bi[i], bo[i], x)
  {
    hide Cell, Shape;
    WonAt(b, dm, host, skip, bi[skip..], bo[skip..], win, plane, l, i - skip, x);
    var w := skip + win(plane, l, bi[i], bo[i], x);
    HoldsAt(a, dm, host, 0, bi, bo, plane, l, w, x);
  }

  /** At the places listed behind the prefix b holds what a holds. */
  ghost predicate SameAtPlaces<E>(a: Paged<E>, b: Paged<E>, dm: Dims, bi: seq<nat>, bo: seq<nat>, skip: nat)
    requires Shape(a, dm) && Shape(b, dm) && Within(bi, bo, dm)
    reads Stores(a), Stores(b)
  {
    forall plane: nat, l: nat, i: nat, x: nat :: plane < dm.planes && l < dm.layers && skip <= i < |bi| && x < dm.width ==>
      Cell(b, dm, plane, l, bi[i], bo[i], x) == Cell(a, dm, plane, l, bi[i], bo[i], x)
  }

  /** Storing rows that were gathered from a. */
  method StoreGathered<E>(host: array4<E>, ghost a: Paged<E>, fmtB: Format, b: Paged<E>, dm: Dims, slots: seq<int>, bs: nat, skip: nat, win: Winner)
    requires Shape(a, dm) && HostFits(host, a, dm, |slots|)
    requires Shape(b, dm) && Fits(fmtB, b) && HostFits(host, b, dm, |slots|) && Supported(fmtB)
    requires Stores(a) !! Stores(b) && skip <= |slots|
    requires bs > 0 && InPages(slots, bs, dm) && InPages(slots[skip..], bs, dm)
    requires Wins(win, Blocks(slots[skip..], bs, dm.blocks), Offsets(slots[skip..], bs))
    requires slots != [] ==> Holds(a, dm, host, 0, Blocks(slots, bs, dm.blocks), Offsets(slots, bs))
    modifies Stores(b)
    ensures SameAtPlaces(a, b, dm, Blocks(slots, bs, dm.blocks), Offsets(slots, bs), skip)
    ensures Kept(b, dm, Blocks(slots[skip..], bs, dm.blocks), Offsets(slots[skip..], bs))
  {
    ghost var bi, bo := Blocks(slots, bs, dm.blocks), Offsets(slots, bs);
    DropPlaces(slots, bs, dm.blocks, skip);
    var r := TransferInside(host, fmtB, b, dm, slots, H2D, bs, skip, win);
    hide Blocks, Offsets, Cell, Shape, Wins, Won, Holds, Kept;
    forall plane: nat, l: nat, i: nat, x: nat | plane < dm.planes && l < dm.layers && skip <= i < |bi| && x < dm.width
      ensures Cell(b, dm, plane, l, bi[i], bo[i], x) == Cell(a, dm, plane, l, bi[i], bo[i], x) {
      CopiedAt(host, a, b, dm, bi, bo, skip, win, plane, l, i, x);
    }
  }

  /** Gathering from one layout and scattering into another copies the logical contents, minus a skipped
      prefix of slots, and touches nothing else, repeated slots included. */
  method CopyBetweenLayouts<E>(host: array4<E>, fmtA: Format, a: Paged<E>, fmtB: Format, b: Paged<E>,
                               dm: Dims, slots: seq<int>, bs: nat, skip: nat, win: Winner)
    requires Shape(a, dm) && Fits(fmtA, a) && HostFits(host, a, dm, |slots|) && Supported(fmtA)
    requires Shape(b, dm) && Fits(fmtB, b) && HostFits(host, b, dm, |slots|) && Supported(fmtB)
    requires Stores(a) !! Stores(b) && skip <= |slots|
    requires bs > 0 && InPages(slots, bs, dm) && InPages(slots[skip..], bs, dm)
    requires Wins(win, Blocks(slots[skip..], bs, dm.blocks), Offsets(slots[skip..], bs))
    modifies host, Stores(b)
    ensures unchanged(Stores(a)) && SameAtPlaces(a, b, dm, Blocks(slots, bs, dm.blocks), Offsets(slots, bs), skip)
    ensures Kept(b, dm, Blocks(slots[skip..], bs, dm.blocks), Offsets(slots[skip..], bs))
  {
    var r := TransferInside(host, fmtA, a, dm, slots, D2H, bs, 0, win);
    hide Blocks, Offsets, Cell, Shape, Wins, Holds, SameAtPlaces;
    StoreGathered(host, a, fmtB, b, dm, slots, bs, skip, win);
  }
}
