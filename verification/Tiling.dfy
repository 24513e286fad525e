/** How a batch of n items is cut into tiles for the connector's workers
    (prepare_batch_operation, create_tile_request and the EXISTS variant). */
module Tiling {
  import opened Basics

  /** One tile per worker, but never more tiles than items. */
  function NumTiles(workers: nat, n: nat): nat
  {
    Min(workers, n)
  }

  /** Items per tile, rounded up. */
  function TileSize(workers: nat, n: nat): nat
    requires 1 <= workers && 1 <= n
  {
    (n + NumTiles(workers, n) - 1) / NumTiles(workers, n)
  }

  function TileStart(size: nat, t: nat): nat { t * size }

  /** The end of tile t, clipped to the batch.  It may lie before the start. */
  function TileEnd(size: nat, t: nat, n: nat): nat { Min(t * size + size, n) }

  /** The items of tile t: none when the clipped end is not after the start. */
  function TileItems<T>(xs: seq<T>, size: nat, t: nat): (r: seq<T>)
  {
    var lo, hi := TileStart(size, t), TileEnd(size, t, |xs|);
    if lo < hi then xs[lo..hi] else []
  }

  /** The items of tiles 0..m, in tile order. */
  function TilesUpTo<T>(xs: seq<T>, size: nat, m: nat): seq<T>
  {
    if m == 0 then [] else TilesUpTo(xs, size, m - 1) + TileItems(xs, size, m - 1)
  }

  datatype TileData = TileData(keys: seq<string>, bufs: seq<nat>, lens: seq<nat>)

  /** The copying loop of create_tile_request: three parallel lists, from start up to the clipped end. */
  method CreateTile(keys: seq<string>, bufs: seq<nat>, lens: seq<nat>, t: nat, size: nat) returns (r: TileData)
    requires |keys| == |bufs| == |lens|
    ensures r == TileData(TileItems(keys, size, t), TileItems(bufs, size, t), TileItems(lens, size, t))
  {
    var start, end := TileStart(size, t), TileEnd(size, t, |keys|);
    r := TileData([], [], []);
    for i := start to if start <= end then end else start
      invariant start < end ==> r == TileData(keys[start..i], bufs[start..i], lens[start..i])
      invariant end <= start ==> r == TileData([], [], [])
    {
      r := TileData(r.keys + [keys[i]], r.bufs + [bufs[i]], r.lens + [lens[i]]);
    }
  }

  /** Rounding up: k tiles of the chosen size cover n items. */
  lemma CeilCovers(n: nat, k: nat)
    requires 1 <= k
    ensures k * ((n + k - 1) / k) >= n
  {
    var q := (n + k - 1) / k;
    assert n + k - 1 == q * k + (n + k - 1) % k;
  }

  lemma TilesCover(workers: nat, n: nat)
    requires 1 <= workers && 1 <= n
    ensures 1 <= NumTiles(workers, n) <= workers
    ensures TileSize(workers, n) >= 1
    ensures NumTiles(workers, n) * TileSize(workers, n) >= n
  {
    var k := NumTiles(workers, n);
    CeilCovers(n, k);
  }

  /** As many tiles as workers or items, whichever are fewer, of the least size that covers all items. */
  lemma TileSizeIsLeast(workers: nat, n: nat)
    requires 1 <= workers && 1 <= n
    ensures NumTiles(workers, n) <= workers && NumTiles(workers, n) <= n && (NumTiles(workers, n) == workers || NumTiles(workers, n) == n)
    ensures forall size: nat :: size >= TileSize(workers, n) <==> NumTiles(workers, n) * size >= n
  {
    var k, least := NumTiles(workers, n), TileSize(workers, n);
    TilesCover(workers, n);
    assert n + k - 1 == least * k + (n + k - 1) % k;
    forall size: nat ensures size >= least <==> k * size >= n {
      if size >= least { MulMono(least, size, k); } else { MulMono(size + 1, least, k); }
    }
  }

  /** Item j of tile t is item t * size + j of the batch, and a tile holds size of them unless the batch ends
      before that. */
  lemma TileHolds<T>(xs: seq<T>, size: nat, t: nat)
    ensures var tile := TileItems(xs, size, t);
            && |tile| == (if t * size >= |xs| then 0 else if t * size + size <= |xs| then size else |xs| - t * size)
            && forall j :: 0 <= j < |tile| ==> t * size + j < |xs| && tile[j] == xs[t * size + j]
  {}

  lemma {:induction false} TilesArePrefix<T>(xs: seq<T>, size: nat, m: nat)
    ensures TilesUpTo(xs, size, m) == xs[..Min(TileStart(size, m), |xs|)]
  {
    if m > 0 {
      TilesArePrefix(xs, size, m - 1);
      NextTileStart(size, m - 1);
      AppendSlice(xs, TileStart(size, m - 1), size);
    }
  }

  lemma NextTileStart(size: nat, t: nat)
    ensures TileStart(size, t + 1) == TileStart(size, t) + size
  {}

  lemma AppendSlice<T>(xs: seq<T>, lo: nat, size: nat)
    ensures var hi := Min(lo + size, |xs|);
            xs[..Min(lo, |xs|)] + (if lo < hi then xs[lo..hi] else []) == xs[..hi]
  {}

  /** The tiles of a batch, put one after another, are the caller's list. */
  lemma TilesConcatenate<T>(xs: seq<T>, workers: nat)
    requires 1 <= workers && xs != []
    ensures TilesUpTo(xs, TileSize(workers, |xs|), NumTiles(workers, |xs|)) == xs
  {
    hide TilesUpTo;
    TilesCover(workers, |xs|);
    TilesArePrefix(xs, TileSize(workers, |xs|), NumTiles(workers, |xs|));
  }

  /** Two positions inside tiles are the same item only when tile and offset agree. */
  lemma TilePositionsUnique(size: nat, t: nat, j: nat, t2: nat, j2: nat)
    requires j < size && j2 < size && t * size + j == t2 * size + j2
    ensures t == t2 && j == j2
  {
    if t < t2 { MulMono(t + 1, t2, size); }
    if t2 < t { MulMono(t2 + 1, t, size); }
  }

  /** Every index of the batch lies in exactly one tile. */
  lemma OwnerTile(workers: nat, n: nat, i: nat)
    requires 1 <= workers && i < n
    ensures exists t: nat :: t < NumTiles(workers, n)
              && InTile(TileSize(workers, n), t, n, i)
              && forall t2: nat :: InTile(TileSize(workers, n), t2, n, i) ==> t2 == t
  {
    var size, k := TileSize(workers, n), NumTiles(workers, n);
    TilesCover(workers, n);
    var t, j := i / size, i % size;
    assert i == t * size + j;
    if k <= t { MulMono(k, t, size); }
    assert InTile(size, t, n, i);
    forall t2: nat | InTile(size, t2, n, i) ensures t2 == t {
      TilePositionsUnique(size, t, j, t2, i - t2 * size);
    }
  }

  predicate InTile(size: nat, t: nat, n: nat, i: nat)
  {
    TileStart(size, t) <= i < TileEnd(size, t, n)
  }

  /** The minimum with num_items is meant to avoid empty tiles.  It does so exactly when there are as many
      workers as items, the items divide evenly, or the last round of items is large enough: the workers
      are no more than the quotient and the remainder together. */
  lemma NoEmptyTileIff(workers: nat, n: nat)
    requires 1 <= workers && 1 <= n
    ensures (forall t: nat :: t < NumTiles(workers, n) ==>
                TileStart(TileSize(workers, n), t) < TileEnd(TileSize(workers, n), t, n))
        <==> workers >= n || n % workers == 0 || workers <= n / workers + n % workers
  {
    var size, k := TileSize(workers, n), NumTiles(workers, n);
    TilesCover(workers, n);
    assert TileStart(size, k - 1) < TileEnd(size, k - 1, n) <==> TileStart(size, k - 1) < n;
    forall t: nat | t < k && TileStart(size, k - 1) < n
      ensures TileStart(size, t) < TileEnd(size, t, n)
    {
      MulMono(t, k - 1, size);
    }
    LastTileStarts(workers, n);
  }

  /** The last tile starts inside the batch under the same condition. */
  lemma LastTileStarts(workers: nat, n: nat)
    requires 1 <= workers && 1 <= n
    ensures TileStart(TileSize(workers, n), NumTiles(workers, n) - 1) < n
        <==> workers >= n || n % workers == 0 || workers <= n / workers + n % workers
  {
    var size, k := TileSize(workers, n), NumTiles(workers, n);
    if workers >= n {
      assert k == n;
      RoundedQuotient(n, n, 1, 0);
      assert size == 1;
    } else {
      assert k == workers;
      var q, r := n / workers, n % workers;
      assert n == workers * q + r;
      if r == 0 {
        RoundedQuotient(n, workers, q, 0);
        assert (workers - 1) * q == workers * q - q;
      } else {
        RoundedQuotient(n, workers, q, r);
        assert (workers - 1) * (q + 1) == workers * q + workers - q - 1;
      }
    }
  }

  lemma RoundedQuotient(n: nat, k: nat, q: nat, r: nat)
    requires k >= 1 && n == k * q + r && r < k
    ensures (n + k - 1) / k == if r == 0 then q else q + 1
  {
    var x := n + k - 1;
    if r == 0 {
      assert x == k * q + (k - 1);
      QuotientIs(x, k, q, k - 1);
    } else {
      assert x == k * (q + 1) + (r - 1);
      QuotientIs(x, k, q + 1, r - 1);
    }
  }

  lemma QuotientIs(x: nat, k: nat, q: nat, r: nat)
    requires k >= 1 && x == k * q + r && r < k
    ensures x / k == q
  {
    var d := x / k;
    assert x == k * d + x % k;
    if d < q { MulMono(d + 1, q, k); } else if q < d { MulMono(q + 1, d, k); }
  }

  /** Five items on four workers: the fourth tile is empty. */
  lemma EmptyTileExample()
    ensures NumTiles(4, 5) == 4 && TileSize(4, 5) == 2
    ensures TileItems([0, 1, 2, 3, 4], 2, 3) == []
  {}
}
