/** How the size of a token pool bears on its hits: a pool with room for the requests before the last one
    finds as much as any pool, and exactly such sizes do; among bounded pools a larger one finds at least as
    much on every trace exactly when the smaller one has room for no more than two tokens. */
module TokenPoolSizes {
  import opened Basics
  import opened TokenPools
  import opened SmallTokenPools

  lemma TouchTotal(reqs: seq<Entry>, tokens: seq<int>)
    ensures Total(Touch(reqs, tokens)) == Total(reqs)
  {
    hide BestLen, FirstWith, CommonLen, Total;
    var n := BestLen(reqs, tokens);
    if n > 0 { MoveKeepsTotal(reqs, FirstWith(reqs, tokens, n)); }
  }

  /** A pool that can hold the first n requests holds what the unlimited pool holds. */
  lemma {:induction false} RoomForAll(trace: seq<seq<int>>, n: nat, m: nat)
    requires n <= |trace| && Tokens(trace, n) <= m
    ensures PoolAfter(trace, n, Some(m)) == PoolAfter(trace, n, None)
    ensures Total(PoolAfter(trace, n, None)) == Tokens(trace, n)
  {
    if n == 0 {
      EmptyPool(trace, None);
      EmptyPool(trace, Some(m));
    } else {
      RoomForAll(trace, n - 1, m);
      var was, e := PoolAfter(trace, n - 1, None), Entry(n - 1, trace[n - 1]);
      var reqs := Touch(was, e.tokens);
      TouchTotal(was, e.tokens);
      NotYetStored(trace, n - 1, None);
      NothingLeaves(reqs, e, m);
      hide Touch, Add, Total, BestLen, Stored;
      assert PoolAfter(trace, n, None) == Add(reqs, e, None);
      assert PoolAfter(trace, n, Some(m)) == Add(Touch(PoolAfter(trace, n - 1, Some(m)), e.tokens), e, Some(m));
    }
  }

  lemma NothingLeaves(reqs: seq<Entry>, e: Entry, m: nat)
    requires Total(reqs) + |e.tokens| <= m && !Stored(reqs, e.id)
    ensures Add(reqs, e, Some(m)) == Add(reqs, e, None) == reqs + [e]
    ensures Total(reqs + [e]) == Total(reqs) + |e.tokens|
  {
    assert reqs[0..] == reqs;
    PutNew(reqs, e);
    TotalConcat(reqs, [e]);
    TotalOne(e);
  }

  lemma {:induction false} SameHits(trace: seq<seq<int>>, n: nat, m: nat)
    requires n <= |trace| && (n > 0 ==> Tokens(trace, n - 1) <= m)
    ensures Hits(trace, n, Some(m)) == Hits(trace, n, None)
  {
    hide PoolAfter, BestLen;
    if n > 0 {
      if n > 1 { assert Tokens(trace, n - 2) <= Tokens(trace, n - 1); }
      SameHits(trace, n - 1, m);
      RoomForAll(trace, n - 1, m);
    }
  }

  /** With room for the requests before the last one, no pool of any size finds more. */
  lemma EnoughRoomFindsMost(trace: seq<seq<int>>, m: nat, other: Option<nat>)
    requires trace != [] && Tokens(trace, |trace| - 1) <= m
    ensures Hits(trace, |trace|, other) <= Hits(trace, |trace|, Some(m))
  {
    SameHits(trace, |trace|, m);
    UnlimitedFindsMost(trace, |trace|, other);
  }

  function Zeros(n: nat): seq<int> { seq(n, _ => 0) }

  /** A request, filler up to t tokens in all, and the request again. */
  function Refill(t: nat): seq<seq<int>>
    requires t >= 1
  {
    [[1], Zeros(t - 1), [1]]
  }

  lemma ZerosMatch(n: nat)
    ensures CommonLen([1], Zeros(n)) == 0 && CommonLen(Zeros(n), [1]) == 0 && CommonLen([1], [1]) == 1
  {
    CommonLenIs([1], Zeros(n), 0);
    CommonLenIs(Zeros(n), [1], 0);
    CommonLenIs([1], [1], 1);
  }

  /** Without room for the filler the pool has lost the request when it comes again. */
  lemma RefillHits(t: nat, m: nat)
    requires t > m
    ensures Tokens(Refill(t), 2) == t && Hits(Refill(t), 3, Some(m)) == 0 && Hits(Refill(t), 3, None) == 1
  {
    var trace := Refill(t);
    var a, b := Entry(0, [1]), Entry(1, Zeros(t - 1));
    assert Tokens(trace, 1) == 1;
    ZerosMatch(t - 1);
    BestOfOne(a, Zeros(t - 1));
    BestOfOne(b, [1]);
    BestOfTwo(a, b, [1]);
    TotalOne(a);
    hide BestLen, CommonLen, Total;
    NoBest([1]);
    PutNew([a], b);
    FirstPool(trace, Some(m));
    FirstPool(trace, None);
    assert [a][1..] == [] && [a][0..] == [a];
    assert EvictCount([a], 1, t - 1, Some(m)) == 1;
    assert PoolAfter(trace, 2, Some(m)) == [b];
    assert PoolAfter(trace, 2, None) == [a, b];
    HitsOfThree(trace, Some(m));
    HitsOfThree(trace, None);
  }

  lemma FirstPool(trace: seq<seq<int>>, max: Option<nat>)
    requires trace != []
    ensures PoolAfter(trace, 0, max) == [] && PoolAfter(trace, 1, max) == [Entry(0, trace[0])]
  {
    NoBest(trace[0]);
    hide BestLen, CommonLen;
    assert PoolAfter(trace, 0, max) == [];
  }

  lemma HitsOfThree(trace: seq<seq<int>>, max: Option<nat>)
    requires |trace| >= 3
    ensures Hits(trace, 3, max) == BestLen(PoolAfter(trace, 1, max), trace[1]) + BestLen(PoolAfter(trace, 2, max), trace[2])
  {
    NoBest(trace[0]);
    FirstPool(trace, max);
    hide PoolAfter, BestLen;
    assert Hits(trace, 1, max) == 0;
    assert Hits(trace, 2, max) == BestLen(PoolAfter(trace, 1, max), trace[1]);
  }

  /** A pool finds at least as much as every other one on all traces with at most t tokens before the last
      request, exactly when it can hold those t tokens. */
  lemma FindsMostIff(t: nat, m: nat)
    ensures t <= m <==>
            forall trace: seq<seq<int>>, other :: trace != [] && Tokens(trace, |trace| - 1) <= t ==>
              Hits(trace, |trace|, other) <= Hits(trace, |trace|, Some(m))
  {
    hide Hits, Tokens;
    if t <= m {
      forall trace: seq<seq<int>>, other | trace != [] && Tokens(trace, |trace| - 1) <= t
        ensures Hits(trace, |trace|, other) <= Hits(trace, |trace|, Some(m)) {
        EnoughRoomFindsMost(trace, m, other);
      }
    } else {
      RefillHits(t, m);
      var trace := Refill(t);
      assert |trace| == 3 && Tokens(trace, |trace| - 1) <= t;
      assert Hits(trace, |trace|, None) > Hits(trace, |trace|, Some(m));
    }
  }

  // ---- among bounded pools ----

  /** Four requests: the third refreshes the first, so that the second leaves just before it is wanted. */
  function Swap(m: nat): seq<seq<int>>
    requires m >= 4
  {
    [[1] + Zeros(m - 3), [0, 1], [1], [0, 1]]
  }

  lemma SwapMatches(m: nat)
    requires m >= 4
    ensures CommonLen([0, 1], [1] + Zeros(m - 3)) == 0 && CommonLen([1], [1] + Zeros(m - 3)) == 1
    ensures CommonLen([1], [0, 1]) == 0 && CommonLen([0, 1], [0, 1]) == 2 && CommonLen([0, 1], [1]) == 0
  {
    CommonLenIs([0, 1], [1] + Zeros(m - 3), 0);
    CommonLenIs([1], [1] + Zeros(m - 3), 1);
    CommonLenIs([1], [0, 1], 0);
    CommonLenIs([0, 1], [0, 1], 2);
    CommonLenIs([0, 1], [1], 0);
  }

  lemma SwapTokens(m: nat)
    requires m >= 4
    ensures Tokens(Swap(m), 3) == m + 1
  {
    var trace := Swap(m);
    assert Tokens(trace, 1) == m - 2;
    assert Tokens(trace, 2) == m;
  }

  lemma SwapSmall(m: nat, s: nat, a: Entry, b: Entry, c: Entry)
    requires 3 <= s < m && a == Entry(0, [1] + Zeros(m - 3)) && b == Entry(1, [0, 1]) && c == Entry(2, [1])
    ensures PoolAfter(Swap(m), 2, Some(s)) == [b] && PoolAfter(Swap(m), 3, Some(s)) == [b, c]
  {
    hide BestLen, CommonLen, Total;
    var trace, max := Swap(m), Some(s);
    SwapMatches(m);
    BestOfOne(a, [0, 1]);
    BestOfOne(b, [1]);
    Totals(a, b, c);
    FirstPool(trace, max);
    assert [a][1..] == [] && [b][0..] == [b];
    assert EvictCount([a], m - 2, 2, max) == 1;
    assert PoolAfter(trace, 2, max) == [b];
    PutNew([b], c);
    assert EvictCount([b], 2, 1, max) == 0;
    assert PoolAfter(trace, 3, max) == [b, c];
  }

  lemma SwapLarge(m: nat, a: Entry, b: Entry, c: Entry)
    requires m >= 4 && a == Entry(0, [1] + Zeros(m - 3)) && b == Entry(1, [0, 1]) && c == Entry(2, [1])
    ensures PoolAfter(Swap(m), 2, Some(m)) == [a, b] && PoolAfter(Swap(m), 3, Some(m)) == [a, c]
  {
    hide BestLen, CommonLen, Total;
    var trace, max := Swap(m), Some(m);
    SwapMatches(m);
    BestOfOne(a, [0, 1]);
    Totals(a, b, c);
    FirstPool(trace, max);
    PutNew([a], b);
    assert [a][0..] == [a];
    assert EvictCount([a], m - 2, 2, max) == 0;
    assert PoolAfter(trace, 2, max) == [a, b];
    SwapTurn(m, a, b, c);
    hide Touch, Add;
    assert PoolAfter(trace, 3, max) == Add(Touch(PoolAfter(trace, 2, max), [1]), c, max);
  }

  /** The third request refreshes the first entry, and the second leaves. */
  lemma SwapTurn(m: nat, a: Entry, b: Entry, c: Entry)
    requires m >= 4 && a == Entry(0, [1] + Zeros(m - 3)) && b == Entry(1, [0, 1]) && c == Entry(2, [1])
    ensures Add(Touch([a, b], [1]), c, Some(m)) == [a, c]
  {
    hide BestLen, CommonLen, Total;
    SwapMatches(m);
    BestOfTwo(a, b, [1]);
    Totals(b, a, c);
    assert FirstWith([a, b], [1], 1) == 0;
    assert Touch([a, b], [1]) == [b, a];
    hide Touch;
    assert [b, a][1..] == [a];
    assert EvictCount([b, a], m, 1, Some(m)) == 1 + EvictCount([a], m - 2, 1, Some(m)) == 1;
    PutNew([a], c);
  }

  lemma HitsOfFour(trace: seq<seq<int>>, max: Option<nat>)
    requires |trace| >= 4
    ensures Hits(trace, 4, max) ==
            BestLen(PoolAfter(trace, 1, max), trace[1]) + BestLen(PoolAfter(trace, 2, max), trace[2]) + BestLen(PoolAfter(trace, 3, max), trace[3])
  {
    hide PoolAfter, BestLen;
    HitsOfThree(trace, max);
  }

  /** From three tokens on, there is for every larger size a trace on which the smaller pool finds more. */
  lemma SmallerFindsMore(s: nat, m: nat)
    requires 3 <= s < m
    ensures Tokens(Swap(m), 3) == m + 1
    ensures Hits(Swap(m), 4, Some(m)) == 1 && Hits(Swap(m), 4, Some(s)) == 2
  {
    hide PoolAfter, BestLen, CommonLen, Hits, Tokens;
    var trace := Swap(m);
    var a, b, c := Entry(0, [1] + Zeros(m - 3)), Entry(1, [0, 1]), Entry(2, [1]);
    SwapTokens(m);
    SwapMatches(m);
    SwapSmall(m, s, a, b, c);
    SwapLarge(m, a, b, c);
    BestOfOne(a, [0, 1]);
    BestOfOne(b, [1]);
    BestOfTwo(a, b, [1]);
    BestOfTwo(b, c, [0, 1]);
    BestOfTwo(a, c, [0, 1]);
    FirstPool(trace, Some(m));
    FirstPool(trace, Some(s));
    HitsOfFour(trace, Some(m));
    HitsOfFour(trace, Some(s));
  }

  /** The least case: with room for four tokens the third request refreshes the wrong entry and the second
      one is evicted just before it is wanted again. */
  lemma LargerPoolCanFindLess()
    ensures var trace := [[1, 0], [0, 1], [1], [0, 1]]; Hits(trace, 4, Some(3)) == 2 && Hits(trace, 4, Some(4)) == 1
  {
    hide Hits, Tokens;
    SmallerFindsMore(3, 4);
    assert [1] + Zeros(1) == [1, 0];
  }

  /** So a pool finds at least as much as a given smaller one, on all traces with at most t tokens before
      the last request, exactly when it can hold those t tokens or the smaller one has room for no more
      than two. */
  lemma LargerFindsMoreIff(s: nat, m: nat, t: nat)
    requires s < m
    ensures t <= m || s <= 2 <==>
            forall trace: seq<seq<int>> :: trace != [] && Tokens(trace, |trace| - 1) <= t ==>
              Hits(trace, |trace|, Some(s)) <= Hits(trace, |trace|, Some(m))
  {
    hide Hits, Tokens;
    if t <= m || s <= 2 {
      forall trace: seq<seq<int>> | trace != [] && Tokens(trace, |trace| - 1) <= t
        ensures Hits(trace, |trace|, Some(s)) <= Hits(trace, |trace|, Some(m)) {
        if s <= 2 { SmallFindsLess(trace, s, m); } else { EnoughRoomFindsMost(trace, m, Some(s)); }
      }
    } else {
      SmallerFindsMore(s, m);
      var trace := Swap(m);
      assert |trace| == 4 && Tokens(trace, |trace| - 1) <= t;
      assert Hits(trace, |trace|, Some(s)) > Hits(trace, |trace|, Some(m));
    }
  }
}
