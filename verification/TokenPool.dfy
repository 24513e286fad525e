/** The token pool used to measure prefix reuse: requests kept in least-recently-used order under a
    bound on their total length. */
module TokenPools {
  import opened Basics

  datatype Entry = Entry(id: nat, tokens: seq<int>)

  /** The length of the longest common prefix. */
  function CommonLen(a: seq<int>, b: seq<int>): (n: nat)
    ensures n <= |a| && n <= |b| && a[..n] == b[..n]
    ensures n < |a| && n < |b| ==> a[n] != b[n]
  {
    if a == [] || b == [] || a[0] != b[0] then 0
    else
      var n := CommonLen(a[1..], b[1..]);
      assert a[..1 + n] == [a[0]] + a[1..][..n] && b[..1 + n] == [b[0]] + b[1..][..n];
      1 + n
  }

  lemma CommonLenIs(a: seq<int>, b: seq<int>, n: nat)
    requires n <= |a| && n <= |b| && a[..n] == b[..n]
    requires n == |a| || n == |b| || a[n] != b[n]
    ensures CommonLen(a, b) == n
  {
    hide CommonLen;
    var m := CommonLen(a, b);
    assert forall k: nat :: k < n ==> a[..n][k] == b[..n][k];
    assert forall k: nat :: k < m ==> a[..m][k] == b[..m][k];
  }

  /** The best match among the stored requests. */
  function BestLen(reqs: seq<Entry>, tokens: seq<int>): (n: nat)
    ensures forall i :: 0 <= i < |reqs| ==> CommonLen(tokens, reqs[i].tokens) <= n
    ensures n > 0 ==> exists i :: 0 <= i < |reqs| && CommonLen(tokens, reqs[i].tokens) == n
  {
    if reqs == [] then 0
    else
      var last, n := |reqs| - 1, BestLen(reqs[..|reqs| - 1], tokens);
      var c := CommonLen(tokens, reqs[last].tokens);
      assert forall i :: 0 <= i < last ==> reqs[..last][i] == reqs[i];
      if c > n then c else n
  }

  /** The first request that matches n tokens. */
  function FirstWith(reqs: seq<Entry>, tokens: seq<int>, n: nat): (i: nat)
    ensures i <= |reqs|
    ensures i < |reqs| ==> CommonLen(tokens, reqs[i].tokens) == n
    ensures forall j :: 0 <= j < i ==> CommonLen(tokens, reqs[j].tokens) != n
  {
    if reqs == [] || CommonLen(tokens, reqs[0].tokens) == n then 0 else 1 + FirstWith(reqs[1..], tokens, n)
  }

  function MoveToEnd(reqs: seq<Entry>, i: nat): seq<Entry>
    requires i < |reqs|
  {
    reqs[..i] + reqs[i + 1..] + [reqs[i]]
  }

  /** OrderedDict.move_to_end. */
  function MoveById(reqs: seq<Entry>, id: int): seq<Entry>
  {
    if reqs == [] then [] else if reqs[0].id == id then reqs[1..] + [reqs[0]]
    else [reqs[0]] + MoveById(reqs[1..], id)
  }

  /** The order after a lookup: the first best match becomes the most recent. */
  function Touch(reqs: seq<Entry>, tokens: seq<int>): seq<Entry>
  {
    var n := BestLen(reqs, tokens);
    if n == 0 then reqs else MoveToEnd(reqs, FirstWith(reqs, tokens, n))
  }

  function Total(reqs: seq<Entry>): nat
  {
    if reqs == [] then 0 else |reqs[0].tokens| + Total(reqs[1..])
  }

  /** How many of the oldest requests must go so that `need` more tokens fit. */
  function EvictCount(reqs: seq<Entry>, current: int, need: nat, max: Option<nat>): (n: nat)
    ensures n <= |reqs|
  {
    if max.None? || current + need <= max.value || reqs == [] then 0
    else 1 + EvictCount(reqs[1..], current - |reqs[0].tokens|, need, max)
  }

  /** Storing under an identifier: in place when it is there already, else at the end. */
  function Put(reqs: seq<Entry>, e: Entry): seq<Entry>
  {
    if reqs == [] then [e]
    else if reqs[0].id == e.id then [e] + reqs[1..]
    else [reqs[0]] + Put(reqs[1..], e)
  }

  /** The pool after a request is added. */
  function Add(reqs: seq<Entry>, e: Entry, max: Option<nat>): seq<Entry>
  {
    Put(reqs[EvictCount(reqs, Total(reqs), |e.tokens|, max)..], e)
  }

  predicate Stored(reqs: seq<Entry>, id: nat) { exists i :: 0 <= i < |reqs| && reqs[i].id == id }

  predicate DistinctIds(reqs: seq<Entry>) { forall i, j :: 0 <= i < j < |reqs| ==> reqs[i].id != reqs[j].id }

  lemma {:induction false} PutNew(reqs: seq<Entry>, e: Entry)
    requires !Stored(reqs, e.id)
    ensures Put(reqs, e) == reqs + [e]
  {
    if reqs != [] {
      assert reqs[0].id != e.id;
      forall i | 0 <= i < |reqs[1..]| ensures reqs[1..][i].id != e.id { assert reqs[1..][i] == reqs[i + 1]; }
      PutNew(reqs[1..], e);
      assert [reqs[0]] + (reqs[1..] + [e]) == reqs + [e];
    }
  }

  lemma {:induction false} PutOld(reqs: seq<Entry>, e: Entry, i: nat)
    requires i < |reqs| && reqs[i].id == e.id && forall j :: 0 <= j < i ==> reqs[j].id != e.id
    ensures Put(reqs, e) == reqs[i := e]
  {
    if i > 0 {
      PutOld(reqs[1..], e, i - 1);
      assert [reqs[0]] + reqs[1..][i - 1 := e] == reqs[i := e];
    } else {
      assert [e] + reqs[1..] == reqs[0 := e];
    }
  }

  lemma {:induction false} TotalConcat(a: seq<Entry>, b: seq<Entry>)
    ensures Total(a + b) == Total(a) + Total(b)
  {
    if a == [] {
      assert a + b == b;
    } else {
      assert (a + b)[1..] == a[1..] + b;
      TotalConcat(a[1..], b);
    }
  }

  lemma TotalOne(e: Entry)
    ensures Total([e]) == |e.tokens|
  {
    assert [e][1..] == [];
  }

  lemma TotalSplit(reqs: seq<Entry>, i: nat)
    requires i <= |reqs|
    ensures Total(reqs) == Total(reqs[..i]) + Total(reqs[i..])
  {
    assert reqs == reqs[..i] + reqs[i..];
    TotalConcat(reqs[..i], reqs[i..]);
  }

  lemma TotalAt(reqs: seq<Entry>, i: nat)
    requires i < |reqs|
    ensures Total(reqs) == Total(reqs[..i]) + |reqs[i].tokens| + Total(reqs[i + 1..])
  {
    TotalSplit(reqs, i);
    assert reqs[i..] == [reqs[i]] + reqs[i + 1..];
    TotalConcat([reqs[i]], reqs[i + 1..]);
    TotalOne(reqs[i]);
  }

  lemma MoveKeepsTotal(reqs: seq<Entry>, i: nat)
    requires i < |reqs|
    ensures Total(MoveToEnd(reqs, i)) == Total(reqs)
  {
    TotalAt(reqs, i);
    TotalConcat(reqs[..i] + reqs[i + 1..], [reqs[i]]);
    TotalConcat(reqs[..i], reqs[i + 1..]);
    TotalOne(reqs[i]);
  }

  lemma MoveKeepsEntries(reqs: seq<Entry>, i: nat, e: Entry)
    requires i < |reqs|
    ensures e in MoveToEnd(reqs, i) <==> e in reqs
  {
    assert reqs == reqs[..i] + [reqs[i]] + reqs[i + 1..];
  }

  lemma {:induction false} MoveByIdIs(reqs: seq<Entry>, i: nat)
    requires i < |reqs| && DistinctIds(reqs)
    ensures MoveById(reqs, reqs[i].id) == MoveToEnd(reqs, i)
  {
    if i > 0 {
      assert reqs[0].id != reqs[i].id;
      MoveByIdIs(reqs[1..], i - 1);
      assert [reqs[0]] + MoveToEnd(reqs[1..], i - 1) == MoveToEnd(reqs, i);
    } else {
      assert reqs[1..] + [reqs[0]] == MoveToEnd(reqs, 0);
    }
  }

  lemma MoveKeepsDistinct(reqs: seq<Entry>, i: nat)
    requires i < |reqs| && DistinctIds(reqs)
    ensures DistinctIds(MoveToEnd(reqs, i))
  {}

  /** After eviction the new request fits, or nothing is left. */
  lemma {:induction false} EvictFits(reqs: seq<Entry>, need: nat, max: Option<nat>)
    ensures var n := EvictCount(reqs, Total(reqs), need, max);
            max.None? || Total(reqs[n..]) + need <= max.value || n == |reqs|
    ensures max.None? ==> EvictCount(reqs, Total(reqs), need, max) == 0
    ensures var n := EvictCount(reqs, Total(reqs), need, max);
            max.Some? && n > 0 ==> Total(reqs[n - 1..]) + need > max.value
  {
    if max.Some? && reqs != [] && Total(reqs) + need > max.value {
      EvictFits(reqs[1..], need, max);
      var n := EvictCount(reqs[1..], Total(reqs[1..]), need, max);
      assert EvictCount(reqs, Total(reqs), need, max) == n + 1;
      hide EvictCount, Total;
      assert reqs[1..][n..] == reqs[n + 1..];
      if n > 0 { assert reqs[1..][n - 1..] == reqs[n..]; } else { assert reqs[0..] == reqs; }
    }
  }

  class LRUTokenPool {
    const maxTokens: Option<nat>
    var currentTokens: int
    /** Least recent first. */
    var requests: seq<Entry>

    /** The pool's promise: the running total is the stored tokens, and it is within the bound unless a
        single request is over it by itself. */
    ghost predicate Valid()
      reads this
    {
      && DistinctIds(requests) && currentTokens == Total(requests)
      && (maxTokens.None? || currentTokens <= maxTokens.value || |requests| == 1)
    }

    constructor (maxTokens: Option<nat>)
      ensures Valid() && requests == [] && this.maxTokens == maxTokens
    {
      this.maxTokens := maxTokens;
      this.currentTokens := 0;
      this.requests := [];
    }

    method CommonPrefix(tokens: seq<int>, other: seq<int>) returns (n: nat)
      ensures n == CommonLen(tokens, other)
    {
      n := 0;
      for i := 0 to Min(|tokens|, |other|)
        invariant n == i && tokens[..i] == other[..i]
      {
        if tokens[i] != other[i] { break; }
        n := n + 1;
      }
      CommonLenIs(tokens, other, n);
    }

    /** The loops of longest_prefix_len: the longest match and the first request that reaches it. */
    method FindBest(tokens: seq<int>) returns (bestLen: nat, bestId: int)
      ensures bestLen == BestLen(requests, tokens)
      ensures bestLen == 0 ==> bestId == -1
      ensures bestLen > 0 ==> FirstWith(requests, tokens, bestLen) < |requests|
                              && bestId == requests[FirstWith(requests, tokens, bestLen)].id
    {
      hide BestLen, FirstWith, CommonLen;
      bestLen, bestId := 0, -1;
      ghost var best := 0;
      NoBest(tokens);
      assert requests[..0] == [];
      for k := 0 to |requests|
        invariant best <= k && bestLen == BestLen(requests[..k], tokens)
        invariant bestLen == 0 ==> bestId == -1
        invariant bestLen > 0 ==> best < k && bestId == requests[best].id && CommonLen(tokens, requests[best].tokens) == bestLen
        invariant bestLen > 0 ==> forall j :: 0 <= j < best ==> CommonLen(tokens, requests[j].tokens) < bestLen
      {
        var common := CommonPrefix(tokens, requests[k].tokens);
        BestLenStep(requests, k, tokens);
        if common > bestLen {
          forall j | 0 <= j < k ensures CommonLen(tokens, requests[j].tokens) < common {
            assert requests[..k][j] == requests[j];
          }
          bestLen, bestId := common, requests[k].id;
          best := k;
        }
      }
      assert requests[..|requests|] == requests;
    }

    /** longest_prefix_len: the match moves to the most recent end, and only the order changes. */
    method LongestPrefixLen(tokens: seq<int>) returns (bestLen: nat, bestId: int)
      requires Valid()
      modifies this`requests
      ensures Valid() && requests == Touch(old(requests), tokens)
      ensures bestLen == BestLen(old(requests), tokens)
      ensures bestLen == 0 ==> bestId == -1
      ensures bestLen > 0 ==> FirstWith(old(requests), tokens, bestLen) < |old(requests)|
                              && bestId == old(requests)[FirstWith(old(requests), tokens, bestLen)].id
    {
      hide BestLen, FirstWith, CommonLen, MoveById, Total, DistinctIds;
      bestLen, bestId := FindBest(tokens);
      if bestId != -1 {
        ghost var best := FirstWith(requests, tokens, bestLen);
        MoveByIdIs(requests, best);
        MoveKeepsTotal(requests, best);
        MoveKeepsDistinct(requests, best);
        requests := MoveById(requests, bestId);
      }
    }

    /** The eviction loop of add_request. */
    method Evict(need: nat)
      requires currentTokens == Total(requests)
      modifies this`requests, this`currentTokens
      ensures requests == old(requests)[EvictCount(old(requests), Total(old(requests)), need, maxTokens)..]
      ensures currentTokens == Total(requests)
    {
      ghost var n := 0;
      while maxTokens.Some? && currentTokens + need > maxTokens.value && requests != []
        invariant n <= |old(requests)| && requests == old(requests)[n..]
        invariant currentTokens == Total(requests)
        invariant EvictCount(old(requests), Total(old(requests)), need, maxTokens)
                  == n + EvictCount(requests, currentTokens, need, maxTokens)
        decreases |requests|
      {
        currentTokens := currentTokens - |requests[0].tokens|;
        requests := requests[1..];
        n := n + 1;
      }
    }

    /** add_request: the oldest requests go until the new one fits, and it becomes the most recent.  An
        identifier that is still stored is overwritten in place; then the running total counts the old
        tokens too, and is right only when there were none. */
    method AddRequest(id: nat, tokens: seq<int>)
      requires Valid()
      modifies this`requests, this`currentTokens
      ensures requests == Add(old(requests), Entry(id, tokens), maxTokens)
      ensures !Stored(old(requests), id) ==> Valid()
      ensures var kept := old(requests)[EvictCount(old(requests), Total(old(requests)), |tokens|, maxTokens)..];
              && currentTokens == Total(kept) + |tokens|
              && (currentTokens == Total(requests) <==> !Stored(kept, id) || Entry(id, []) in kept)
    {
      hide EvictCount, Total, Put, Stored, DistinctIds;
      AddOk(requests, Entry(id, tokens), maxTokens);
      Evict(|tokens|);
      requests := Put(requests, Entry(id, tokens));
      currentTokens := currentTokens + |tokens|;
    }
  }

  /** A reused identifier, at its least: the one token of the first request is still counted after the
      second has taken its place. */
  method CountsTwice() returns (counted: int, stored: nat)
    ensures counted == 2 && stored == 1
  {
    hide EvictCount, Touch;
    var pool := new LRUTokenPool(None);
    TotalOne(Entry(0, [7]));
    TotalOne(Entry(0, [8]));
    UnlimitedAdd([], Entry(0, [7]));
    UnlimitedAdd([Entry(0, [7])], Entry(0, [8]));
    pool.AddRequest(0, [7]);
    assert pool.requests == [Entry(0, [7])];
    pool.AddRequest(0, [8]);
    assert pool.requests == [Entry(0, [8])];
    counted, stored := pool.currentTokens, Total(pool.requests);
  }

  lemma UnlimitedAdd(reqs: seq<Entry>, e: Entry)
    ensures EvictCount(reqs, Total(reqs), |e.tokens|, None) == 0
    ensures Add(reqs, e, None) == Put(reqs, e) && reqs[0..] == reqs
  {
    EvictFits(reqs, |e.tokens|, None);
    assert reqs[0..] == reqs;
  }

  lemma AddOk(reqs: seq<Entry>, e: Entry, max: Option<nat>)
    requires DistinctIds(reqs)
    ensures var kept, now := reqs[EvictCount(reqs, Total(reqs), |e.tokens|, max)..], Add(reqs, e, max);
            && (Total(now) == Total(kept) + |e.tokens| <==> !Stored(kept, e.id) || Entry(e.id, []) in kept)
            && (!Stored(reqs, e.id) ==> !Stored(kept, e.id) && DistinctIds(now) && (max.None? || Total(now) <= max.value || |now| == 1))
  {
    EvictFits(reqs, |e.tokens|, max);
    hide EvictCount, Total;
    var kept := reqs[EvictCount(reqs, Total(reqs), |e.tokens|, max)..];
    PutTotal(kept, e);
    if !Stored(reqs, e.id) {
      assert !Stored(kept, e.id) by {
        assert forall i :: 0 <= i < |kept| ==> kept[i] in reqs;
      }
      PutNew(kept, e);
    }
  }

  lemma NoBest(tokens: seq<int>)
    ensures BestLen([], tokens) == 0 && Touch([], tokens) == []
  {}

  /** A lookup without a match changes nothing; otherwise the first of the longest matches goes to the end
      and the others stay in their order. */
  lemma TouchMeans(reqs: seq<Entry>, tokens: seq<int>, i: nat)
    requires i < |reqs| && forall j :: 0 <= j < |reqs| ==> CommonLen(tokens, reqs[j].tokens) <= CommonLen(tokens, reqs[i].tokens)
    requires forall j :: 0 <= j < i ==> CommonLen(tokens, reqs[j].tokens) < CommonLen(tokens, reqs[i].tokens)
    ensures BestLen(reqs, tokens) == CommonLen(tokens, reqs[i].tokens)
    ensures Touch(reqs, tokens) == if CommonLen(tokens, reqs[i].tokens) == 0 then reqs else reqs[..i] + reqs[i + 1..] + [reqs[i]]
  {
    hide BestLen, CommonLen, FirstWith;
    var n := BestLen(reqs, tokens);
    assert n > 0 ==> exists j :: 0 <= j < |reqs| && CommonLen(tokens, reqs[j].tokens) == n;
    assert FirstWith(reqs, tokens, n) == i;
  }

  lemma BestLenStep(reqs: seq<Entry>, k: nat, tokens: seq<int>)
    requires k < |reqs|
    ensures var n, c := BestLen(reqs[..k], tokens), CommonLen(tokens, reqs[k].tokens);
            BestLen(reqs[..k + 1], tokens) == if c > n then c else n
  {
    assert reqs[..k + 1][..k] == reqs[..k];
  }

  /** What storing does to the total. */
  lemma PutTotal(reqs: seq<Entry>, e: Entry)
    requires DistinctIds(reqs)
    ensures Total(Put(reqs, e)) == Total(reqs) + |e.tokens| <==> !Stored(reqs, e.id) || Entry(e.id, []) in reqs
  {
    if Stored(reqs, e.id) {
      var i: nat :| i < |reqs| && reqs[i].id == e.id;
      PutOld(reqs, e, i);
      TotalAt(reqs, i);
      TotalAt(reqs[i := e], i);
      assert reqs[i := e][..i] == reqs[..i] && reqs[i := e][i + 1..] == reqs[i + 1..];
      assert reqs[i] == Entry(reqs[i].id, reqs[i].tokens);
    } else {
      PutNew(reqs, e);
      TotalConcat(reqs, [e]);
      TotalOne(e);
    }
  }

  // ---- whole traces ----

  /** The stored requests after the first n requests of a trace; request i has identifier i. */
  function PoolAfter(trace: seq<seq<int>>, n: nat, max: Option<nat>): seq<Entry>
    requires n <= |trace|
  {
    if n == 0 then [] else Add(Touch(PoolAfter(trace, n - 1, max), trace[n - 1]), Entry(n - 1, trace[n - 1]), max)
  }

  /** Tokens of the first n requests that were found in the pool. */
  function Hits(trace: seq<seq<int>>, n: nat, max: Option<nat>): nat
    requires n <= |trace|
  {
    if n == 0 then 0 else Hits(trace, n - 1, max) + BestLen(PoolAfter(trace, n - 1, max), trace[n - 1])
  }

  function Tokens(trace: seq<seq<int>>, n: nat): nat
    requires n <= |trace|
  {
    if n == 0 then 0 else Tokens(trace, n - 1) + |trace[n - 1]|
  }

  /** calculate_hit_rate with the prefix method: the loop computes exactly the hits of the trace. */
  method CalculateHitRate(trace: seq<seq<int>>, poolSize: Option<nat>) returns (rate: real)
    ensures rate == if Tokens(trace, |trace|) > 0
                    then Hits(trace, |trace|, poolSize) as real / Tokens(trace, |trace|) as real else 0.0
  {
    hide BestLen, CommonLen, Touch, Add, Stored, DistinctIds, Total;
    var pool := new LRUTokenPool(poolSize);
    var totalTokens, hitTokens := 0, 0;
    for idx := 0 to |trace|
      invariant fresh(pool) && pool.Valid() && pool.maxTokens == poolSize
      invariant pool.requests == PoolAfter(trace, idx, poolSize)
      invariant hitTokens == Hits(trace, idx, poolSize) && totalTokens == Tokens(trace, idx)
    {
      totalTokens := totalTokens + |trace[idx]|;
      if idx > 0 {
        var common, _ := pool.LongestPrefixLen(trace[idx]);
        hitTokens := hitTokens + common;
      }
      NotYetStored(trace, idx, poolSize);
      NoBest(trace[idx]);
      pool.AddRequest(idx, trace[idx]);
    }
    rate := if totalTokens > 0 then hitTokens as real / totalTokens as real else 0.0;
  }

  /** A trace that repeats one request finds all of it from the second time on, in an unlimited pool. */
  lemma {:induction false} RepeatedRequest(trace: seq<seq<int>>, n: nat, t: seq<int>)
    requires 0 < n <= |trace| && forall i :: 0 <= i < |trace| ==> trace[i] == t
    ensures Hits(trace, n, None) == (n - 1) * |t| && Tokens(trace, n) == n * |t|
  {
    hide PoolAfter, BestLen, CommonLen;
    if n == 1 {
      NothingFound(trace, None);
      assert Hits(trace, 0, None) == 0 && Tokens(trace, 0) == 0;
    } else {
      RepeatedRequest(trace, n - 1, t);
      UnlimitedFindsBest(trace, n - 1);
      CommonLenIs(t, t, |t|);
      BestWithin(PoolAfter(trace, n - 1, None), t);
      assert CommonLen(trace[n - 1], trace[0]) == |t|;
      assert (n - 1) * |t| == (n - 2) * |t| + |t| && n * |t| == (n - 1) * |t| + |t|;
    }
  }

  lemma NothingFound(trace: seq<seq<int>>, max: Option<nat>)
    requires trace != []
    ensures BestLen(PoolAfter(trace, 0, max), trace[0]) == 0
  {}

  lemma TouchEntries(reqs: seq<Entry>, tokens: seq<int>)
    ensures forall e :: e in Touch(reqs, tokens) <==> e in reqs
    ensures DistinctIds(reqs) ==> DistinctIds(Touch(reqs, tokens))
  {
    hide BestLen, FirstWith, CommonLen;
    var n := BestLen(reqs, tokens);
    if n > 0 {
      var i := FirstWith(reqs, tokens, n);
      forall e ensures e in MoveToEnd(reqs, i) <==> e in reqs { MoveKeepsEntries(reqs, i, e); }
    }
  }

  /** Adding a request with a new identifier: it goes to the end, and with no bound nothing leaves. */
  lemma AddEntries(reqs: seq<Entry>, e: Entry, max: Option<nat>)
    requires DistinctIds(reqs) && forall x :: x in reqs ==> x.id != e.id
    ensures DistinctIds(Add(reqs, e, max)) && e in Add(reqs, e, max)
    ensures forall x :: x in Add(reqs, e, max) ==> x in reqs || x == e
    ensures max.None? ==> forall x :: x in reqs ==> x in Add(reqs, e, max)
  {
    var k := EvictCount(reqs, Total(reqs), |e.tokens|, max);
    assert max.None? ==> k == 0;
    hide EvictCount, Total;
    var kept := reqs[k..];
    forall i | 0 <= i < |kept| ensures kept[i].id != e.id { assert kept[i] in reqs; }
    PutNew(kept, e);
  }

  /** A pool stores requests of the trace under their own identifiers, all distinct; an unlimited pool
      stores every one of them. */
  lemma {:induction false} PoolEntries(trace: seq<seq<int>>, n: nat, max: Option<nat>)
    requires n <= |trace|
    ensures DistinctIds(PoolAfter(trace, n, max))
    ensures forall e :: e in PoolAfter(trace, n, max) ==> e.id < n && e.tokens == trace[e.id]
    ensures max.None? ==> forall i: nat :: i < n ==> Entry(i, trace[i]) in PoolAfter(trace, n, max)
  {
    hide Touch, Add, DistinctIds;
    if n > 0 {
      var was, e := PoolAfter(trace, n - 1, max), Entry(n - 1, trace[n - 1]);
      PoolEntries(trace, n - 1, max);
      TouchEntries(was, e.tokens);
      AddEntries(Touch(was, e.tokens), e, max);
      assert PoolAfter(trace, n, max) == Add(Touch(was, e.tokens), e, max);
      hide PoolAfter;
    } else {
      EmptyPool(trace, max);
    }
  }

  lemma EmptyPool(trace: seq<seq<int>>, max: Option<nat>)
    ensures PoolAfter(trace, 0, max) == [] && DistinctIds([])
  {}

  lemma NotYetStored(trace: seq<seq<int>>, n: nat, max: Option<nat>)
    requires n < |trace|
    ensures !Stored(Touch(PoolAfter(trace, n, max), trace[n]), n) && !Stored(PoolAfter(trace, n, max), n)
  {
    hide PoolAfter, Touch;
    PoolEntries(trace, n, max);
    TouchEntries(PoolAfter(trace, n, max), trace[n]);
  }

  lemma BestOfFewer(small: seq<Entry>, large: seq<Entry>, tokens: seq<int>)
    requires forall e :: e in small ==> e in large
    ensures BestLen(small, tokens) <= BestLen(large, tokens)
  {
    hide BestLen, CommonLen;
    var n := BestLen(small, tokens);
    if n > 0 {
      var i :| 0 <= i < |small| && CommonLen(tokens, small[i].tokens) == n;
      assert small[i] in large;
      var j :| 0 <= j < |large| && large[j] == small[i];
      assert CommonLen(tokens, large[j].tokens) == n;
    }
  }

  lemma BoundedPoolStoresFewer(trace: seq<seq<int>>, n: nat, max: Option<nat>, e: Entry)
    requires n <= |trace| && e in PoolAfter(trace, n, max)
    ensures e in PoolAfter(trace, n, None)
  {
    hide PoolAfter;
    PoolEntries(trace, n, max);
    PoolEntries(trace, n, None);
    assert e == Entry(e.id, trace[e.id]);
  }

  /** On any trace, no bounded pool finds more than the unlimited one. */
  lemma {:induction false} UnlimitedFindsMost(trace: seq<seq<int>>, n: nat, max: Option<nat>)
    requires n <= |trace|
    ensures Hits(trace, n, max) <= Hits(trace, n, None)
  {
    hide PoolAfter, BestLen;
    if n > 0 {
      UnlimitedFindsMost(trace, n - 1, max);
      var small, large := PoolAfter(trace, n - 1, max), PoolAfter(trace, n - 1, None);
      forall e | e in small ensures e in large { BoundedPoolStoresFewer(trace, n - 1, max, e); }
      BestOfFewer(small, large, trace[n - 1]);
    }
  }

  /** What the unlimited pool finds for request n: the longest prefix it shares with an earlier one. */
  lemma UnlimitedFindsBest(trace: seq<seq<int>>, n: nat)
    requires n < |trace|
    ensures var best := BestLen(PoolAfter(trace, n, None), trace[n]);
            && (forall i: nat :: i < n ==> CommonLen(trace[n], trace[i]) <= best)
            && (best > 0 ==> exists i: nat :: i < n && CommonLen(trace[n], trace[i]) == best)
  {
    PoolEntries(trace, n, None);
    var reqs := PoolAfter(trace, n, None);
    var best := BestLen(reqs, trace[n]);
    hide BestLen, CommonLen, PoolAfter;
    forall i: nat | i < n ensures CommonLen(trace[n], trace[i]) <= best {
      var k :| 0 <= k < |reqs| && reqs[k] == Entry(i, trace[i]);
      assert CommonLen(trace[n], reqs[k].tokens) <= best;
    }
    if best > 0 {
      var k :| 0 <= k < |reqs| && CommonLen(trace[n], reqs[k].tokens) == best;
      assert reqs[k] in reqs && reqs[k].tokens == trace[reqs[k].id];
      assert CommonLen(trace[n], trace[reqs[k].id]) == best;
    }
  }

  lemma BestWithin(reqs: seq<Entry>, tokens: seq<int>)
    ensures BestLen(reqs, tokens) <= |tokens|
  {
    hide BestLen, CommonLen;
    var n := BestLen(reqs, tokens);
    if n > 0 { var i :| 0 <= i < |reqs| && CommonLen(tokens, reqs[i].tokens) == n; }
  }

  /** A hit rate is never above one. */
  lemma {:induction false} HitsWithinTokens(trace: seq<seq<int>>, n: nat, max: Option<nat>)
    requires n <= |trace|
    ensures Hits(trace, n, max) <= Tokens(trace, n)
  {
    hide PoolAfter, BestLen;
    if n > 0 {
      HitsWithinTokens(trace, n - 1, max);
      BestWithin(PoolAfter(trace, n - 1, max), trace[n - 1]);
    }
  }

  lemma Totals(a: Entry, b: Entry, c: Entry)
    ensures Total([a]) == |a.tokens| && Total([a, b]) == |a.tokens| + |b.tokens| && Total([b]) == |b.tokens|
  {
    TotalOne(a);
    TotalOne(b);
    TotalConcat([a], [b]);
    assert [a] + [b] == [a, b];
  }

  lemma BestOfOne(a: Entry, tokens: seq<int>)
    ensures BestLen([a], tokens) == CommonLen(tokens, a.tokens)
  {
    assert [a][..0] == [];
  }

  lemma BestOfTwo(a: Entry, b: Entry, tokens: seq<int>)
    ensures var m, n := CommonLen(tokens, a.tokens), CommonLen(tokens, b.tokens); BestLen([a, b], tokens) == if n > m then n else m
  {
    assert [a, b][..1] == [a];
    BestOfOne(a, tokens);
  }
}
