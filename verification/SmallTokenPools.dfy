/** A pool with room for at most two tokens never finds more than a larger one.  The larger pool may lose
    an entry that the small one keeps, but only when it finds a token that the small one does not. */
module SmallTokenPools {
  import opened Basics
  import opened TokenPools

  // ---- requests without tokens do not matter ----

  function NonEmpty(reqs: seq<Entry>): seq<Entry>
  {
    if reqs == [] then []
    else if reqs[0].tokens == [] then NonEmpty(reqs[1..]) else [reqs[0]] + NonEmpty(reqs[1..])
  }

  lemma {:induction false} NonEmptyIn(reqs: seq<Entry>, e: Entry)
    ensures e in NonEmpty(reqs) <==> e in reqs && e.tokens != []
  {
    if reqs != [] {
      assert reqs == [reqs[0]] + reqs[1..];
      NonEmptyIn(reqs[1..], e);
    }
  }

  lemma {:induction false} NonEmptyConcat(a: seq<Entry>, b: seq<Entry>)
    ensures NonEmpty(a + b) == NonEmpty(a) + NonEmpty(b)
  {
    if a == [] {
      assert a + b == b;
    } else {
      assert (a + b)[1..] == a[1..] + b;
      NonEmptyConcat(a[1..], b);
    }
  }

  lemma {:induction false} NonEmptyTotal(reqs: seq<Entry>)
    ensures Total(NonEmpty(reqs)) == Total(reqs)
  {
    if reqs != [] {
      NonEmptyTotal(reqs[1..]);
      assert ([reqs[0]] + NonEmpty(reqs[1..]))[1..] == NonEmpty(reqs[1..]);
    }
  }

  lemma NonEmptyBest(reqs: seq<Entry>, tokens: seq<int>)
    ensures BestLen(NonEmpty(reqs), tokens) == BestLen(reqs, tokens)
  {
    forall e ensures e in NonEmpty(reqs) <==> e in reqs && e.tokens != [] { NonEmptyIn(reqs, e); }
    hide NonEmpty, BestLen, CommonLen;
    BestOfFewer(NonEmpty(reqs), reqs, tokens);
    var n := BestLen(reqs, tokens);
    if n > 0 {
      var i :| 0 <= i < |reqs| && CommonLen(tokens, reqs[i].tokens) == n;
      BestAtLeast(NonEmpty(reqs), tokens, reqs[i]);
    }
  }

  lemma BestAtLeast(reqs: seq<Entry>, tokens: seq<int>, e: Entry)
    requires e in reqs
    ensures CommonLen(tokens, e.tokens) <= BestLen(reqs, tokens)
  {
    hide BestLen, CommonLen;
  }

  lemma {:induction false} NonEmptyFirst(reqs: seq<Entry>, tokens: seq<int>, n: nat)
    requires n > 0
    ensures FirstWith(NonEmpty(reqs), tokens, n) == |NonEmpty(reqs[..FirstWith(reqs, tokens, n)])|
  {
    if reqs != [] {
      NonEmptyFirst(reqs[1..], tokens, n);
      var i := FirstWith(reqs, tokens, n);
      if i > 0 { assert reqs[..i][1..] == reqs[1..][..i - 1]; }
      assert reqs[0].tokens != [] ==> NonEmpty(reqs)[1..] == NonEmpty(reqs[1..]);
    }
  }

  lemma NonEmptyTouch(reqs: seq<Entry>, tokens: seq<int>)
    ensures NonEmpty(Touch(reqs, tokens)) == Touch(NonEmpty(reqs), tokens)
  {
    hide BestLen, FirstWith, CommonLen;
    NonEmptyBest(reqs, tokens);
    var n := BestLen(reqs, tokens);
    if n > 0 {
      var i := FirstWith(reqs, tokens, n);
      NonEmptyFirst(reqs, tokens, n);
      NonEmptyMove(reqs, i);
    }
  }

  lemma NonEmptyMove(reqs: seq<Entry>, i: nat)
    requires i < |reqs| && reqs[i].tokens != []
    ensures |NonEmpty(reqs[..i])| < |NonEmpty(reqs)|
    ensures NonEmpty(MoveToEnd(reqs, i)) == MoveToEnd(NonEmpty(reqs), |NonEmpty(reqs[..i])|)
  {
    var a, b, c := reqs[..i], [reqs[i]], reqs[i + 1..];
    assert reqs == a + (b + c) && MoveToEnd(reqs, i) == a + c + b;
    assert NonEmpty(b) == b by { assert b[1..] == []; }
    NonEmptyConcat(a, b + c);
    NonEmptyConcat(b, c);
    NonEmptyConcat(a + c, b);
    NonEmptyConcat(a, c);
    hide NonEmpty;
    var k, all := |NonEmpty(a)|, NonEmpty(reqs);
    assert all[..k] == NonEmpty(a) && all[k + 1..] == NonEmpty(c) && all[k] == reqs[i];
  }

  /** What eviction leaves. */
  function Kept(reqs: seq<Entry>, current: int, need: nat, m: nat): seq<Entry>
  {
    reqs[EvictCount(reqs, current, need, Some(m))..]
  }

  lemma {:induction false} NonEmptyKept(reqs: seq<Entry>, current: int, need: nat, m: nat)
    ensures NonEmpty(Kept(reqs, current, need, m)) == Kept(NonEmpty(reqs), current, need, m)
  {
    if current + need <= m || reqs == [] {
      assert reqs[0..] == reqs && NonEmpty(reqs)[0..] == NonEmpty(reqs);
    } else {
      var rest := current - |reqs[0].tokens|;
      NonEmptyKept(reqs[1..], rest, need, m);
      assert Kept(reqs, current, need, m) == Kept(reqs[1..], rest, need, m);
      if reqs[0].tokens != [] {
        assert NonEmpty(reqs)[1..] == NonEmpty(reqs[1..]);
        assert Kept(NonEmpty(reqs), current, need, m) == Kept(NonEmpty(reqs[1..]), rest, need, m);
      }
    }
  }

  /** The stored requests that have tokens, after the first n requests of a trace. */
  function Pool(trace: seq<seq<int>>, n: nat, m: nat): seq<Entry>
    requires n <= |trace|
  {
    NonEmpty(PoolAfter(trace, n, Some(m)))
  }

  function Next(reqs: seq<Entry>, e: Entry, m: nat): seq<Entry>
  {
    Kept(Touch(reqs, e.tokens), Total(Touch(reqs, e.tokens)), |e.tokens|, m) + if e.tokens == [] then [] else [e]
  }

  lemma PoolStep(trace: seq<seq<int>>, n: nat, m: nat)
    requires n < |trace|
    ensures Pool(trace, n + 1, m) == Next(Pool(trace, n, m), Entry(n, trace[n]), m)
  {
    var was, e := PoolAfter(trace, n, Some(m)), Entry(n, trace[n]);
    var reqs := Touch(was, e.tokens);
    assert PoolAfter(trace, n + 1, Some(m)) == Add(reqs, e, Some(m));
    hide PoolAfter, Touch, Total, NonEmpty;
    NotYetStored(trace, n, Some(m));
    NonEmptyTouch(was, e.tokens);
    NonEmptyTotal(reqs);
    AddedLast(reqs, e, m);
  }

  lemma AddedLast(reqs: seq<Entry>, e: Entry, m: nat)
    requires !Stored(reqs, e.id)
    ensures NonEmpty(Add(reqs, e, Some(m))) == Kept(NonEmpty(reqs), Total(reqs), |e.tokens|, m) + if e.tokens == [] then [] else [e]
  {
    var kept := Kept(reqs, Total(reqs), |e.tokens|, m);
    KeptIn(reqs, |e.tokens|, m);
    assert [e][1..] == [];
    assert NonEmpty([e]) == if e.tokens == [] then [] else [e];
    hide EvictCount, Total, Put, NonEmpty;
    PutNew(kept, e);
    NonEmptyConcat(kept, [e]);
    NonEmptyKept(reqs, Total(reqs), |e.tokens|, m);
  }

  lemma KeptIn(reqs: seq<Entry>, need: nat, m: nat)
    ensures forall e :: e in Kept(reqs, Total(reqs), need, m) ==> e in reqs
    ensures forall id :: Stored(Kept(reqs, Total(reqs), need, m), id) ==> Stored(reqs, id)
  {
    hide EvictCount, Total;
    var kept := Kept(reqs, Total(reqs), need, m);
    forall id | Stored(kept, id) ensures Stored(reqs, id) {
      var i :| 0 <= i < |kept| && kept[i].id == id;
      assert kept[i] == reqs[|reqs| - |kept| + i];
    }
  }

  // ---- what eviction leaves, case by case ----

  predicate HasTokens(reqs: seq<Entry>) { forall i :: 0 <= i < |reqs| ==> reqs[i].tokens != [] }

  predicate Within(reqs: seq<Entry>, m: nat) { Total(reqs) <= m || |reqs| == 1 }

  /** Every request has room beside the new one, or none is left. */
  lemma KeptFits(reqs: seq<Entry>, need: nat, m: nat)
    ensures var kept := Kept(reqs, Total(reqs), need, m); kept == [] || Total(kept) + need <= m
    ensures Total(reqs) + need <= m ==> Kept(reqs, Total(reqs), need, m) == reqs
  {
    EvictFits(reqs, need, Some(m));
    assert reqs[0..] == reqs;
  }

  lemma TotalAtLeast(reqs: seq<Entry>)
    requires HasTokens(reqs)
    ensures Total(reqs) >= |reqs|
  {}

  /** A new request as long as the bound stands alone. */
  lemma KeptNone(reqs: seq<Entry>, need: nat, m: nat)
    requires HasTokens(reqs) && need >= m
    ensures Kept(reqs, Total(reqs), need, m) == []
  {
    KeptFits(reqs, need, m);
    var kept := Kept(reqs, Total(reqs), need, m);
    assert HasTokens(kept);
    TotalAtLeast(kept);
  }

  /** A last request that has room beside the new one stays. */
  lemma KeptLast(reqs: seq<Entry>, need: nat, m: nat)
    requires reqs != [] && |reqs[|reqs| - 1].tokens| + need <= m
    ensures var kept := Kept(reqs, Total(reqs), need, m); kept != [] && kept[|kept| - 1] == reqs[|reqs| - 1]
  {
    EvictFits(reqs, need, Some(m));
    assert reqs[|reqs| - 1..] == [reqs[|reqs| - 1]];
    TotalOne(reqs[|reqs| - 1]);
    hide EvictCount, Total;
  }

  lemma TouchKeeps(reqs: seq<Entry>, tokens: seq<int>)
    ensures |Touch(reqs, tokens)| == |reqs| && Total(Touch(reqs, tokens)) == Total(reqs)
    ensures forall e :: e in Touch(reqs, tokens) <==> e in reqs
    ensures HasTokens(reqs) ==> HasTokens(Touch(reqs, tokens))
  {
    TouchEntries(reqs, tokens);
    hide BestLen, FirstWith, CommonLen, Total;
    var n := BestLen(reqs, tokens);
    if n > 0 { MoveKeepsTotal(reqs, FirstWith(reqs, tokens, n)); }
    var now := Touch(reqs, tokens);
    if HasTokens(reqs) {
      forall i | 0 <= i < |now| ensures now[i].tokens != [] { assert now[i] in reqs; }
    }
  }

  // ---- a small pool beside a larger one ----

  /** Both pools end with the same request, and the small one holds at most one more, of one token each. */
  ghost predicate Beside(small: seq<Entry>, large: seq<Entry>, s: nat, m: nat)
  {
    && HasTokens(small) && HasTokens(large) && Within(small, s) && Within(large, m)
    && (small == [] || (large != [] && small[|small| - 1] == large[|large| - 1]))
    && (|small| <= 1 || (|small| == 2 && s == 2 && |small[0].tokens| == 1 && |small[1].tokens| == 1))
  }

  predicate Begins(reqs: seq<Entry>, t: int) { exists j :: 0 <= j < |reqs| && reqs[j].tokens != [] && reqs[j].tokens[0] == t }

  /** The small pool's other request is one whose token no request of the large one begins with. */
  predicate Lacks(small: seq<Entry>, large: seq<Entry>)
  {
    |small| == 2 && small[0].tokens != [] && !Begins(large, small[0].tokens[0])
  }

  function Owed(small: seq<Entry>, large: seq<Entry>): nat { if Lacks(small, large) then 1 else 0 }

  lemma OneMatches(a: seq<int>, b: seq<int>)
    requires a != [] && b != [] && (|a| == 1 || |b| == 1)
    ensures CommonLen(a, b) == if a[0] == b[0] then 1 else 0
  {
    CommonLenIs(a, b, if a[0] == b[0] then 1 else 0);
  }

  lemma MatchesOne(a: seq<int>, b: seq<int>)
    requires a != [] && b != [] && a[0] == b[0]
    ensures CommonLen(a, b) >= 1
  {}

  lemma BestOfBeginning(reqs: seq<Entry>, tokens: seq<int>)
    requires tokens != [] && Begins(reqs, tokens[0])
    ensures BestLen(reqs, tokens) >= 1
  {
    var j :| 0 <= j < |reqs| && reqs[j].tokens != [] && reqs[j].tokens[0] == tokens[0];
    MatchesOne(tokens, reqs[j].tokens);
    BestAtLeast(reqs, tokens, reqs[j]);
  }

  /** The small pool finds at most one token more, and none when nothing is lacking. */
  lemma FindsAtMost(small: seq<Entry>, large: seq<Entry>, s: nat, m: nat, tokens: seq<int>)
    requires Beside(small, large, s, m)
    ensures BestLen(small, tokens) <= BestLen(large, tokens) + Owed(small, large)
  {
    hide BestLen, CommonLen;
    var n := BestLen(small, tokens);
    if n > 0 {
      var i :| 0 <= i < |small| && CommonLen(tokens, small[i].tokens) == n;
      if i == |small| - 1 {
        BestAtLeast(large, tokens, small[i]);
      } else {
        OneMatches(tokens, small[0].tokens);
        if !Lacks(small, large) { BestOfBeginning(large, tokens); }
      }
    }
  }

  /** A request without tokens. */
  lemma EmptyRequest(small: seq<Entry>, large: seq<Entry>, s: nat, m: nat, e: Entry)
    requires Beside(small, large, s, m) && s < m && e.tokens == []
    ensures Beside(Next(small, e, s), Next(large, e, m), s, m)
    ensures Owed(Next(small, e, s), Next(large, e, m)) <= Owed(small, large)
  {
    NextOfEmpty(small, e, s);
    NextOfEmpty(large, e, m);
    hide Next, Total, Begins;
    if small != [] && Total(large) > m { AloneInBoth(small, large, s, m); }
  }

  /** When the large pool holds a single request over its bound, so does the small one, if it holds any. */
  lemma AloneInBoth(small: seq<Entry>, large: seq<Entry>, s: nat, m: nat)
    requires Beside(small, large, s, m) && s < m && Total(large) > m && small != []
    ensures Total(small) > s
  {
    TotalOne(large[0]);
    hide Total;
    assert large == [large[0]];
    assert |small| == 1 ==> small == [large[0]];
  }

  lemma NextOfEmpty(reqs: seq<Entry>, e: Entry, m: nat)
    requires HasTokens(reqs) && Within(reqs, m) && e.tokens == []
    ensures Next(reqs, e, m) == if Total(reqs) <= m then reqs else []
  {
    NothingTouched(reqs);
    KeptWhole(reqs, m);
    hide Kept, Touch, Total;
  }

  lemma NothingTouched(reqs: seq<Entry>)
    ensures BestLen(reqs, []) == 0 && Touch(reqs, []) == reqs
  {
    BestWithin(reqs, []);
  }

  lemma KeptWhole(reqs: seq<Entry>, m: nat)
    requires HasTokens(reqs) && Within(reqs, m)
    ensures Kept(reqs, Total(reqs), 0, m) == if Total(reqs) <= m then reqs else []
  {
    KeptFits(reqs, 0, m);
    hide EvictCount, Total;
  }

  /** A request the small pool can hold only alone. */
  lemma LongRequest(small: seq<Entry>, large: seq<Entry>, s: nat, m: nat, e: Entry)
    requires Beside(small, large, s, m) && s < m && e.tokens != [] && |e.tokens| >= s
    ensures Beside(Next(small, e, s), Next(large, e, m), s, m)
    ensures !Lacks(Next(small, e, s), Next(large, e, m))
  {
    TouchKeeps(small, e.tokens);
    KeptNone(Touch(small, e.tokens), |e.tokens|, s);
    NextFits(large, e, m);
    TotalOne(e);
    hide Kept, Touch, Total;
    assert Next(small, e, s) == [e];
  }

  lemma NextFits(reqs: seq<Entry>, e: Entry, m: nat)
    requires HasTokens(reqs) && e.tokens != []
    ensures var now := Next(reqs, e, m); HasTokens(now) && Within(now, m) && now != [] && now[|now| - 1] == e
  {
    TouchKeeps(reqs, e.tokens);
    var touched := Touch(reqs, e.tokens);
    KeptFits(touched, |e.tokens|, m);
    KeptIn(touched, |e.tokens|, m);
    hide Touch, Kept, Total;
    var kept := Kept(touched, Total(touched), |e.tokens|, m);
    TotalConcat(kept, [e]);
    TotalOne(e);
    forall i | 0 <= i < |kept| ensures kept[i].tokens != [] { assert kept[i] in touched && kept[i] in reqs; }
  }

  /** A request of one token, of which the small pool of two can keep one more. */
  lemma ShortRequest(small: seq<Entry>, large: seq<Entry>, m: nat, e: Entry)
    requires Beside(small, large, 2, m) && 2 < m && |e.tokens| == 1
    ensures Beside(Next(small, e, 2), Next(large, e, m), 2, m)
    ensures BestLen(small, e.tokens) + Owed(Next(small, e, 2), Next(large, e, m)) <= BestLen(large, e.tokens) + Owed(small, large)
  {
    NextFits(large, e, m);
    SmallNext(small, e);
    FindsAtMost(small, large, 2, m, e.tokens);
    hide BestLen, CommonLen, Touch, Kept, Total, Next;
    var small', large' := Next(small, e, 2), Next(large, e, m);
    if Lacks(small', large') {
      var x := small[|small| - 1];
      assert large'[|large'| - 1] == e;
      assert small'[0].tokens[0] != e.tokens[0];
      assert small' == [x, e] && BestLen(small, e.tokens) == 0;
      if BestLen(large, e.tokens) == 0 { LastStays(large, e, m); }
    }
  }

  /** What the small pool holds afterwards: the newer request that does not begin with the token, or one
      that does. */
  lemma SmallNext(small: seq<Entry>, e: Entry)
    requires |e.tokens| == 1 && HasTokens(small) && Within(small, 2)
    requires |small| <= 1 || (|small| == 2 && |small[0].tokens| == 1 && |small[1].tokens| == 1)
    ensures var now := Next(small, e, 2);
            now == [e]
            || (exists z :: z in small && |z.tokens| == 1 && now == [z, e] && z.tokens[0] == e.tokens[0])
            || (small != [] && now == [small[|small| - 1], e] && |small[|small| - 1].tokens| == 1 && BestLen(small, e.tokens) == 0)
    ensures HasTokens(Next(small, e, 2)) && Within(Next(small, e, 2), 2)
  {
    hide BestLen, Next, Total;
    NextFits(small, e, 2);
    if |small| == 0 {
      NoneKept(e);
    } else if |small| == 1 {
      OneKept(small[0], e);
      assert small == [small[0]];
    } else {
      TwoKept(small[0], small[1], e);
      assert small == [small[0], small[1]];
    }
  }

  lemma NoneKept(e: Entry)
    requires e.tokens != []
    ensures Next([], e, 2) == [e]
  {
    NoBest(e.tokens);
  }

  lemma OneKept(x: Entry, e: Entry)
    requires |e.tokens| == 1 && x.tokens != []
    ensures Next([x], e, 2) == if |x.tokens| == 1 then [x, e] else [e]
    ensures BestLen([x], e.tokens) == if x.tokens[0] == e.tokens[0] then 1 else 0
  {
    BestOfOne(x, e.tokens);
    OneMatches(e.tokens, x.tokens);
    TotalOne(x);
    hide CommonLen, BestLen;
    assert Touch([x], e.tokens) == [x];
    assert [x][0..] == [x] && [x][1..] == [];
  }

  lemma TwoKept(y: Entry, x: Entry, e: Entry)
    requires |e.tokens| == 1 && |x.tokens| == 1 && |y.tokens| == 1
    ensures Next([y, x], e, 2) == [if y.tokens[0] == e.tokens[0] then y else x, e]
    ensures BestLen([y, x], e.tokens) == if y.tokens[0] == e.tokens[0] || x.tokens[0] == e.tokens[0] then 1 else 0
  {
    BestOfTwo(y, x, e.tokens);
    OneMatches(e.tokens, y.tokens);
    OneMatches(e.tokens, x.tokens);
    Totals(y, x, e);
    Totals(x, y, e);
    hide CommonLen, BestLen, Total;
    assert [y, x][1..] == [x] && [x, y][1..] == [y];
    assert Touch([y, x], e.tokens) == if y.tokens[0] == e.tokens[0] then [x, y] else [y, x];
    hide Touch;
    var touched := Touch([y, x], e.tokens);
    assert EvictCount(touched, 2, 1, Some(2)) == 1 + EvictCount(touched[1..], 1, 1, Some(2)) == 1;
  }

  /** Without a match the large pool's last request stays. */
  lemma LastStays(large: seq<Entry>, e: Entry, m: nat)
    requires large != [] && |large[|large| - 1].tokens| == 1 && |e.tokens| == 1 && 2 <= m && BestLen(large, e.tokens) == 0
    ensures Begins(Next(large, e, m), large[|large| - 1].tokens[0])
  {
    KeptLast(large, 1, m);
    hide Kept, BestLen, Total;
    var kept, now := Kept(large, Total(large), 1, m), Next(large, e, m);
    assert now[|kept| - 1] == large[|large| - 1];
  }

  /** Along a trace: what the small pool found, and a token more while one is lacking, is never more than
      what the larger one found. */
  lemma {:induction false} StaysBeside(trace: seq<seq<int>>, n: nat, s: nat, m: nat)
    requires n <= |trace| && s <= 2 && s < m
    ensures Beside(Pool(trace, n, s), Pool(trace, n, m), s, m)
    ensures Hits(trace, n, Some(s)) + Owed(Pool(trace, n, s), Pool(trace, n, m)) <= Hits(trace, n, Some(m))
  {
    hide Beside, Owed, Next, BestLen, Pool, Hits;
    if n == 0 {
      NothingYet(trace, s, m);
    } else {
      StaysBeside(trace, n - 1, s, m);
      PoolStep(trace, n - 1, s);
      PoolStep(trace, n - 1, m);
      HitsStep(trace, n - 1, s);
      HitsStep(trace, n - 1, m);
      NextBeside(Pool(trace, n - 1, s), Pool(trace, n - 1, m), s, m, Entry(n - 1, trace[n - 1]));
    }
  }

  lemma NothingYet(trace: seq<seq<int>>, s: nat, m: nat)
    ensures Beside(Pool(trace, 0, s), Pool(trace, 0, m), s, m) && Owed(Pool(trace, 0, s), Pool(trace, 0, m)) == 0
    ensures Hits(trace, 0, Some(s)) == 0
  {
    EmptyPool(trace, Some(s));
    EmptyPool(trace, Some(m));
    assert Total([]) == 0;
    hide PoolAfter;
  }

  lemma HitsStep(trace: seq<seq<int>>, n: nat, m: nat)
    requires n < |trace|
    ensures Hits(trace, n + 1, Some(m)) == Hits(trace, n, Some(m)) + BestLen(Pool(trace, n, m), trace[n])
  {
    NonEmptyBest(PoolAfter(trace, n, Some(m)), trace[n]);
    hide BestLen, PoolAfter, NonEmpty;
  }

  lemma NextBeside(small: seq<Entry>, large: seq<Entry>, s: nat, m: nat, e: Entry)
    requires Beside(small, large, s, m) && s <= 2 && s < m
    ensures Beside(Next(small, e, s), Next(large, e, m), s, m)
    ensures BestLen(small, e.tokens) + Owed(Next(small, e, s), Next(large, e, m)) <= BestLen(large, e.tokens) + Owed(small, large)
  {
    hide Beside, Next, BestLen, Lacks;
    FindsAtMost(small, large, s, m, e.tokens);
    if e.tokens == [] {
      NothingTouched(small);
      NothingTouched(large);
      EmptyRequest(small, large, s, m, e);
    } else if |e.tokens| >= s {
      LongRequest(small, large, s, m, e);
    } else {
      ShortRequest(small, large, m, e);
    }
  }

  /** A pool of at most two tokens finds no more than any larger one, on any trace. */
  lemma SmallFindsLess(trace: seq<seq<int>>, s: nat, m: nat)
    requires s <= 2 && s <= m
    ensures Hits(trace, |trace|, Some(s)) <= Hits(trace, |trace|, Some(m))
  {
    if s < m { StaysBeside(trace, |trace|, s, m); }
    hide Hits;
  }
}
