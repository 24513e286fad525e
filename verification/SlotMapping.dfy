/** Compressing slot lists into ranges and back, and the comma/bracket text form of the result. */
module SlotMapping {

  /** An entry of a compressed list: a single slot, or [start, end] with both ends included. */
  datatype Item = One(slot: int) | Span(start: int, end: int)

  /** list(range(lo, hi)). */
  function Range(lo: int, hi: int): (r: seq<int>)
    ensures |r| == if lo < hi then hi - lo else 0
    ensures forall i :: 0 <= i < |r| ==> r[i] == lo + i
    decreases hi - lo
  {
    if lo < hi then Range(lo, hi - 1) + [hi - 1] else []
  }

  function Expand(item: Item): seq<int>
  {
    match item case One(x) => [x] case Span(a, b) => Range(a, b + 1)
  }

  function Decompress(items: seq<Item>): seq<int>
  {
    if items == [] then [] else Decompress(items[..|items| - 1]) + Expand(items[|items| - 1])
  }

  method DecompressSlots(items: seq<Item>) returns (slots: seq<int>)
    ensures slots == Decompress(items)
  {
    slots := [];
    for i := 0 to |items|
      invariant slots == Decompress(items[..i])
    {
      assert items[..i + 1][..i] == items[..i];
      match items[i] {
        case Span(start, end) => slots := slots + Range(start, end + 1);
        case One(x) => slots := slots + [x];
      }
    }
    assert items[..|items|] == items;
  }

  /** Length of the run of consecutive numbers at the head. */
  function RunLength(s: seq<int>): (n: nat)
    requires s != []
    ensures 1 <= n <= |s|
    ensures forall i :: 0 <= i < n ==> s[i] == s[0] + i
    ensures n < |s| ==> s[n] != s[0] + n
  {
    if |s| >= 2 && s[1] == s[0] + 1 then 1 + RunLength(s[1..]) else 1
  }

  function Ones(lo: int, hi: int): seq<Item>
    decreases hi - lo
  {
    if lo < hi then Ones(lo, hi - 1) + [One(hi - 1)] else []
  }

  /** What a closed run becomes: a range from length three on, single slots below. */
  function Emit(start: int, end: int): seq<Item>
  {
    if end - start + 1 >= 3 then [Span(start, end)] else Ones(start, end + 1)
  }

  function Compress(s: seq<int>): seq<Item>
  {
    if s == [] then []
    else Emit(s[0], s[0] + RunLength(s) - 1) + Compress(s[RunLength(s)..])
  }

  method AppendRangeOrElements(result: seq<Item>, start: int, end: int) returns (r: seq<Item>)
    ensures r == result + Emit(start, end)
  {
    var length := end - start + 1;
    if length >= 3 {
      r := result + [Span(start, end)];
    } else {
      r := result;
      var i := start;
      while i < end + 1
        invariant i <= end + 1 || i == start
        invariant r == result + Ones(start, i)
        decreases end + 1 - i
      {
        r := r + [One(i)];
        i := i + 1;
      }
    }
  }

  lemma RunIs(s: seq<int>, n: nat)
    requires 1 <= n <= |s| && (forall i :: 0 <= i < n ==> s[i] == s[0] + i) && (n < |s| ==> s[n] != s[0] + n)
    ensures RunLength(s) == n
  {
    var r := RunLength(s);
    assert forall i :: 0 <= i < r ==> s[i] == s[0] + i;
    assert r < |s| ==> s[r] != s[0] + r;
  }

  /** The run at positions at to i closes there. */
  lemma CloseRun(slots: seq<int>, at: nat, i: nat)
    requires at < i <= |slots| && (forall k :: at <= k < i ==> slots[k] == slots[at] + (k - at))
    requires i < |slots| ==> slots[i] != slots[at] + (i - at)
    ensures Compress(slots[at..]) == Emit(slots[at], slots[at] + (i - at) - 1) + Compress(slots[i..])
  {
    hide RunLength;
    RunIs(slots[at..], i - at);
    assert slots[at..][i - at..] == slots[i..];
  }

  method CompressSlots(slots: seq<int>) returns (result: seq<Item>)
    ensures result == Compress(slots)
  {
    hide Compress, Emit, RunLength;
    if slots == [] {
      CompressNothing();
      return [];
    }
    result := [];
    var rangeStart, rangeEnd := slots[0], slots[0];
    ghost var at := 0;
    assert slots[0..] == slots;
    for i := 1 to |slots|
      invariant 0 <= at < i && rangeStart == slots[at] && rangeEnd == rangeStart + (i - at) - 1
      invariant forall k :: at <= k < i ==> slots[k] == slots[at] + (k - at)
      invariant result + Compress(slots[at..]) == Compress(slots)
    {
      var slot := slots[i];
      if slot == rangeEnd + 1 {
        rangeEnd := slot;
      } else {
        CloseRun(slots, at, i);
        result := AppendRangeOrElements(result, rangeStart, rangeEnd);
        rangeStart, rangeEnd := slot, slot;
        at := i;
      }
    }
    CloseRun(slots, at, |slots|);
    CompressNothing();
    assert slots[|slots|..] == [];
    result := AppendRangeOrElements(result, rangeStart, rangeEnd);
  }

  lemma NothingRoundTrips()
    ensures Decompress(Compress([])) == []
  {}

  lemma CompressNothing()
    ensures Compress([]) == []
  {}

  // ---- decompress undoes compress ----

  lemma {:induction false} DecompressConcat(a: seq<Item>, b: seq<Item>)
    ensures Decompress(a + b) == Decompress(a) + Decompress(b)
  {
    hide Expand;
    if b == [] {
      assert a + b == a;
    } else {
      DecompressConcat(a, b[..|b| - 1]);
      assert (a + b)[..|a + b| - 1] == a + b[..|b| - 1];
    }
  }

  lemma {:induction false} DecompressOnes(lo: int, hi: int)
    ensures Decompress(Ones(lo, hi)) == Range(lo, hi)
    decreases hi - lo
  {
    if lo < hi {
      DecompressOnes(lo, hi - 1);
      assert Ones(lo, hi)[..|Ones(lo, hi)| - 1] == Ones(lo, hi - 1);
    }
  }

  lemma DecompressEmit(start: int, end: int)
    ensures Decompress(Emit(start, end)) == Range(start, end + 1)
  {
    DecompressOnes(start, end + 1);
    assert [Span(start, end)][..0] == [];
  }

  lemma RunIsRange(s: seq<int>, n: nat)
    requires s != [] && n <= |s| && forall i :: 0 <= i < n ==> s[i] == s[0] + i
    ensures Range(s[0], s[0] + n) + s[n..] == s
  {
    hide Range;
    var r := Range(s[0], s[0] + n);
    assert r == s[..n];
    assert s[..n] + s[n..] == s;
  }

  /** decompress_slot_mapping(compress_slot_mapping(s)) == s for every list. */
  lemma {:induction false} RoundTrip(s: seq<int>)
    ensures Decompress(Compress(s)) == s
    decreases |s|
  {
    hide Compress, Decompress, Emit, Range, RunLength;
    if s == [] {
      NothingRoundTrips();
    } else {
      var n := RunLength(s);
      RoundTrip(s[n..]);
      CompressStep(s);
      RunIsRange(s, RunLength(s));
      DecompressConcat(Emit(s[0], s[0] + n - 1), Compress(s[n..]));
      DecompressEmit(s[0], s[0] + n - 1);
    }
  }

  // ---- which ranges appear ----

  function Width(item: Item): int
  {
    match item case One(_) => 1 case Span(a, b) => b - a + 1
  }

  /** The item that begins at slot position p is the range [a, b]. */
  predicate SpanAt(items: seq<Item>, p: int, a: int, b: int)
    decreases |items|
  {
    items != [] && ((p == 0 && items[0] == Span(a, b)) || (p >= Width(items[0]) && SpanAt(items[1..], p - Width(items[0]), a, b)))
  }

  /** Positions p to q hold consecutive numbers, and the run goes on neither to the left nor to the right. */
  predicate MaximalRun(s: seq<int>, p: nat, q: nat)
    requires p <= q < |s|
  {
    && (forall i :: p <= i <= q ==> s[i] == s[p] + (i - p))
    && (p > 0 ==> s[p] != s[p - 1] + 1)
    && (q + 1 < |s| ==> s[q + 1] != s[q] + 1)
  }

  /** The ranges of the compressed list are exactly the maximal +1 runs of length three or more. */
  lemma {:induction false} RangesAreMaximalRuns(s: seq<int>, p: nat, q: nat)
    requires p + 2 <= q < |s|
    ensures s[q] == s[p] + (q - p) && SpanAt(Compress(s), p, s[p], s[q]) <==> MaximalRun(s, p, q)
    decreases |s|
  {
    hide Compress, Emit, SpanAt, RunLength, MaximalRun;
    var n := RunLength(s);
    CompressStep(s);
    SpanPastEmit(s[0], n, Compress(s[n..]), p, s[p], s[q]);
    if p == 0 {
      HeadRunMaximal(s, q);
    } else if p < n {
      assert s[p] == s[0] + p && s[p - 1] == s[0] + (p - 1);
      NotMaximal(s, p, q);
    } else {
      RangesAreMaximalRuns(s[n..], p - n, q - n);
      assert s[n - 1] == s[0] + (n - 1);
      ShiftRun(s, n, p, q);
    }
  }

  lemma CompressStep(s: seq<int>)
    requires s != []
    ensures Compress(s) == Emit(s[0], s[0] + RunLength(s) - 1) + Compress(s[RunLength(s)..])
  {
    hide Emit, RunLength;
  }

  lemma NotMaximal(s: seq<int>, p: nat, q: nat)
    requires 0 < p <= q < |s| && s[p] == s[p - 1] + 1
    ensures !MaximalRun(s, p, q)
  {}

  lemma HeadRunMaximal(s: seq<int>, q: nat)
    requires 2 <= q < |s|
    ensures MaximalRun(s, 0, q) <==> q == RunLength(s) - 1
    ensures q == RunLength(s) - 1 ==> s[q] == s[0] + q
    ensures s[q] == s[0] + RunLength(s) - 1 && s[q] == s[0] + q ==> q == RunLength(s) - 1
  {
    if MaximalRun(s, 0, q) { RunIs(s, q + 1); }
  }

  lemma ShiftRun(s: seq<int>, n: nat, p: nat, q: nat)
    requires 0 < n <= p <= q < |s| && (p == n ==> s[n] != s[n - 1] + 1)
    ensures MaximalRun(s[n..], p - n, q - n) <==> MaximalRun(s, p, q)
  {
    var t := s[n..];
    if MaximalRun(t, p - n, q - n) {
      forall i | p <= i <= q ensures s[i] == s[p] + (i - p) { assert t[i - n] == t[p - n] + (i - p); }
    }
  }

  /** The items of the first run: a range of its whole length, or single slots. */
  lemma SpanPastEmit(start: int, n: nat, tail: seq<Item>, p: nat, a: int, b: int)
    requires n >= 1
    ensures SpanAt(Emit(start, start + n - 1) + tail, p, a, b) <==>
              (p == 0 && n >= 3 && a == start && b == start + n - 1) || (p >= n && SpanAt(tail, p - n, a, b))
  {
    var head := Emit(start, start + n - 1);
    if n >= 3 {
      assert (head + tail)[1..] == tail;
    } else {
      SpanPastOnes(start, n, tail, p, a, b);
    }
  }

  lemma SpanPastOnes(start: int, n: nat, tail: seq<Item>, p: nat, a: int, b: int)
    requires 1 <= n <= 2
    ensures SpanAt(Ones(start, start + n) + tail, p, a, b) <==> p >= n && SpanAt(tail, p - n, a, b)
  {
    var items := Ones(start, start + n) + tail;
    assert Ones(start, start + 1) == [One(start)];
    if n == 1 {
      assert items[1..] == tail;
    } else {
      assert Ones(start, start + 2) == [One(start), One(start + 1)];
      assert items[1..] == [One(start + 1)] + tail && items[1..][1..] == tail;
    }
  }
}
