/** Pattern and range matching over integer vectors.  Positions are computed as unsigned and
    reported through a cast to a 32-bit int. */
module PatternMatcher {
  import opened Basics

  /** A matcher's constructor throws on an empty pattern. */
  datatype Matcher = InvalidArgument | RangeMatcher(startPattern: seq<int>, endPattern: seq<int>) | PositionMatcher(pattern: seq<int>)

  function MakeRangeMatcher(startPattern: seq<int>, endPattern: seq<int>): (m: Matcher)
    ensures m.RangeMatcher? <==> startPattern != [] && endPattern != []
    ensures m.RangeMatcher? ==> m.startPattern == startPattern && m.endPattern == endPattern
  {
    if startPattern == [] || endPattern == [] then InvalidArgument else RangeMatcher(startPattern, endPattern)
  }

  function MakePositionMatcher(pattern: seq<int>): (m: Matcher)
    ensures m.PositionMatcher? <==> pattern != []
    ensures m.PositionMatcher? ==> m.pattern == pattern
  {
    if pattern == [] then InvalidArgument else PositionMatcher(pattern)
  }

  /** static_cast<int> of a size_t. */
  function ToInt32(n: nat): (i: int)
    ensures -0x8000_0000 <= i < 0x8000_0000 && (n - i) % 0x1_0000_0000 == 0
  {
    var low := n % 0x1_0000_0000;
    if low < 0x8000_0000 then low else low - 0x1_0000_0000
  }

  predicate Occurs(data: seq<int>, pos: nat, pattern: seq<int>)
  {
    pos + |pattern| <= |data| && data[pos..pos + |pattern|] == pattern
  }

  /** matchesAt. */
  method MatchesAt(data: seq<int>, pos: nat, pattern: seq<int>) returns (b: bool)
    ensures b <==> Occurs(data, pos, pattern)
  {
    if pos + |pattern| > |data| { return false; }
    for i := 0 to |pattern|
      invariant data[pos..pos + i] == pattern[..i]
    {
      if data[pos + i] != pattern[i] {
        assert data[pos..pos + |pattern|][i] != pattern[i];
        return false;
      }
      assert data[pos..pos + i + 1] == data[pos..pos + i] + [data[pos + i]] && pattern[..i + 1] == pattern[..i] + [pattern[i]];
    }
    assert pattern[..|pattern|] == pattern;
    return true;
  }

  // ---- all positions of a pattern ----

  function Positions(data: seq<int>, pattern: seq<int>, upTo: nat): seq<nat>
  {
    if upTo == 0 then []
    else Positions(data, pattern, upTo - 1) + if Occurs(data, upTo - 1, pattern) then [upTo - 1] else []
  }

  method MatchPositions(m: Matcher, data: seq<int>) returns (matches: seq<int>)
    requires m.PositionMatcher? && m == MakePositionMatcher(m.pattern)
    ensures |matches| == |Positions(data, m.pattern, |data|)|
    ensures forall k :: 0 <= k < |matches| ==> matches[k] == ToInt32(Positions(data, m.pattern, |data|)[k])
  {
    var n := |m.pattern|;
    if |data| < n {
      NoPositions(data, m.pattern, 0, |data|);
      return [];
    }
    matches := [];
    var searchEnd := |data| - n + 1;
    for i := 0 to searchEnd
      invariant |matches| == |Positions(data, m.pattern, i)|
      invariant forall k :: 0 <= k < |matches| ==> matches[k] == ToInt32(Positions(data, m.pattern, i)[k])
    {
      var found := true;
      for j := 0 to n
        invariant found && data[i..i + j] == m.pattern[..j]
      {
        if data[i + j] != m.pattern[j] {
          assert data[i..i + n][j] != m.pattern[j];
          found := false;
          break;
        }
        assert data[i..i + j + 1] == data[i..i + j] + [data[i + j]] && m.pattern[..j + 1] == m.pattern[..j] + [m.pattern[j]];
      }
      assert found <==> Occurs(data, i, m.pattern);
      if found { matches := matches + [ToInt32(i)]; }
    }
    NoPositions(data, m.pattern, searchEnd, |data|);
  }

  lemma {:induction false} NoPositions(data: seq<int>, pattern: seq<int>, lo: nat, hi: nat)
    requires lo <= hi && forall i :: lo <= i < hi ==> !Occurs(data, i, pattern)
    ensures Positions(data, pattern, hi) == Positions(data, pattern, lo)
    decreases hi
  {
    if lo < hi { NoPositions(data, pattern, lo, hi - 1); }
  }

  /** The reported positions are exactly the occurrences, in ascending order. */
  lemma {:induction false} PositionsMeaning(data: seq<int>, pattern: seq<int>, n: nat)
    ensures forall i: nat :: i in Positions(data, pattern, n) <==> i < n && Occurs(data, i, pattern)
    ensures forall j, k :: 0 <= j < k < |Positions(data, pattern, n)| ==> Positions(data, pattern, n)[j] < Positions(data, pattern, n)[k]
  {
    if n > 0 {
      PositionsMeaning(data, pattern, n - 1);
      var front := Positions(data, pattern, n - 1);
      forall j | 0 <= j < |front| ensures front[j] < n - 1 { assert front[j] in front; }
    }
  }

  // ---- ranges ----

  /** The first occurrence of a pattern at or after position j. */
  function FirstFrom(data: seq<int>, pattern: seq<int>, j: nat): (r: Option<nat>)
    ensures r.Some? ==> r.value >= j && Occurs(data, r.value, pattern) && forall i: nat :: j <= i < r.value ==> !Occurs(data, i, pattern)
    ensures r.None? ==> forall i: nat :: j <= i ==> !Occurs(data, i, pattern)
    decreases |data| - j
  {
    if j + |pattern| > |data| then None
    else if Occurs(data, j, pattern) then Some(j)
    else if j == |data| then None
    else FirstFrom(data, pattern, j + 1)
  }

  /** A start pattern at i that has an end pattern somewhere after it. */
  predicate Opens(data: seq<int>, s: seq<int>, e: seq<int>, i: nat)
  {
    Occurs(data, i, s) && FirstFrom(data, e, i + |s|).Some?
  }

  /** The exclusive end of the range that opens at i: just after the first end pattern behind it. */
  function Closes(data: seq<int>, s: seq<int>, e: seq<int>, i: nat): nat
    requires Opens(data, s, e, i)
  {
    FirstFrom(data, e, i + |s|).value + |e|
  }

  /** The reference: try every position in turn, and go on behind each range found. */
  function Scan(data: seq<int>, s: seq<int>, e: seq<int>, i: nat): seq<(nat, nat)>
    requires s != [] && e != []
    decreases |data| - i
  {
    if i >= |data| then []
    else if Opens(data, s, e, i) then [(i, Closes(data, s, e, i))] + Scan(data, s, e, Closes(data, s, e, i))
    else Scan(data, s, e, i + 1)
  }

  function Casts(ranges: seq<(nat, nat)>): seq<(int, int)>
  {
    seq(|ranges|, k requires 0 <= k < |ranges| => (ToInt32(ranges[k].0), ToInt32(ranges[k].1)))
  }

  /** Nothing opens from p on when no end pattern lies behind a start there. */
  lemma {:induction false} ScanEmpty(data: seq<int>, s: seq<int>, e: seq<int>, i: nat)
    requires s != [] && e != [] && forall k: nat :: i <= k ==> !Opens(data, s, e, k)
    ensures Scan(data, s, e, i) == []
    decreases |data| - i
  {
    if i < |data| { ScanEmpty(data, s, e, i + 1); }
  }

  lemma CastsAppend(ranges: seq<(nat, nat)>, start: nat, end: nat)
    ensures Casts(ranges + [(start, end)]) == Casts(ranges) + [(ToInt32(start), ToInt32(end))]
  {
    hide ToInt32;
  }

  /** The inner loop of match: the first end pattern at or after searchStart. */
  method FindEnd(data: seq<int>, e: seq<int>, searchStart: nat) returns (foundEnd: bool, j: nat)
    ensures searchStart <= j && forall k: nat :: searchStart <= k < j ==> !Occurs(data, k, e)
    ensures foundEnd ==> Occurs(data, j, e)
    ensures !foundEnd ==> j + |e| > |data|
  {
    hide Occurs;
    foundEnd, j := false, searchStart;
    while j <= |data| - |e|
      invariant searchStart <= j && forall k: nat :: searchStart <= k < j ==> !Occurs(data, k, e)
      decreases |data| - j
    {
      var atEnd := MatchesAt(data, j, e);
      if atEnd { return true, j; }
      j := j + 1;
    }
  }

  /** RangePatternMatcher::match: the scan that skips a whole start pattern when it finds no end
      returns what the reference returns. */
  method Match(m: Matcher, data: seq<int>) returns (ranges: seq<(int, int)>)
    requires m.RangeMatcher? && m == MakeRangeMatcher(m.startPattern, m.endPattern)
    ensures ranges == Casts(Scan(data, m.startPattern, m.endPattern, 0))
  {
    hide Occurs, Opens, Closes, Scan, ToInt32;
    var s, e := m.startPattern, m.endPattern;
    ranges := [];
    if |data| < |s| + |e| {
      TooShort(data, s, e, 0);
      return;
    }
    var i := 0;
    ghost var found: seq<(nat, nat)> := [];
    while i <= |data| - |s|
      invariant ranges == Casts(found)
      invariant found + Scan(data, s, e, i) == Scan(data, s, e, 0)
      decreases |data| - i
    {
      var atStart := MatchesAt(data, i, s);
      if atStart {
        var startPos := ToInt32(i);
        var foundEnd, j := FindEnd(data, e, i + |s|);
        if foundEnd {
          ScanFound(data, s, e, i, j, found);
          CastsAppend(found, i, j + |e|);
          ranges := ranges + [(startPos, ToInt32(j + |e|))];
          found := found + [(i, j + |e|)];
          i := j + |e|;
        } else {
          NoEndBehind(data, s, e, i, j);
          i := i + |s|;
        }
      } else {
        ScanPast(data, s, e, i);
        i := i + 1;
      }
    }
    TooShort(data, s, e, i);
  }

  /** Close to the end of the data nothing opens any more. */
  lemma TooShort(data: seq<int>, s: seq<int>, e: seq<int>, i: nat)
    requires s != [] && e != [] && (|data| < |s| + |e| || i > |data| - |s|)
    ensures Scan(data, s, e, i) == []
  {
    ScanEmpty(data, s, e, i);
  }

  lemma ScanStep(data: seq<int>, s: seq<int>, e: seq<int>, i: nat)
    requires s != [] && e != [] && i < |data|
    ensures Scan(data, s, e, i) ==
      if Opens(data, s, e, i) then [(i, Closes(data, s, e, i))] + Scan(data, s, e, Closes(data, s, e, i)) else Scan(data, s, e, i + 1)
  {}

  lemma ScanPast(data: seq<int>, s: seq<int>, e: seq<int>, i: nat)
    requires s != [] && e != [] && i < |data| && !Occurs(data, i, s)
    ensures Scan(data, s, e, i) == Scan(data, s, e, i + 1)
  {}

  lemma ScanFound(data: seq<int>, s: seq<int>, e: seq<int>, i: nat, j: nat, found: seq<(nat, nat)>)
    requires s != [] && e != [] && i < |data| && Occurs(data, i, s) && i + |s| <= j && Occurs(data, j, e)
    requires forall k: nat :: i + |s| <= k < j ==> !Occurs(data, k, e)
    ensures (found + [(i, j + |e|)]) + Scan(data, s, e, j + |e|) == found + Scan(data, s, e, i)
  {
    FirstEnd(data, s, e, i, j);
    hide Occurs, Opens, Closes;
    ScanStep(data, s, e, i);
    hide Scan;
    Reassociate(found, (i, j + |e|), Scan(data, s, e, j + |e|));
  }

  lemma Reassociate<T>(a: seq<T>, x: T, b: seq<T>)
    ensures (a + [x]) + b == a + ([x] + b)
  {}

  lemma FirstEnd(data: seq<int>, s: seq<int>, e: seq<int>, i: nat, j: nat)
    requires Occurs(data, i, s) && i + |s| <= j && Occurs(data, j, e) && forall k: nat :: i + |s| <= k < j ==> !Occurs(data, k, e)
    ensures Opens(data, s, e, i) && Closes(data, s, e, i) == j + |e|
  {}

  /** With no end pattern behind i, stepping by one and skipping the start pattern both find nothing. */
  lemma NoEndBehind(data: seq<int>, s: seq<int>, e: seq<int>, i: nat, j: nat)
    requires s != [] && e != [] && j + |e| > |data| && forall k: nat :: i + |s| <= k < j ==> !Occurs(data, k, e)
    ensures Scan(data, s, e, i) == [] && Scan(data, s, e, i + |s|) == []
  {
    ScanEmpty(data, s, e, i);
    ScanEmpty(data, s, e, i + |s|);
  }

  /** What a caller may rely on, from position i: each range opens at a start pattern and closes at
      the first end pattern behind it; the ranges are in order and disjoint; and every start
      pattern with a later end pattern lies inside one of them. */
  ghost predicate IsAnswer(data: seq<int>, s: seq<int>, e: seq<int>, i: nat, ranges: seq<(nat, nat)>)
  {
    && (forall k :: 0 <= k < |ranges| ==> Genuine(data, s, e, i, ranges[k]))
    && Ordered(ranges)
    && CoversAll(data, s, e, i, ranges)
  }

  ghost predicate Genuine(data: seq<int>, s: seq<int>, e: seq<int>, i: nat, range: (nat, nat))
  {
    i <= range.0 && Opens(data, s, e, range.0) && range.1 == Closes(data, s, e, range.0)
  }

  ghost predicate Ordered(ranges: seq<(nat, nat)>)
  {
    forall j, k :: 0 <= j < k < |ranges| ==> ranges[j].1 <= ranges[k].0
  }

  ghost predicate CoversAll(data: seq<int>, s: seq<int>, e: seq<int>, i: nat, ranges: seq<(nat, nat)>)
  {
    forall p: nat :: i <= p && Opens(data, s, e, p) ==> Covered(ranges, p)
  }

  ghost predicate Covered(ranges: seq<(nat, nat)>, p: nat)
  {
    exists k :: 0 <= k < |ranges| && ranges[k].0 <= p < ranges[k].1
  }

  lemma OpensBounds(data: seq<int>, s: seq<int>, e: seq<int>)
    requires s != [] && e != []
    ensures forall p: nat :: Opens(data, s, e, p) ==> p < |data| && p < Closes(data, s, e, p) <= |data|
  {}

  /** The result has these properties, and they leave no other result. */
  lemma {:induction false} ScanIsTheAnswer(data: seq<int>, s: seq<int>, e: seq<int>, i: nat, ranges: seq<(nat, nat)>)
    requires s != [] && e != []
    ensures IsAnswer(data, s, e, i, ranges) <==> ranges == Scan(data, s, e, i)
    decreases |data| - i
  {
    OpensBounds(data, s, e);
    hide Opens, Closes, Covered, IsAnswer;
    if i >= |data| {
      AnswerPastEnd(data, s, e, i, ranges);
    } else if Opens(data, s, e, i) {
      var c := Closes(data, s, e, i);
      if ranges == [] {
        NoAnswerWithout(data, s, e, i);
      } else {
        var rest := ranges[1..];
        ScanIsTheAnswer(data, s, e, c, rest);
        if IsAnswer(data, s, e, i, ranges) {
          AnswerTail(data, s, e, i, ranges);
          assert ranges == [ranges[0]] + rest;
        }
        if ranges == Scan(data, s, e, i) {
          assert rest == Scan(data, s, e, c);
          AnswerCons(data, s, e, i, rest);
        }
      }
    } else {
      ScanIsTheAnswer(data, s, e, i + 1, ranges);
      AnswerSkip(data, s, e, i, ranges);
    }
  }

  lemma AnswerPastEnd(data: seq<int>, s: seq<int>, e: seq<int>, i: nat, ranges: seq<(nat, nat)>)
    requires s != [] && e != [] && i >= |data|
    ensures IsAnswer(data, s, e, i, ranges) <==> ranges == []
  {
    OpensBounds(data, s, e);
    hide Opens, Closes;
    assert ranges != [] ==> !(i <= ranges[0].0 && Opens(data, s, e, ranges[0].0));
  }

  lemma NoAnswerWithout(data: seq<int>, s: seq<int>, e: seq<int>, i: nat)
    requires s != [] && e != [] && Opens(data, s, e, i)
    ensures !IsAnswer(data, s, e, i, [])
  {
    hide Opens, Closes;
    assert !Covered([], i);
  }

  /** A position that opens nothing may be skipped. */
  lemma AnswerSkip(data: seq<int>, s: seq<int>, e: seq<int>, i: nat, ranges: seq<(nat, nat)>)
    requires s != [] && e != [] && !Opens(data, s, e, i)
    ensures IsAnswer(data, s, e, i, ranges) <==> IsAnswer(data, s, e, i + 1, ranges)
  {
    hide Opens, Closes, Covered;
    if IsAnswer(data, s, e, i, ranges) {
      assert forall k :: 0 <= k < |ranges| ==> Opens(data, s, e, ranges[k].0);
      assert forall k :: 0 <= k < |ranges| ==> ranges[k].0 != i;
    }
  }

  lemma CoveredTail(ranges: seq<(nat, nat)>, p: nat)
    requires ranges != [] && Covered(ranges, p) && ranges[0].1 <= p
    ensures Covered(ranges[1..], p)
  {
    var m :| 0 <= m < |ranges| && ranges[m].0 <= p < ranges[m].1;
    assert ranges[1..][m - 1] == ranges[m];
  }

  lemma CoveredCons(ranges: seq<(nat, nat)>, p: nat)
    requires ranges != [] && (ranges[0].0 <= p < ranges[0].1 || Covered(ranges[1..], p))
    ensures Covered(ranges, p)
  {
    if !(ranges[0].0 <= p < ranges[0].1) {
      var m :| 0 <= m < |ranges[1..]| && ranges[1..][m].0 <= p < ranges[1..][m].1;
      assert ranges[m + 1] == ranges[1..][m];
    }
  }

  lemma OpensAt(data: seq<int>, s: seq<int>, e: seq<int>, p: nat)
    requires s != [] && e != [] && Opens(data, s, e, p)
    ensures p < |data| && p < Closes(data, s, e, p) <= |data|
  {}

  lemma AnswerTail(data: seq<int>, s: seq<int>, e: seq<int>, i: nat, ranges: seq<(nat, nat)>)
    requires s != [] && e != [] && Opens(data, s, e, i) && ranges != [] && IsAnswer(data, s, e, i, ranges)
    ensures ranges[0] == (i, Closes(data, s, e, i)) && IsAnswer(data, s, e, Closes(data, s, e, i), ranges[1..])
  {
    HeadStartsAt(data, s, e, i, ranges);
    OrderedTail(ranges);
    OpensAt(data, s, e, i);
    hide Opens, Closes, Covered, Ordered;
    var c := Closes(data, s, e, i);
    forall k | 0 <= k < |ranges[1..]| ensures Genuine(data, s, e, c, ranges[1..][k]) {
      assert Genuine(data, s, e, i, ranges[k + 1]);
    }
    forall p: nat | c <= p && Opens(data, s, e, p) ensures Covered(ranges[1..], p) {
      CoveredTail(ranges, p);
    }
  }

  lemma OrderedTail(ranges: seq<(nat, nat)>)
    requires ranges != [] && Ordered(ranges)
    ensures Ordered(ranges[1..]) && forall k :: 0 <= k < |ranges[1..]| ==> ranges[0].1 <= ranges[1..][k].0
  {}

  lemma OrderedCons(range: (nat, nat), rest: seq<(nat, nat)>)
    requires Ordered(rest) && forall k :: 0 <= k < |rest| ==> range.1 <= rest[k].0
    ensures Ordered([range] + rest)
  {}

  /** The first range starts at the first position that opens one. */
  lemma HeadStartsAt(data: seq<int>, s: seq<int>, e: seq<int>, i: nat, ranges: seq<(nat, nat)>)
    requires s != [] && e != [] && Opens(data, s, e, i) && ranges != [] && IsAnswer(data, s, e, i, ranges)
    ensures ranges[0] == (i, Closes(data, s, e, i))
  {
    hide Opens, Closes;
    assert Covered(ranges, i);
    var k :| 0 <= k < |ranges| && ranges[k].0 <= i < ranges[k].1;
    assert Genuine(data, s, e, i, ranges[0]) && Genuine(data, s, e, i, ranges[k]);
    OpensAt(data, s, e, ranges[0].0);
  }

  lemma AnswerCons(data: seq<int>, s: seq<int>, e: seq<int>, i: nat, rest: seq<(nat, nat)>)
    requires s != [] && e != [] && Opens(data, s, e, i) && IsAnswer(data, s, e, Closes(data, s, e, i), rest)
    ensures IsAnswer(data, s, e, i, [(i, Closes(data, s, e, i))] + rest)
  {
    OpensAt(data, s, e, i);
    hide Opens, Closes, Covered, Ordered;
    var c := Closes(data, s, e, i);
    var ranges := [(i, c)] + rest;
    assert ranges[1..] == rest;
    forall k | 0 <= k < |rest| ensures Genuine(data, s, e, i, rest[k]) && c <= rest[k].0 {
      assert Genuine(data, s, e, c, rest[k]);
    }
    OrderedCons((i, c), rest);
    forall k | 0 <= k < |ranges| ensures Genuine(data, s, e, i, ranges[k]) {
      if k > 0 { assert ranges[k] == rest[k - 1]; }
    }
    hide Genuine;
    forall p: nat | i <= p && Opens(data, s, e, p) ensures Covered(ranges, p) {
      if c <= p { assert Covered(rest, p); }
      CoveredCons(ranges, p);
    }
  }

  /** Below 2^31 elements the cast changes nothing. */
  lemma CastsAreExact(data: seq<int>, s: seq<int>, e: seq<int>, k: nat)
    requires s != [] && e != [] && |data| < 0x8000_0000 && k < |Scan(data, s, e, 0)|
    ensures Casts(Scan(data, s, e, 0))[k].0 == Scan(data, s, e, 0)[k].0
    ensures Casts(Scan(data, s, e, 0))[k].1 == Scan(data, s, e, 0)[k].1
  {
    hide Opens, Closes, Scan, Covered;
    var ranges := Scan(data, s, e, 0);
    ScanIsTheAnswer(data, s, e, 0, ranges);
    assert Opens(data, s, e, ranges[k].0) && ranges[k].1 == Closes(data, s, e, ranges[k].0);
    OpensBounds(data, s, e);
  }
}
