/** The segment token database: splitting a token list at a separator and reporting each piece. */
module SegmentSplit {
  import opened Basics
  import opened TokenChunks
  import PatternMatcher

  /** Where the sliding windows equal the separator, in ascending order. */
  function Matches(tokens: seq<int>, sep: seq<int>): seq<nat>
  {
    PatternMatcher.Positions(tokens, sep, |tokens| + 1)
  }

  /** A tensor slice: empty when its end is not behind its start. */
  function Slice(tokens: seq<int>, lo: nat, hi: nat): seq<int>
  {
    if lo <= hi <= |tokens| then tokens[lo..hi] else []
  }

  /** The pieces between the matches, from `start` to the end of the tokens. */
  function Pieces(tokens: seq<int>, matches: seq<nat>, n: nat, start: nat): (r: seq<seq<int>>)
    ensures |r| == |matches| + 1
  {
    if matches == [] then [Slice(tokens, start, |tokens|)]
    else [Slice(tokens, start, matches[0])] + Pieces(tokens, matches[1..], n, matches[0] + n)
  }

  /** What the splitting generator yields before it finishes or raises.  With an empty separator, or
      one longer than the tokens, the whole list comes first; the sliding window then raises when
      the separator is the longer of the two. */
  function Split(tokens: seq<int>, sep: seq<int>): (seq<seq<int>>, bool)
  {
    if |tokens| < |sep| then ([tokens], true)
    else ((if sep == [] then [tokens] else []) + Pieces(tokens, Matches(tokens, sep), |sep|, 0), false)
  }

  method FastSplit(tokens: seq<int>, sep: seq<int>) returns (pieces: seq<seq<int>>, raised: bool)
    ensures (pieces, raised) == Split(tokens, sep)
  {
    hide Matches;
    pieces := [];
    if sep == [] || |tokens| < |sep| {
      pieces := [tokens];
    }
    if |tokens| < |sep| { return pieces, true; }
    var matches := Matches(tokens, sep);
    ghost var first := pieces;
    var start: nat := 0;
    for k := 0 to |matches|
      invariant pieces + Pieces(tokens, matches[k..], |sep|, start) == first + Pieces(tokens, matches, |sep|, 0)
    {
      var idx := matches[k];
      assert matches[k..][0] == idx && matches[k..][1..] == matches[k + 1..];
      pieces := pieces + [Slice(tokens, start, idx)];
      start := idx + |sep|;
    }
    assert matches[|matches|..] == [];
    pieces := pieces + [Slice(tokens, start, |tokens|)];
    raised := false;
  }

  /** The pieces with the separator between them. */
  function Join(pieces: seq<seq<int>>, sep: seq<int>): seq<int>
    requires pieces != []
  {
    if |pieces| == 1 then pieces[0] else pieces[0] + sep + Join(pieces[1..], sep)
  }

  /** The running spans process_tokens reports, one per piece, from position `at`. */
  function Spans(pieces: seq<seq<int>>, n: nat, at: nat): (r: seq<(nat, nat)>)
    ensures |r| == |pieces|
  {
    if pieces == [] then [] else [(at, at + |pieces[0]|)] + Spans(pieces[1..], n, at + |pieces[0]| + n)
  }

  /** No match begins inside the one before it. */
  predicate Apart(matches: seq<nat>, n: nat)
  {
    forall k :: 0 <= k < |matches| - 1 ==> matches[k] + n <= matches[k + 1]
  }

  // ---- joining and splitting ----

  /** The match positions from some point on: ascending, each an occurrence. */
  ghost predicate Occurrences(tokens: seq<int>, sep: seq<int>, matches: seq<nat>)
  {
    forall k :: 0 <= k < |matches| ==> PatternMatcher.Occurs(tokens, matches[k], sep)
  }

  lemma MatchesMeaning(tokens: seq<int>, sep: seq<int>)
    ensures Occurrences(tokens, sep, Matches(tokens, sep))
    ensures forall i: nat :: i in Matches(tokens, sep) <==> PatternMatcher.Occurs(tokens, i, sep)
    ensures forall j, k :: 0 <= j < k < |Matches(tokens, sep)| ==> Matches(tokens, sep)[j] < Matches(tokens, sep)[k]
  {
    PatternMatcher.PositionsMeaning(tokens, sep, |tokens| + 1);
    forall k | 0 <= k < |Matches(tokens, sep)| ensures PatternMatcher.Occurs(tokens, Matches(tokens, sep)[k], sep) {
      assert Matches(tokens, sep)[k] in Matches(tokens, sep);
    }
  }

  lemma ApartTail(matches: seq<nat>, n: nat)
    requires matches != [] && Apart(matches, n)
    ensures Apart(matches[1..], n)
  {}

  lemma {:induction false} JoinPieces(tokens: seq<int>, sep: seq<int>, matches: seq<nat>, start: nat)
    requires sep != [] && Occurrences(tokens, sep, matches) && Apart(matches, |sep|)
    requires start <= |tokens| && (matches != [] ==> start <= matches[0])
    ensures Join(Pieces(tokens, matches, |sep|, start), sep) == tokens[start..]
  {
    if matches != [] {
      var m := matches[0];
      assert PatternMatcher.Occurs(tokens, m, sep);
      CutAt(tokens, start, m, |sep|);
      ApartTail(matches, |sep|);
      JoinCons(tokens[start..m], Pieces(tokens, matches[1..], |sep|, m + |sep|), sep);
      hide Join;
      JoinPieces(tokens, sep, matches[1..], m + |sep|);
    }
  }

  lemma JoinCons(piece: seq<int>, rest: seq<seq<int>>, sep: seq<int>)
    requires rest != []
    ensures Join([piece] + rest, sep) == piece + sep + Join(rest, sep)
  {
    assert ([piece] + rest)[1..] == rest;
  }

  lemma CutAt(tokens: seq<int>, start: nat, m: nat, n: nat)
    requires start <= m && m + n <= |tokens|
    ensures tokens[start..] == tokens[start..m] + tokens[m..m + n] + tokens[m + n..]
  {}

  /** The joined length never falls short, and overlapping matches make it too long. */
  lemma {:induction false} JoinLength(tokens: seq<int>, sep: seq<int>, matches: seq<nat>, start: nat)
    requires Occurrences(tokens, sep, matches) && start <= |tokens|
    ensures |Join(Pieces(tokens, matches, |sep|, start), sep)| >= |tokens| - start
    ensures (matches != [] && matches[0] < start) || !Apart(matches, |sep|) ==>
              |Join(Pieces(tokens, matches, |sep|, start), sep)| > |tokens| - start
  {
    if matches != [] {
      var m := matches[0];
      assert PatternMatcher.Occurs(tokens, m, sep);
      JoinLength(tokens, sep, matches[1..], m + |sep|);
      if !Apart(matches, |sep|) && start <= m {
        var k :| 0 <= k < |matches| - 1 && matches[k] + |sep| > matches[k + 1];
        if k > 0 { assert matches[1..][k - 1] == matches[k] && matches[1..][k] == matches[k + 1]; }
      }
    }
  }

  /** Joining the split pieces with the separator gives back the tokens exactly when the separator's
      matches do not overlap. */
  lemma JoinRestoresTokens(tokens: seq<int>, sep: seq<int>)
    requires 1 <= |sep| <= |tokens|
    ensures Join(Split(tokens, sep).0, sep) == tokens <==> Apart(Matches(tokens, sep), |sep|)
  {
    MatchesMeaning(tokens, sep);
    var matches := Matches(tokens, sep);
    assert Split(tokens, sep).0 == Pieces(tokens, matches, |sep|, 0);
    JoinLength(tokens, sep, matches, 0);
    if Apart(matches, |sep|) { JoinPieces(tokens, sep, matches, 0); }
  }

  lemma SubSlice(tokens: seq<int>, lo: nat, hi: nat, p: nat, q: nat)
    requires lo <= hi <= |tokens| && p <= q <= hi - lo
    ensures tokens[lo..hi][p..q] == tokens[lo + p..lo + q]
  {
    var a, b := tokens[lo..hi][p..q], tokens[lo + p..lo + q];
    assert |a| == |b|;
    forall i | 0 <= i < |a| ensures a[i] == b[i] {
      assert a[i] == tokens[lo..hi][p + i];
    }
  }

  /** Between two neighbouring matches there is no other. */
  lemma GapFree(tokens: seq<int>, sep: seq<int>, start: nat, hi: nat, p: nat)
    requires forall q: nat :: start <= q && PatternMatcher.Occurs(tokens, q, sep) ==> q + |sep| > hi
    ensures sep != [] ==> !PatternMatcher.Occurs(Slice(tokens, start, hi), p, sep)
  {
    var piece := Slice(tokens, start, hi);
    if sep != [] && p + |sep| <= |piece| {
      assert start <= hi <= |tokens|;
      SubSlice(tokens, start, hi, p, p + |sep|);
      assert !PatternMatcher.Occurs(tokens, start + p, sep);
    }
  }

  lemma {:induction false} PiecesFree(tokens: seq<int>, sep: seq<int>, matches: seq<nat>, start: nat, i: nat, p: nat)
    requires sep != [] && i <= |matches| && (matches != [] ==> start <= matches[0] + |sep|)
    requires forall j, k :: 0 <= j < k < |matches| ==> matches[j] < matches[k]
    requires forall q: nat :: start <= q && PatternMatcher.Occurs(tokens, q, sep) ==> q in matches
    ensures !PatternMatcher.Occurs(Pieces(tokens, matches, |sep|, start)[i], p, sep)
  {
    hide PatternMatcher.Occurs;
    if i == 0 {
      OccursInside(tokens, sep);
      GapFree(tokens, sep, start, if matches == [] then |tokens| else matches[0], p);
    } else {
      var m := matches[0];
      forall q: nat | m + |sep| <= q && PatternMatcher.Occurs(tokens, q, sep) ensures q in matches[1..] {
        assert q in matches;
      }
      PiecesFree(tokens, sep, matches[1..], m + |sep|, i - 1, p);
    }
  }

  lemma OccursInside(tokens: seq<int>, sep: seq<int>)
    ensures forall q: nat :: PatternMatcher.Occurs(tokens, q, sep) ==> q + |sep| <= |tokens|
  {}

  /** No piece contains the separator, whether or not its matches overlap. */
  lemma NoPieceContainsSeparator(tokens: seq<int>, sep: seq<int>, i: nat, p: nat)
    requires 1 <= |sep| <= |tokens| && i < |Split(tokens, sep).0|
    ensures !PatternMatcher.Occurs(Split(tokens, sep).0[i], p, sep)
  {
    MatchesMeaning(tokens, sep);
    PiecesFree(tokens, sep, Matches(tokens, sep), 0, i, p);
  }

  // ---- the reported spans ----

  /** Piece k is what lies at span k of the tokens. */
  ghost predicate SitsAt(tokens: seq<int>, piece: seq<int>, span: (nat, nat))
  {
    span.0 <= span.1 <= |tokens| && tokens[span.0..span.1] == piece
  }

  lemma {:induction false} SpansSit(tokens: seq<int>, sep: seq<int>, matches: seq<nat>, start: nat, k: nat)
    requires sep != [] && Occurrences(tokens, sep, matches) && Apart(matches, |sep|)
    requires start <= |tokens| && (matches != [] ==> start <= matches[0]) && k <= |matches|
    ensures SitsAt(tokens, Pieces(tokens, matches, |sep|, start)[k], Spans(Pieces(tokens, matches, |sep|, start), |sep|, start)[k])
  {
    if matches != [] {
      assert PatternMatcher.Occurs(tokens, matches[0], sep);
      assert Pieces(tokens, matches, |sep|, start)[1..] == Pieces(tokens, matches[1..], |sep|, matches[0] + |sep|);
      if k > 0 {
        ApartTail(matches, |sep|);
        SpansSit(tokens, sep, matches[1..], matches[0] + |sep|, k - 1);
      }
    }
  }

  /** The last reported end is the length of the joined pieces. */
  lemma {:induction false} LastSpanEnd(pieces: seq<seq<int>>, sep: seq<int>, at: nat)
    requires pieces != []
    ensures Spans(pieces, |sep|, at)[|pieces| - 1].1 == at + |Join(pieces, sep)|
  {
    var next := at + |pieces[0]| + |sep|;
    assert Spans(pieces, |sep|, at) == [(at, at + |pieces[0]|)] + Spans(pieces[1..], |sep|, next);
    if |pieces| > 1 {
      assert |Join(pieces, sep)| == |pieces[0]| + |sep| + |Join(pieces[1..], sep)|;
      hide Spans, Join;
      LastSpanEnd(pieces[1..], sep, next);
    }
  }

  /** Every reported (start, end) is where its hashed piece sits in the tokens exactly when the
      separator's matches do not overlap. */
  lemma SpansLocatePieces(tokens: seq<int>, sep: seq<int>)
    requires 1 <= |sep| <= |tokens|
    ensures var pieces := Split(tokens, sep).0; var spans := Spans(pieces, |sep|, 0);
            (forall k :: 0 <= k < |pieces| ==> SitsAt(tokens, pieces[k], spans[k])) <==> Apart(Matches(tokens, sep), |sep|)
  {
    MatchesMeaning(tokens, sep);
    var matches := Matches(tokens, sep);
    var pieces := Split(tokens, sep).0;
    var spans := Spans(pieces, |sep|, 0);
    assert pieces == Pieces(tokens, matches, |sep|, 0);
    if Apart(matches, |sep|) {
      forall k | 0 <= k < |pieces| ensures SitsAt(tokens, pieces[k], spans[k]) { SpansSit(tokens, sep, matches, 0, k); }
    } else {
      JoinLength(tokens, sep, matches, 0);
      LastSpanEnd(pieces, sep, 0);
      assert !SitsAt(tokens, pieces[|pieces| - 1], spans[|pieces| - 1]);
    }
  }

  /** A separator that overlaps itself: the second match of [1, 1] in [1, 1, 1] begins inside the first. */
  lemma OverlapExample()
    ensures !Apart(Matches([1, 1, 1], [1, 1]), 2)
    ensures Join(Split([1, 1, 1], [1, 1]).0, [1, 1]) != [1, 1, 1]
  {
    MatchesMeaning([1, 1, 1], [1, 1]);
    var ms := Matches([1, 1, 1], [1, 1]);
    assert PatternMatcher.Occurs([1, 1, 1], 0, [1, 1]) && PatternMatcher.Occurs([1, 1, 1], 1, [1, 1]);
    assert 0 in ms && 1 in ms;
    var i :| 0 <= i < |ms| && ms[i] == 0;
    var j :| 0 <= j < |ms| && ms[j] == 1;
    assert i < j;
    assert ms[i + 1] <= 1;
    JoinRestoresTokens([1, 1, 1], [1, 1]);
  }

  // ---- process_tokens ----

  datatype SegmentOutcome<H> = Segments(entries: seq<Entry<H>>, raised: bool) | Rejected

  /** The entries of the pieces whose start is not masked out. */
  function SegmentEntries<H>(db: Database<H>, pieces: seq<seq<int>>, spans: seq<(nat, nat)>, numFalses: nat,
                             makeKey: bool, configs: Option<seq<(string, string)>>, n: nat): seq<Entry<H>>
    requires n <= |pieces| == |spans|
  {
    if n == 0 then []
    else
      SegmentEntries(db, pieces, spans, numFalses, makeKey, configs, n - 1)
      + if spans[n - 1].0 >= numFalses
        then [Entry(spans[n - 1].0, spans[n - 1].1, MakeIdent(db, HashTokens(db, pieces[n - 1], None), makeKey, configs))]
        else []
  }

  lemma {:induction false} SpanStep(pieces: seq<seq<int>>, n: nat, at: nat, k: nat)
    requires k < |pieces|
    ensures Spans(pieces, n, at)[k].1 == Spans(pieces, n, at)[k].0 + |pieces[k]|
    ensures Spans(pieces, n, at)[k].0 == if k == 0 then at else Spans(pieces, n, at)[k - 1].1 + n
  {
    if k > 0 { SpanStep(pieces[1..], n, at + |pieces[0]| + n, k - 1); }
  }

  // ---- the same without splitting or hashing functions ----

  /** The separator stands at position p. */
  predicate SepAt(tokens: seq<int>, sep: seq<int>, p: int)
  {
    0 <= p && p + |sep| <= |tokens| && tokens[p..p + |sep|] == sep
  }

  /** The separator never stands inside another one's place. */
  ghost predicate NoOverlap(tokens: seq<int>, sep: seq<int>)
  {
    forall p: nat, q: nat :: SepAt(tokens, sep, p) && SepAt(tokens, sep, q) && p < q ==> p + |sep| <= q
  }

  /** The tokens between two separators, or between one and an end. */
  ghost predicate IsPiece(tokens: seq<int>, sep: seq<int>, lo: nat, hi: nat)
  {
    && lo <= hi <= |tokens| && (lo == 0 || SepAt(tokens, sep, lo - |sep|)) && (hi == |tokens| || SepAt(tokens, sep, hi))
    && forall p: nat :: lo <= p < hi ==> !SepAt(tokens, sep, p)
  }

  /** The tokens of a span, hashed on their own. */
  predicate CarriesSpan<H(==)>(db: Database<H>, tokens: seq<int>, makeKey: bool, configs: Option<seq<(string, string)>>, e: Entry<H>)
  {
    e.start <= e.end <= |tokens| && Carries(db, e.ident, db.hash(HashInput(db.noneHash, tokens[e.start..e.end], [])), makeKey, configs)
  }

  /** Exactly the pieces that start behind the masked tokens, in order, each with the hash of its own tokens. */
  ghost predicate YieldsPieces<H>(db: Database<H>, sep: seq<int>, tokens: seq<int>, masked: nat, makeKey: bool,
                                  configs: Option<seq<(string, string)>>, entries: seq<Entry<H>>)
  {
    && (forall e :: e in entries ==>
          e.start >= masked && IsPiece(tokens, sep, e.start, e.end) && CarriesSpan(db, tokens, makeKey, configs, e))
    && (forall lo: nat, hi: nat :: lo >= masked && IsPiece(tokens, sep, lo, hi) ==> exists e :: e in entries && e.start == lo && e.end == hi)
    && (forall i, j :: 0 <= i < j < |entries| ==> entries[i].start < entries[j].start)
  }

  lemma SepOccurs(tokens: seq<int>, sep: seq<int>, p: nat)
    ensures SepAt(tokens, sep, p) <==> p in Matches(tokens, sep)
  {
    MatchesMeaning(tokens, sep);
  }

  /** The matches stay apart exactly when no two separators overlap. */
  lemma ApartMeans(tokens: seq<int>, sep: seq<int>)
    requires sep != []
    ensures Apart(Matches(tokens, sep), |sep|) <==> NoOverlap(tokens, sep)
  {
    var ms := Matches(tokens, sep);
    MatchesMeaning(tokens, sep);
    hide Matches, PatternMatcher.Occurs;
    forall p: nat ensures SepAt(tokens, sep, p) <==> p in ms { SepOccurs(tokens, sep, p); }
    if Apart(ms, |sep|) {
      forall p: nat, q: nat | SepAt(tokens, sep, p) && SepAt(tokens, sep, q) && p < q ensures p + |sep| <= q {
        var i :| 0 <= i < |ms| && ms[i] == p;
        var j :| 0 <= j < |ms| && ms[j] == q;
        assert ms[i] + |sep| <= ms[i + 1];
      }
    } else {
      var k :| 0 <= k < |ms| - 1 && !(ms[k] + |sep| <= ms[k + 1]);
      assert ms[k] in ms && ms[k + 1] in ms;
    }
  }

  lemma FirstSpan(tokens: seq<int>, sep: seq<int>, matches: seq<nat>, start: nat)
    requires matches != [] && start <= matches[0] <= |tokens|
    ensures Spans(Pieces(tokens, matches, |sep|, start), |sep|, start) ==
            [(start, matches[0])] + Spans(Pieces(tokens, matches[1..], |sep|, matches[0] + |sep|), |sep|, matches[0] + |sep|)
  {
    var pieces, rest := Pieces(tokens, matches, |sep|, start), Pieces(tokens, matches[1..], |sep|, matches[0] + |sep|);
    assert pieces == [tokens[start..matches[0]]] + rest && pieces[1..] == rest;
  }

  /** Span k runs from behind match k - 1 to match k. */
  lemma {:induction false} SpanBetween(tokens: seq<int>, sep: seq<int>, matches: seq<nat>, start: nat, k: nat)
    requires Occurrences(tokens, sep, matches) && Apart(matches, |sep|)
    requires start <= |tokens| && (matches != [] ==> start <= matches[0]) && k <= |matches|
    ensures Spans(Pieces(tokens, matches, |sep|, start), |sep|, start)[k] ==
            (if k == 0 then start else matches[k - 1] + |sep|, if k < |matches| then matches[k] else |tokens|)
  {
    if matches != [] {
      var m := matches[0];
      assert PatternMatcher.Occurs(tokens, m, sep);
      FirstSpan(tokens, sep, matches, start);
      if k > 0 {
        ApartTail(matches, |sep|);
        hide Pieces, Spans, PatternMatcher.Occurs;
        SpanBetween(tokens, sep, matches[1..], matches[0] + |sep|, k - 1);
      }
    }
  }

  /** The ends of span k. */
  function SpanStart(ms: seq<nat>, n: nat, k: nat): nat
    requires k <= |ms|
  {
    if k == 0 then 0 else ms[k - 1] + n
  }

  function SpanEnd(ms: seq<nat>, length: nat, k: nat): nat
    requires k <= |ms|
  {
    if k < |ms| then ms[k] else length
  }

  lemma SpanAt(tokens: seq<int>, sep: seq<int>, k: nat)
    requires 1 <= |sep| <= |tokens| && Apart(Matches(tokens, sep), |sep|) && k <= |Matches(tokens, sep)|
    ensures |Split(tokens, sep).0| == |Matches(tokens, sep)| + 1
    ensures Spans(Split(tokens, sep).0, |sep|, 0)[k] ==
            (SpanStart(Matches(tokens, sep), |sep|, k), SpanEnd(Matches(tokens, sep), |tokens|, k))
  {
    MatchesMeaning(tokens, sep);
    SpanBetween(tokens, sep, Matches(tokens, sep), 0, k);
    assert Split(tokens, sep).0 == Pieces(tokens, Matches(tokens, sep), |sep|, 0);
  }

  /** Each span is a piece. */
  lemma SpanIsPiece(tokens: seq<int>, sep: seq<int>, k: nat)
    requires 1 <= |sep| <= |tokens| && Apart(Matches(tokens, sep), |sep|) && k <= |Matches(tokens, sep)|
    ensures IsPiece(tokens, sep, SpanStart(Matches(tokens, sep), |sep|, k), SpanEnd(Matches(tokens, sep), |tokens|, k))
  {
    var ms := Matches(tokens, sep);
    MatchesMeaning(tokens, sep);
    hide Matches, PatternMatcher.Occurs;
    var lo, hi := SpanStart(ms, |sep|, k), SpanEnd(ms, |tokens|, k);
    if k > 0 { assert ms[k - 1] in ms; SepOccurs(tokens, sep, ms[k - 1]); }
    if k < |ms| { assert ms[k] in ms; SepOccurs(tokens, sep, ms[k]); }
    forall p: nat | lo <= p < hi ensures !SepAt(tokens, sep, p) {
      SepOccurs(tokens, sep, p);
      assert p !in ms;
    }
  }

  /** Every piece is one of the spans. */
  lemma PieceHasSpan(tokens: seq<int>, sep: seq<int>, lo: nat, hi: nat) returns (k: nat)
    requires 1 <= |sep| <= |tokens| && Apart(Matches(tokens, sep), |sep|) && IsPiece(tokens, sep, lo, hi)
    ensures k <= |Matches(tokens, sep)| && SpanStart(Matches(tokens, sep), |sep|, k) == lo && SpanEnd(Matches(tokens, sep), |tokens|, k) == hi
  {
    var ms := Matches(tokens, sep);
    hide Matches, Apart;
    if lo == 0 {
      k := 0;
    } else {
      SepOccurs(tokens, sep, lo - |sep|);
      var j :| 0 <= j < |ms| && ms[j] == lo - |sep|;
      k := j + 1;
    }
    SpanIsPiece(tokens, sep, k);
    SamePiece(tokens, sep, lo, hi, SpanEnd(ms, |tokens|, k));
  }

  lemma SamePiece(tokens: seq<int>, sep: seq<int>, lo: nat, hi: nat, end: nat)
    requires IsPiece(tokens, sep, lo, hi) && IsPiece(tokens, sep, lo, end)
    ensures hi == end
  {}

  lemma SpansAscend(tokens: seq<int>, sep: seq<int>, i: nat, j: nat)
    requires 1 <= |sep| <= |tokens| && i < j <= |Matches(tokens, sep)|
    ensures SpanStart(Matches(tokens, sep), |sep|, i) < SpanStart(Matches(tokens, sep), |sep|, j)
  {
    MatchesMeaning(tokens, sep);
  }

  /** The entry of piece k. */
  predicate EntryOf<H(==)>(db: Database<H>, pieces: seq<seq<int>>, spans: seq<(nat, nat)>, masked: nat, makeKey: bool,
                           configs: Option<seq<(string, string)>>, k: nat, e: Entry<H>)
    requires k < |pieces| == |spans|
  {
    spans[k].0 >= masked && (e.start, e.end) == spans[k] && Carries(db, e.ident, db.hash(HashInput(db.noneHash, pieces[k], [])), makeKey, configs)
  }

  /** The reported entries are those of the pieces that are not masked, in their order: shown[i] is the
      piece of entry i. */
  lemma {:induction false} EntriesOfPieces<H>(db: Database<H>, pieces: seq<seq<int>>, spans: seq<(nat, nat)>, masked: nat,
                                              makeKey: bool, configs: Option<seq<(string, string)>>, n: nat) returns (shown: seq<nat>)
    requires n <= |pieces| == |spans|
    ensures var entries := SegmentEntries(db, pieces, spans, masked, makeKey, configs, n);
            |shown| == |entries|
            && forall i :: 0 <= i < |shown| ==> shown[i] < n && EntryOf(db, pieces, spans, masked, makeKey, configs, shown[i], entries[i])
    ensures forall i, j :: 0 <= i < j < |shown| ==> shown[i] < shown[j]
    ensures forall k: nat :: k < n && spans[k].0 >= masked ==> k in shown
  {
    shown := [];
    if n > 0 {
      var k := n - 1;
      shown := EntriesOfPieces(db, pieces, spans, masked, makeKey, configs, k);
      IdentCarries(db, HashTokens(db, pieces[k], None), makeKey, configs);
      hide MakeIdent, Carries;
      if spans[k].0 >= masked {
        shown := shown + [k];
      }
    }
  }

  /** The entry of a piece spans it and carries the hash of its tokens. */
  lemma EntryIsPiece<H>(db: Database<H>, sep: seq<int>, tokens: seq<int>, masked: nat, makeKey: bool, configs: Option<seq<(string, string)>>,
                        k: nat, e: Entry<H>)
    requires 1 <= |sep| <= |tokens| && Apart(Matches(tokens, sep), |sep|) && k < |Split(tokens, sep).0|
    requires var pieces := Split(tokens, sep).0; EntryOf(db, pieces, Spans(pieces, |sep|, 0), masked, makeKey, configs, k, e)
    ensures k <= |Matches(tokens, sep)|
    ensures e.start == SpanStart(Matches(tokens, sep), |sep|, k) && e.end == SpanEnd(Matches(tokens, sep), |tokens|, k)
    ensures e.start >= masked && IsPiece(tokens, sep, e.start, e.end) && CarriesSpan(db, tokens, makeKey, configs, e)
  {
    SpanAt(tokens, sep, 0);
    hide Matches, Split, Spans, Apart, IsPiece, Carries;
    SpanAt(tokens, sep, k);
    SpanIsPiece(tokens, sep, k);
    PieceSits(tokens, sep, k);
  }

  lemma OnlyPiecesAreYielded<H>(db: Database<H>, sep: seq<int>, tokens: seq<int>, masked: nat, makeKey: bool, configs: Option<seq<(string, string)>>)
    requires 1 <= |sep| <= |tokens| && NoOverlap(tokens, sep)
    ensures var pieces := Split(tokens, sep).0;
            var entries := SegmentEntries(db, pieces, Spans(pieces, |sep|, 0), masked, makeKey, configs, |pieces|);
            forall e :: e in entries ==>
              e.start >= masked && IsPiece(tokens, sep, e.start, e.end) && CarriesSpan(db, tokens, makeKey, configs, e)
  {
    ApartMeans(tokens, sep);
    var pieces := Split(tokens, sep).0;
    var spans := Spans(pieces, |sep|, 0);
    var shown := EntriesOfPieces(db, pieces, spans, masked, makeKey, configs, |pieces|);
    var entries := SegmentEntries(db, pieces, spans, masked, makeKey, configs, |pieces|);
    hide *;
    forall e | e in entries ensures e.start >= masked && IsPiece(tokens, sep, e.start, e.end) && CarriesSpan(db, tokens, makeKey, configs, e) {
      var i :| 0 <= i < |entries| && entries[i] == e;
      EntryIsPiece(db, sep, tokens, masked, makeKey, configs, shown[i], e);
    }
  }

  lemma AllPiecesAreYielded<H>(db: Database<H>, sep: seq<int>, tokens: seq<int>, masked: nat, makeKey: bool, configs: Option<seq<(string, string)>>)
    requires 1 <= |sep| <= |tokens| && NoOverlap(tokens, sep)
    ensures var pieces := Split(tokens, sep).0;
            var entries := SegmentEntries(db, pieces, Spans(pieces, |sep|, 0), masked, makeKey, configs, |pieces|);
            forall lo: nat, hi: nat :: lo >= masked && IsPiece(tokens, sep, lo, hi) ==> exists e :: e in entries && e.start == lo && e.end == hi
  {
    ApartMeans(tokens, sep);
    var pieces := Split(tokens, sep).0;
    var spans := Spans(pieces, |sep|, 0);
    var shown := EntriesOfPieces(db, pieces, spans, masked, makeKey, configs, |pieces|);
    var entries := SegmentEntries(db, pieces, spans, masked, makeKey, configs, |pieces|);
    hide *;
    forall lo: nat, hi: nat | lo >= masked && IsPiece(tokens, sep, lo, hi) ensures exists e :: e in entries && e.start == lo && e.end == hi {
      var k := PieceHasSpan(tokens, sep, lo, hi);
      SpanAt(tokens, sep, k);
      var i :| 0 <= i < |shown| && shown[i] == k;
      EntryIsPiece(db, sep, tokens, masked, makeKey, configs, k, entries[i]);
    }
  }

  lemma EntriesAscend<H>(db: Database<H>, sep: seq<int>, tokens: seq<int>, masked: nat, makeKey: bool, configs: Option<seq<(string, string)>>)
    requires 1 <= |sep| <= |tokens| && NoOverlap(tokens, sep)
    ensures var pieces := Split(tokens, sep).0;
            var entries := SegmentEntries(db, pieces, Spans(pieces, |sep|, 0), masked, makeKey, configs, |pieces|);
            forall i, j :: 0 <= i < j < |entries| ==> entries[i].start < entries[j].start
  {
    ApartMeans(tokens, sep);
    var pieces := Split(tokens, sep).0;
    var spans := Spans(pieces, |sep|, 0);
    var shown := EntriesOfPieces(db, pieces, spans, masked, makeKey, configs, |pieces|);
    var entries := SegmentEntries(db, pieces, spans, masked, makeKey, configs, |pieces|);
    hide *;
    forall i, j | 0 <= i < j < |entries| ensures entries[i].start < entries[j].start {
      EntryIsPiece(db, sep, tokens, masked, makeKey, configs, shown[i], entries[i]);
      EntryIsPiece(db, sep, tokens, masked, makeKey, configs, shown[j], entries[j]);
      SpansAscend(tokens, sep, shown[i], shown[j]);
    }
  }

  /** Without overlaps the entries are exactly the unmasked pieces of the tokens. */
  lemma PiecesAreYielded<H>(db: Database<H>, sep: seq<int>, tokens: seq<int>, masked: nat, makeKey: bool, configs: Option<seq<(string, string)>>)
    requires 1 <= |sep| <= |tokens| && NoOverlap(tokens, sep)
    ensures var pieces := Split(tokens, sep).0;
            var entries := SegmentEntries(db, pieces, Spans(pieces, |sep|, 0), masked, makeKey, configs, |pieces|);
            YieldsPieces(db, sep, tokens, masked, makeKey, configs, entries)
  {
    OnlyPiecesAreYielded(db, sep, tokens, masked, makeKey, configs);
    AllPiecesAreYielded(db, sep, tokens, masked, makeKey, configs);
    EntriesAscend(db, sep, tokens, masked, makeKey, configs);
    hide Split, Spans, SegmentEntries, IsPiece, CarriesSpan, NoOverlap;
  }

  lemma PieceSits(tokens: seq<int>, sep: seq<int>, k: nat)
    requires 1 <= |sep| <= |tokens| && Apart(Matches(tokens, sep), |sep|) && k < |Split(tokens, sep).0|
    ensures var pieces := Split(tokens, sep).0; SitsAt(tokens, pieces[k], Spans(pieces, |sep|, 0)[k])
  {
    SpansLocatePieces(tokens, sep);
  }

  /** Tokens shorter than the separator are one piece. */
  lemma WholeIsYielded<H>(db: Database<H>, sep: seq<int>, tokens: seq<int>, masked: nat, makeKey: bool, configs: Option<seq<(string, string)>>)
    requires |tokens| < |sep|
    ensures var pieces := Split(tokens, sep).0;
            var entries := SegmentEntries(db, pieces, Spans(pieces, |sep|, 0), masked, makeKey, configs, |pieces|);
            YieldsPieces(db, sep, tokens, masked, makeKey, configs, entries)
  {
    IdentCarries(db, HashTokens(db, tokens, None), makeKey, configs);
    var entries := SegmentEntries(db, [tokens], Spans([tokens], |sep|, 0), masked, makeKey, configs, 1);
    var e := Entry(0, |tokens|, MakeIdent(db, HashTokens(db, tokens, None), makeKey, configs));
    assert Spans([tokens], |sep|, 0) == [(0, |tokens|)];
    assert SegmentEntries(db, [tokens], Spans([tokens], |sep|, 0), masked, makeKey, configs, 0) == [];
    assert entries == if masked == 0 then [e] else [];
    assert tokens[..] == tokens && tokens[0..|tokens|] == tokens;
    hide MakeIdent, Carries;
  }

  lemma SplitYields<H>(db: Database<H>, sep: seq<int>, tokens: seq<int>, masked: nat, makeKey: bool, configs: Option<seq<(string, string)>>)
    ensures Split(tokens, sep).1 <==> |tokens| < |sep|
    ensures var pieces := Split(tokens, sep).0;
            var entries := SegmentEntries(db, pieces, Spans(pieces, |sep|, 0), masked, makeKey, configs, |pieces|);
            sep != [] && NoOverlap(tokens, sep) ==> YieldsPieces(db, sep, tokens, masked, makeKey, configs, entries)
  {
    if |tokens| < |sep| {
      WholeIsYielded(db, sep, tokens, masked, makeKey, configs);
    } else if sep != [] && NoOverlap(tokens, sep) {
      PiecesAreYielded(db, sep, tokens, masked, makeKey, configs);
    }
  }

  method ProcessSegments<H>(db: Database<H>, sep: seq<int>, tokens: seq<int>, mask: Option<seq<bool>>, makeKey: bool,
                            configs: Option<seq<(string, string)>>) returns (r: SegmentOutcome<H>)
    ensures r == if NumFalses(mask) >= |tokens| then Rejected
                 else
                   var (pieces, raised) := Split(tokens, sep);
                   Segments(SegmentEntries(db, pieces, Spans(pieces, |sep|, 0), NumFalses(mask), makeKey, configs, |pieces|), raised)
    ensures r.Rejected? <==> Unmasked(mask) >= |tokens|
    ensures r.Segments? ==> (r.raised <==> |tokens| < |sep|)
    ensures r.Segments? && sep != [] && NoOverlap(tokens, sep) ==> YieldsPieces(db, sep, tokens, Unmasked(mask), makeKey, configs, r.entries)
  {
    MaskCounted(mask);
    SplitYields(db, sep, tokens, NumFalses(mask), makeKey, configs);
    hide MakeIdent, HashTokens, Split, Spans, YieldsPieces, NoOverlap, NumFalses, Unmasked;
    var numFalses := NumFalses(mask);
    if numFalses >= |tokens| { return Rejected; }
    var chunks, raised := FastSplit(tokens, sep);
    ghost var spans := Spans(chunks, |sep|, 0);
    var entries := [];
    var startIdx := 0;
    for idx := 0 to |chunks|
      invariant startIdx == if idx == 0 then 0 else spans[idx - 1].1
      invariant entries == SegmentEntries(db, chunks, spans, numFalses, makeKey, configs, idx)
    {
      SpanStep(chunks, |sep|, 0, idx);
      var endIdx := startIdx + |chunks[idx]|;
      if idx > 0 {
        startIdx := startIdx + |sep|;
        endIdx := endIdx + |sep|;
      }
      if startIdx >= numFalses {
        entries := entries + [Entry(startIdx, endIdx, MakeIdent(db, HashTokens(db, chunks[idx], None), makeKey, configs))];
      }
      startIdx := endIdx;
    }
    return Segments(entries, raised);
  }

  /** Two lists split at the same separator, and what equality of their identifiers means: equal pieces
      get equal identifiers whatever the hash, and with an injective hash only those. */
  method ProcessBoth<H(!new)>(db: Database<H>, sep: seq<int>, a: seq<int>, maskA: Option<seq<bool>>, b: seq<int>, maskB: Option<seq<bool>>,
                              makeKey: bool, configs: Option<seq<(string, string)>>) returns (ra: SegmentOutcome<H>, rb: SegmentOutcome<H>)
    requires sep != [] && NoOverlap(a, sep) && NoOverlap(b, sep)
    ensures ra.Segments? && rb.Segments? ==> forall i, j :: 0 <= i < |ra.entries| && 0 <= j < |rb.entries| ==>
              var x, y := ra.entries[i], rb.entries[j];
              && x.start <= x.end <= |a| && y.start <= y.end <= |b|
              && (a[x.start..x.end] == b[y.start..y.end] ==> x.ident == y.ident)
              && (Injective(db.hash) && x.ident == y.ident ==> a[x.start..x.end] == b[y.start..y.end])
  {
    ra := ProcessSegments(db, sep, a, maskA, makeKey, configs);
    rb := ProcessSegments(db, sep, b, maskB, makeKey, configs);
    if ra.Segments? && rb.Segments? {
      forall i, j | 0 <= i < |ra.entries| && 0 <= j < |rb.entries|
        ensures var x, y := ra.entries[i], rb.entries[j];
                && x.start <= x.end <= |a| && y.start <= y.end <= |b|
                && (a[x.start..x.end] == b[y.start..y.end] ==> x.ident == y.ident)
                && (Injective(db.hash) && x.ident == y.ident ==> a[x.start..x.end] == b[y.start..y.end]) {
        IdentsAgree(db, a, ra.entries[i], b, rb.entries[j], makeKey, configs);
      }
    }
  }

  lemma IdentsAgree<H(!new)>(db: Database<H>, a: seq<int>, x: Entry<H>, b: seq<int>, y: Entry<H>,
                             makeKey: bool, configs: Option<seq<(string, string)>>)
    requires CarriesSpan(db, a, makeKey, configs, x) && CarriesSpan(db, b, makeKey, configs, y)
    ensures a[x.start..x.end] == b[y.start..y.end] ==> x.ident == y.ident
    ensures Injective(db.hash) && x.ident == y.ident ==> a[x.start..x.end] == b[y.start..y.end]
  {
    var s, t := HashInput(db.noneHash, a[x.start..x.end], []), HashInput(db.noneHash, b[y.start..y.end], []);
    assert Injective(db.hash) && db.hash(s) == db.hash(t) ==> s == t;
  }
}
