/** The chunked token database: cutting a token list into chunks, chaining their hashes, and what
    equality of the resulting cache keys means. */
module TokenChunks {
  import opened Basics

  /** The canonical tuple every hash is taken of; extra is empty for the callers modelled here. */
  datatype HashInput<H> = HashInput(prefix: H, tokens: seq<int>, extra: seq<int>)

  datatype Metadata = Metadata(modelName: string, worldSize: int, workerId: int, dtype: string)

  datatype EngineKey<H> = EngineKey(modelName: string, worldSize: int, workerId: int, chunkHash: H, dtype: string,
                                    requestConfigs: Option<seq<(string, string)>>)

  /** What process_tokens yields: a span with its key, or with its bare hash. */
  datatype Ident<H> = Key(key: EngineKey<H>) | Hash(hash: H)
  datatype Entry<H> = Entry(start: nat, end: nat, ident: Ident<H>)

  datatype Outcome<H> = Yielded(entries: seq<Entry<H>>) | ValueError | AssertionError

  datatype Database<!H> = Database(
    hash: HashInput<H> -> H, noneHash: H, chunkSize: nat, saveUnfullChunk: bool,
    metadata: Metadata, saveOnlyFirstRank: bool)

  function HashTokens<H>(db: Database<H>, tokens: seq<int>, prefix: Option<H>): H
  {
    db.hash(HashInput(if prefix.Some? then prefix.value else db.noneHash, tokens, []))
  }

  function MakeKey<H>(db: Database<H>, h: H, configs: Option<seq<(string, string)>>): EngineKey<H>
  {
    EngineKey(db.metadata.modelName, if db.saveOnlyFirstRank then 1 else db.metadata.worldSize,
              db.metadata.workerId, h, db.metadata.dtype, configs)
  }

  function MakeIdent<H>(db: Database<H>, h: H, makeKey: bool, configs: Option<seq<(string, string)>>): Ident<H>
  {
    if makeKey then Key(MakeKey(db, h, configs)) else Hash(h)
  }

  /** The tokens that are chunked: all of them, or only whole chunks. */
  function UsedLength(n: nat, c: nat, saveUnfull: bool): nat
    requires c >= 1
  {
    if saveUnfull then n else n - n % c
  }

  function NumChunks(n: nat, c: nat, saveUnfull: bool): nat
    requires c >= 1
  {
    (UsedLength(n, c, saveUnfull) + c - 1) / c
  }

  function ChunkEnd(n: nat, c: nat, k: nat): nat { Min(k * c + c, n) }

  function Chunk(tokens: seq<int>, c: nat, k: nat): seq<int>
  {
    if k * c <= |tokens| then tokens[k * c..ChunkEnd(|tokens|, c, k)] else []
  }

  /** The hash after chunks 0 to k, starting from hash x. */
  function Chain<H>(hash: HashInput<H> -> H, x: H, tokens: seq<int>, c: nat, k: nat): H
  {
    hash(HashInput(if k == 0 then x else Chain(hash, x, tokens, c, k - 1), Chunk(tokens, c, k), []))
  }

  function ChunkHash<H>(db: Database<H>, tokens: seq<int>, k: nat): H
  {
    Chain(db.hash, db.noneHash, tokens, db.chunkSize, k)
  }

  function CountFalse(mask: seq<bool>): nat
  {
    if mask == [] then 0 else CountFalse(mask[..|mask| - 1]) + if mask[|mask| - 1] then 0 else 1
  }

  function NumFalses(mask: Option<seq<bool>>): nat
  {
    if mask.Some? then CountFalse(mask.value) else 0
  }

  /** The entries of chunks from to upTo: chunk k spans [k*c, min(k*c+c, n)) and carries the
      hash of the whole prefix that ends with it. */
  function ChunkEntries<H>(db: Database<H>, tokens: seq<int>, makeKey: bool, configs: Option<seq<(string, string)>>,
                           from: nat, upTo: nat): seq<Entry<H>>
  {
    if upTo <= from then []
    else
      var k := upTo - 1;
      ChunkEntries(db, tokens, makeKey, configs, from, k)
        + [Entry(k * db.chunkSize, ChunkEnd(|tokens|, db.chunkSize, k), MakeIdent(db, ChunkHash(db, tokens, k), makeKey, configs))]
  }

  function Sum(offsets: seq<nat>, n: nat): nat
    requires n <= |offsets|
  {
    if n == 0 then 0 else Sum(offsets, n - 1) + offsets[n - 1]
  }

  /** Given hashes and chunk lengths: consecutive spans from zero. */
  function OffsetEntries<H>(db: Database<H>, hashes: seq<H>, offsets: seq<nat>, makeKey: bool,
                            configs: Option<seq<(string, string)>>, n: nat): seq<Entry<H>>
    requires n <= |hashes| && n <= |offsets|
  {
    if n == 0 then []
    else OffsetEntries(db, hashes, offsets, makeKey, configs, n - 1)
         + [Entry(Sum(offsets, n - 1), Sum(offsets, n), MakeIdent(db, hashes[n - 1], makeKey, configs))]
  }

  lemma ChunkBounds(n: nat, c: nat, saveUnfull: bool, k: nat)
    requires c >= 1
    ensures k < NumChunks(n, c, saveUnfull) <==> k * c < UsedLength(n, c, saveUnfull)
    ensures UsedLength(n, c, saveUnfull) <= n
  {
    var used := UsedLength(n, c, saveUnfull);
    var m := NumChunks(n, c, saveUnfull);
    assert used + c - 1 == m * c + (used + c - 1) % c;
    if k < m { assert k * c + c <= m * c by { MulMono(k + 1, m, c); } }
    if m <= k { MulMono(m, k, c); }
  }

  /** Consecutive chunks meet, and the last one ends where the used tokens end. */
  lemma ChunksTile(n: nat, c: nat, saveUnfull: bool, k: nat)
    requires c >= 1 && k < NumChunks(n, c, saveUnfull)
    ensures ChunkEnd(n, c, k) ==
            if k + 1 < NumChunks(n, c, saveUnfull) then (k + 1) * c else UsedLength(n, c, saveUnfull)
    ensures k * c < ChunkEnd(n, c, k)
  {
    var used := UsedLength(n, c, saveUnfull);
    ChunkBounds(n, c, saveUnfull, k);
    ChunkBounds(n, c, saveUnfull, k + 1);
    assert (k + 1) * c == k * c + c;
    if !saveUnfull && k + 1 >= NumChunks(n, c, saveUnfull) {
      assert used == (n / c) * c;
      if n / c < k + 1 { MulMono(n / c, k, c); }
      if n / c > k + 1 { MulMono(k + 2, n / c, c); }
    }
  }

  // ---- what is yielded, entry by entry ----

  /** The positions a mask leaves out. */
  function FalseAt(mask: seq<bool>): set<nat>
  {
    set i: nat | i < |mask| && !mask[i]
  }

  lemma {:induction false} CountFalseMeans(mask: seq<bool>)
    ensures CountFalse(mask) == |FalseAt(mask)|
  {
    if mask != [] {
      var n := |mask| - 1;
      CountFalseMeans(mask[..n]);
      assert FalseAt(mask) == FalseAt(mask[..n]) + if mask[n] then {} else {n};
    }
  }

  /** The mask is f Falses followed by Trues. */
  predicate FalsesThenTrues(mask: seq<bool>, f: nat)
  {
    f <= |mask| && forall i :: 0 <= i < |mask| ==> (mask[i] <==> f <= i)
  }

  lemma {:induction false} PrefixCount(mask: seq<bool>, f: nat)
    requires FalsesThenTrues(mask, f)
    ensures CountFalse(mask) == f
  {
    if mask != [] { PrefixCount(mask[..|mask| - 1], if f == |mask| then f - 1 else f); }
  }

  /** The identifier is the hash, or a key that holds it beside the engine's metadata. */
  predicate Carries<H(==)>(db: Database<H>, ident: Ident<H>, h: H, makeKey: bool, configs: Option<seq<(string, string)>>)
  {
    match ident
    case Hash(x) => !makeKey && x == h
    case Key(key) =>
      && makeKey && key.chunkHash == h && key.requestConfigs == configs
      && key.modelName == db.metadata.modelName && key.workerId == db.metadata.workerId && key.dtype == db.metadata.dtype
      && (db.saveOnlyFirstRank ==> key.worldSize == 1) && (!db.saveOnlyFirstRank ==> key.worldSize == db.metadata.worldSize)
  }

  /** There are tokens to chunk at position k * c, and a whole chunk of them unless part of one is enough. */
  predicate Chunked(n: nat, c: nat, saveUnfull: bool, k: nat)
  {
    k * c < n && (saveUnfull || k * c + c <= n)
  }

  /** Chunks first, first + 1, ... and no further, each with the hash of its tokens behind the chunks before. */
  ghost predicate YieldsFrom<H>(db: Database<H>, tokens: seq<int>, first: nat, makeKey: bool, configs: Option<seq<(string, string)>>,
                                entries: seq<Entry<H>>)
  {
    && (forall j: nat :: j < |entries| ==> IsChunk(db, tokens, first + j, makeKey, configs, entries[j]))
    && !Chunked(|tokens|, db.chunkSize, db.saveUnfullChunk, first + |entries|)
  }

  ghost predicate IsChunk<H>(db: Database<H>, tokens: seq<int>, k: nat, makeKey: bool, configs: Option<seq<(string, string)>>, e: Entry<H>)
  {
    && Chunked(|tokens|, db.chunkSize, db.saveUnfullChunk, k) && e.start == k * db.chunkSize && e.start <= e.end <= |tokens|
    && (e.end == e.start + db.chunkSize || (e.end == |tokens| && e.end < e.start + db.chunkSize))
    && Carries(db, e.ident, ChunkHash(db, tokens, k), makeKey, configs)
  }

  /** The chain of hashes: each chunk's tokens behind the hash of the chunks before. */
  lemma ChunkHashMeans<H>(db: Database<H>, tokens: seq<int>, k: nat, end: nat)
    requires k * db.chunkSize <= end <= |tokens|
    requires end == k * db.chunkSize + db.chunkSize || (end == |tokens| && end < k * db.chunkSize + db.chunkSize)
    ensures ChunkHash(db, tokens, k) ==
            db.hash(HashInput(if k == 0 then db.noneHash else ChunkHash(db, tokens, k - 1), tokens[k * db.chunkSize..end], []))
  {}

  /** Spans that follow each other from zero, one for each hash that has a length. */
  ghost predicate YieldsGiven<H>(db: Database<H>, hashes: seq<H>, offsets: seq<nat>, makeKey: bool, configs: Option<seq<(string, string)>>,
                                 entries: seq<Entry<H>>)
  {
    && |entries| <= |hashes| && |entries| <= |offsets| && (|entries| == |hashes| || |entries| == |offsets|)
    && forall j: nat :: j < |entries| ==> GivenAt(db, hashes, offsets, makeKey, configs, entries, j)
  }

  predicate GivenAt<H(==)>(db: Database<H>, hashes: seq<H>, offsets: seq<nat>, makeKey: bool, configs: Option<seq<(string, string)>>,
                           entries: seq<Entry<H>>, j: nat)
    requires j < |entries| && |entries| <= |hashes| && |entries| <= |offsets|
  {
    && entries[j].start == (if j == 0 then 0 else entries[j - 1].end) && entries[j].end == entries[j].start + offsets[j]
    && Carries(db, entries[j].ident, hashes[j], makeKey, configs)
  }

  lemma IdentCarries<H>(db: Database<H>, h: H, makeKey: bool, configs: Option<seq<(string, string)>>)
    ensures Carries(db, MakeIdent(db, h, makeKey, configs), h, makeKey, configs)
  {}

  lemma ChunkCounted(n: nat, c: nat, saveUnfull: bool, k: nat)
    requires c >= 1
    ensures k < NumChunks(n, c, saveUnfull) <==> Chunked(n, c, saveUnfull, k)
  {
    ChunkBounds(n, c, saveUnfull, k);
    var q := n / c;
    assert n == q * c + n % c;
    if k < q { MulMono(k + 1, q, c); } else { MulMono(q, k, c); }
  }

  lemma {:induction false} EntryAt<H>(db: Database<H>, tokens: seq<int>, makeKey: bool, configs: Option<seq<(string, string)>>,
                                      first: nat, upTo: nat, j: nat)
    ensures |ChunkEntries(db, tokens, makeKey, configs, first, upTo)| == if upTo <= first then 0 else upTo - first
    ensures first + j < upTo ==>
              ChunkEntries(db, tokens, makeKey, configs, first, upTo)[j] ==
              Entry((first + j) * db.chunkSize, ChunkEnd(|tokens|, db.chunkSize, first + j),
                    MakeIdent(db, ChunkHash(db, tokens, first + j), makeKey, configs))
  {
    if first < upTo { EntryAt(db, tokens, makeKey, configs, first, upTo - 1, j); }
  }

  lemma EntryIsChunk<H>(db: Database<H>, tokens: seq<int>, k: nat, makeKey: bool, configs: Option<seq<(string, string)>>)
    requires Chunked(|tokens|, db.chunkSize, db.saveUnfullChunk, k)
    ensures IsChunk(db, tokens, k, makeKey, configs,
                    Entry(k * db.chunkSize, ChunkEnd(|tokens|, db.chunkSize, k), MakeIdent(db, ChunkHash(db, tokens, k), makeKey, configs)))
  {
    hide ChunkHash, MakeIdent, Carries;
    IdentCarries(db, ChunkHash(db, tokens, k), makeKey, configs);
  }

  lemma ChunksAreYielded<H>(db: Database<H>, tokens: seq<int>, first: nat, makeKey: bool, configs: Option<seq<(string, string)>>)
    requires db.chunkSize >= 1
    ensures YieldsFrom(db, tokens, first, makeKey, configs,
                       ChunkEntries(db, tokens, makeKey, configs, first, NumChunks(|tokens|, db.chunkSize, db.saveUnfullChunk)))
  {
    var m := NumChunks(|tokens|, db.chunkSize, db.saveUnfullChunk);
    var entries := ChunkEntries(db, tokens, makeKey, configs, first, m);
    EntryAt(db, tokens, makeKey, configs, first, m, 0);
    ChunkCounted(|tokens|, db.chunkSize, db.saveUnfullChunk, first + |entries|);
    hide NumChunks, ChunkEntries, Chunked, IsChunk;
    forall j: nat | j < |entries| ensures IsChunk(db, tokens, first + j, makeKey, configs, entries[j]) {
      YieldedAt(db, tokens, first, makeKey, configs, j);
    }
  }

  lemma YieldedAt<H>(db: Database<H>, tokens: seq<int>, first: nat, makeKey: bool, configs: Option<seq<(string, string)>>, j: nat)
    requires db.chunkSize >= 1
    requires first + j < NumChunks(|tokens|, db.chunkSize, db.saveUnfullChunk)
    ensures var entries := ChunkEntries(db, tokens, makeKey, configs, first, NumChunks(|tokens|, db.chunkSize, db.saveUnfullChunk));
            j < |entries| && IsChunk(db, tokens, first + j, makeKey, configs, entries[j])
  {
    hide NumChunks, ChunkEntries, Chunked, MakeIdent, ChunkHash, ChunkEnd, IsChunk;
    var k := first + j;
    ChunkCounted(|tokens|, db.chunkSize, db.saveUnfullChunk, k);
    EntryAt(db, tokens, makeKey, configs, first, NumChunks(|tokens|, db.chunkSize, db.saveUnfullChunk), j);
    EntryIsChunk(db, tokens, k, makeKey, configs);
  }

  lemma {:induction false} GivenAreYielded<H>(db: Database<H>, hashes: seq<H>, offsets: seq<nat>, makeKey: bool,
                                              configs: Option<seq<(string, string)>>, n: nat)
    requires n <= |hashes| && n <= |offsets|
    ensures var entries := OffsetEntries(db, hashes, offsets, makeKey, configs, n);
            && |entries| == n && (n > 0 ==> entries[n - 1].end == Sum(offsets, n))
            && forall j: nat :: j < n ==> GivenAt(db, hashes, offsets, makeKey, configs, entries, j)
  {
    if n > 0 {
      GivenAreYielded(db, hashes, offsets, makeKey, configs, n - 1);
      IdentCarries(db, hashes[n - 1], makeKey, configs);
      hide Carries, MakeIdent;
      var entries, before := OffsetEntries(db, hashes, offsets, makeKey, configs, n), OffsetEntries(db, hashes, offsets, makeKey, configs, n - 1);
      forall j: nat | j < n ensures GivenAt(db, hashes, offsets, makeKey, configs, entries, j) {
        if j < n - 1 { assert GivenAt(db, hashes, offsets, makeKey, configs, before, j); }
      }
    }
  }

  /** The tokens left out, by a mask that may be absent. */
  function Unmasked(mask: Option<seq<bool>>): nat
  {
    match mask
    case None => 0
    case Some(m) => |FalseAt(m)|
  }

  lemma MaskCounted(mask: Option<seq<bool>>)
    ensures NumFalses(mask) == Unmasked(mask)
  {
    if mask.Some? { CountFalseMeans(mask.value); }
  }

  lemma QuotientOf(m: nat, c: nat)
    requires c >= 1
    ensures m * c % c == 0 && m * c / c == m
  {
    StartsAtMultiple(m * c / c, m, c, m * c % c);
  }

  lemma StartsAtMultiple(q: nat, m: nat, c: nat, rest: nat)
    requires c >= 1 && rest < c && q * c + rest == m * c
    ensures q == m && rest == 0
  {
    if q < m { MulMono(q + 1, m, c); } else { MulMono(m, q, c); if m < q { MulMono(m + 1, q, c); } }
  }

  method ProcessTokens<H>(db: Database<H>, tokens: Option<seq<int>>, hashes: Option<seq<H>>, offsets: Option<seq<nat>>,
                          mask: Option<seq<bool>>, makeKey: bool, configs: Option<seq<(string, string)>>)
    returns (r: Outcome<H>)
    requires db.chunkSize >= 1
    ensures r == if NumFalses(mask) % db.chunkSize != 0 then ValueError
                 else if tokens.Some? then
                   Yielded(ChunkEntries(db, tokens.value, makeKey, configs, NumFalses(mask) / db.chunkSize,
                                        NumChunks(|tokens.value|, db.chunkSize, db.saveUnfullChunk)))
                 else if hashes.None? then ValueError
                 else if offsets.None? then AssertionError
                 else Yielded(OffsetEntries(db, hashes.value, offsets.value, makeKey, configs, Min(|hashes.value|, |offsets.value|)))
    ensures r.ValueError? <==> Unmasked(mask) % db.chunkSize != 0 || (tokens.None? && hashes.None?)
    ensures r.AssertionError? <==> Unmasked(mask) % db.chunkSize == 0 && tokens.None? && hashes.Some? && offsets.None?
    ensures r.Yielded? && tokens.Some? ==>
              YieldsFrom(db, tokens.value, Unmasked(mask) / db.chunkSize, makeKey, configs, r.entries)
    ensures forall m: nat :: tokens.Some? && mask.Some? && FalsesThenTrues(mask.value, m * db.chunkSize) ==>
              r.Yielded? && YieldsFrom(db, tokens.value, m, makeKey, configs, r.entries)
    ensures r.Yielded? && tokens.None? ==>
              hashes.Some? && offsets.Some? && YieldsGiven(db, hashes.value, offsets.value, makeKey, configs, r.entries)
  {
    if mask.Some? {
      forall m: nat | FalsesThenTrues(mask.value, m * db.chunkSize)
        ensures NumFalses(mask) % db.chunkSize == 0 && NumFalses(mask) / db.chunkSize == m {
        PrefixCount(mask.value, m * db.chunkSize);
        QuotientOf(m, db.chunkSize);
      }
    }
    hide YieldsFrom, FalsesThenTrues, NumFalses, Unmasked;
    MaskCounted(mask);
    var numFalses := NumFalses(mask);
    var c := db.chunkSize;
    if numFalses % c != 0 { return ValueError; }
    if tokens.Some? {
      var entries := ChunkLoop(db, tokens.value, numFalses, makeKey, configs);
      ChunksAreYielded(db, tokens.value, numFalses / c, makeKey, configs);
      return Yielded(entries);
    }
    if hashes.None? { return ValueError; }
    if offsets.None? { return AssertionError; }
    var entries := OffsetLoop(db, hashes.value, offsets.value, makeKey, configs);
    GivenAreYielded(db, hashes.value, offsets.value, makeKey, configs, Min(|hashes.value|, |offsets.value|));
    return Yielded(entries);
  }

  method OffsetLoop<H>(db: Database<H>, hashes: seq<H>, offsets: seq<nat>, makeKey: bool, configs: Option<seq<(string, string)>>)
    returns (entries: seq<Entry<H>>)
    ensures entries == OffsetEntries(db, hashes, offsets, makeKey, configs, Min(|hashes|, |offsets|))
  {
    hide MakeIdent, MakeKey;
    entries := [];
    var start := 0;
    for i := 0 to Min(|hashes|, |offsets|)
      invariant start == Sum(offsets, i) && entries == OffsetEntries(db, hashes, offsets, makeKey, configs, i)
    {
      var end := start + offsets[i];
      entries := entries + [Entry(start, end, MakeIdent(db, hashes[i], makeKey, configs))];
      start := end;
    }
  }

  /** The chunking generator, the hash-chaining generator and the enumeration over them. */
  method ChunkLoop<H>(db: Database<H>, tokens: seq<int>, numFalses: nat, makeKey: bool, configs: Option<seq<(string, string)>>)
    returns (entries: seq<Entry<H>>)
    requires db.chunkSize >= 1 && numFalses % db.chunkSize == 0
    ensures entries == ChunkEntries(db, tokens, makeKey, configs, numFalses / db.chunkSize,
                                    NumChunks(|tokens|, db.chunkSize, db.saveUnfullChunk))
  {
    hide ChunkHash, MakeIdent, NumChunks, UsedLength, ChunkEntries, HashTokens;
    EntriesStart(db, tokens, makeKey, configs, numFalses / db.chunkSize);
    var c := db.chunkSize;
    var end := UsedLength(|tokens|, c, db.saveUnfullChunk);
    ghost var first := numFalses / c;
    entries := [];
    var prefixHash := db.noneHash;
    var chunkId := 0;
    var i := 0;
    ChunkBounds(|tokens|, c, db.saveUnfullChunk, chunkId);
    while i < end
      invariant i == chunkId * c
      invariant chunkId <= NumChunks(|tokens|, c, db.saveUnfullChunk)
      invariant chunkId < NumChunks(|tokens|, c, db.saveUnfullChunk) <==> i < end
      invariant prefixHash == if chunkId == 0 then db.noneHash else ChunkHash(db, tokens, chunkId - 1)
      invariant entries == ChunkEntries(db, tokens, makeKey, configs, first, chunkId)
      decreases NumChunks(|tokens|, c, db.saveUnfullChunk) - chunkId
    {
      var tokenChunk := tokens[i..Min(i + c, |tokens|)];
      assert tokenChunk == Chunk(tokens, c, chunkId);
      NextHash(db, tokens, chunkId);
      prefixHash := HashTokens(db, tokenChunk, Some(prefixHash));
      var startIdx := chunkId * c;
      var endIdx := Min(startIdx + c, |tokens|);
      StartsAt(chunkId, c, numFalses);
      EntriesStep(db, tokens, makeKey, configs, first, chunkId);
      if startIdx >= numFalses {
        entries := entries + [Entry(startIdx, endIdx, MakeIdent(db, prefixHash, makeKey, configs))];
      }
      chunkId := chunkId + 1;
      i := i + c;
      ChunkBounds(|tokens|, c, db.saveUnfullChunk, chunkId);
    }
  }

  lemma EntriesStart<H>(db: Database<H>, tokens: seq<int>, makeKey: bool, configs: Option<seq<(string, string)>>, first: nat)
    ensures ChunkEntries(db, tokens, makeKey, configs, first, 0) == []
  {}

  lemma EntriesStep<H>(db: Database<H>, tokens: seq<int>, makeKey: bool, configs: Option<seq<(string, string)>>, first: nat, k: nat)
    ensures ChunkEntries(db, tokens, makeKey, configs, first, k + 1) ==
            ChunkEntries(db, tokens, makeKey, configs, first, k)
            + (if k < first then []
               else [Entry(k * db.chunkSize, ChunkEnd(|tokens|, db.chunkSize, k), MakeIdent(db, ChunkHash(db, tokens, k), makeKey, configs))])
  {}

  lemma NextHash<H>(db: Database<H>, tokens: seq<int>, k: nat)
    ensures ChunkHash(db, tokens, k) ==
            HashTokens(db, Chunk(tokens, db.chunkSize, k), Some(if k == 0 then db.noneHash else ChunkHash(db, tokens, k - 1)))
  {}

  lemma StartsAt(k: nat, c: nat, numFalses: nat)
    requires c >= 1 && numFalses % c == 0
    ensures k * c >= numFalses <==> k >= numFalses / c
  {
    var q := numFalses / c;
    assert numFalses == q * c;
    if k >= q { MulMono(q, k, c); } else { MulMono(k + 1, q, c); }
  }

  // ---- what a chunk hash means ----

  ghost predicate Injective<H(!new)>(hash: HashInput<H> -> H)
  {
    forall x, y :: hash(x) == hash(y) ==> x == y
  }

  /** Agreement on everything up to the end of chunk k, which includes where that chunk ends. */
  predicate SamePrefix(a: seq<int>, b: seq<int>, c: nat, k: nat)
  {
    a[..ChunkEnd(|a|, c, k)] == b[..ChunkEnd(|b|, c, k)]
  }

  /** Chunk k ends strictly behind its start. */
  predicate HasChunk(a: seq<int>, c: nat, k: nat)
  {
    k * c < |a|
  }

  /** The prefix up to chunk k is the prefix up to chunk k - 1 followed by chunk k. */
  lemma PrefixSplits(a: seq<int>, b: seq<int>, c: nat, k: nat)
    requires c >= 1 && k > 0 && HasChunk(a, c, k) && HasChunk(b, c, k)
    ensures HasChunk(a, c, k - 1) && HasChunk(b, c, k - 1)
    ensures SamePrefix(a, b, c, k) <==> SamePrefix(a, b, c, k - 1) && Chunk(a, c, k) == Chunk(b, c, k)
  {
    var lo := k * c;
    assert (k - 1) * c + c == lo;
    SplitAt(a, b, lo, ChunkEnd(|a|, c, k), ChunkEnd(|b|, c, k));
  }

  lemma SplitAt(a: seq<int>, b: seq<int>, lo: nat, x: nat, y: nat)
    requires lo <= x <= |a| && lo <= y <= |b|
    ensures a[..x] == b[..y] <==> a[..lo] == b[..lo] && a[lo..x] == b[lo..y]
  {
    assert a[..x] == a[..lo] + a[lo..x] && b[..y] == b[..lo] + b[lo..y];
    if a[..x] == b[..y] {
      assert a[..lo] == a[..x][..lo] && b[..lo] == b[..y][..lo];
      assert a[lo..x] == a[..x][lo..] && b[lo..y] == b[..y][lo..];
    }
  }

  /** Equal prefixes give equal hashes, for any hash function. */
  lemma {:induction false} EqualPrefixEqualHash<H>(hash: HashInput<H> -> H, x: H, a: seq<int>, b: seq<int>, c: nat, k: nat)
    requires c >= 1 && HasChunk(a, c, k) && HasChunk(b, c, k) && SamePrefix(a, b, c, k)
    ensures Chain(hash, x, a, c, k) == Chain(hash, x, b, c, k)
  {
    if k == 0 {
      assert Chunk(a, c, 0) == a[..ChunkEnd(|a|, c, 0)] && Chunk(b, c, 0) == b[..ChunkEnd(|b|, c, 0)];
    } else {
      PrefixSplits(a, b, c, k);
      EqualPrefixEqualHash(hash, x, a, b, c, k - 1);
    }
  }

  /** With an injective hash two chains over the same number of chunks agree only when they start
      from the same hash and cover the same tokens. */
  lemma {:induction false} ChainInjective<H(!new)>(hash: HashInput<H> -> H, x: H, y: H, a: seq<int>, b: seq<int>, c: nat, k: nat)
    requires Injective(hash) && c >= 1 && HasChunk(a, c, k) && HasChunk(b, c, k)
    ensures Chain(hash, x, a, c, k) == Chain(hash, y, b, c, k) <==> x == y && SamePrefix(a, b, c, k)
  {
    if k == 0 {
      assert Chunk(a, c, 0) == a[..ChunkEnd(|a|, c, 0)] && Chunk(b, c, 0) == b[..ChunkEnd(|b|, c, 0)];
      assert HashInput(x, Chunk(a, c, 0), []) == HashInput(y, Chunk(b, c, 0), []) <==> x == y && Chunk(a, c, 0) == Chunk(b, c, 0);
    } else {
      PrefixSplits(a, b, c, k);
      ChainInjective(hash, x, y, a, b, c, k - 1);
    }
  }

  /** Chunk m of b is chunk k of what is left of b behind m - k chunks. */
  lemma ChunkShift(b: seq<int>, c: nat, m: nat, k: nat)
    requires k <= m && (m - k) * c <= |b|
    ensures Chunk(b, c, m) == Chunk(b[(m - k) * c..], c, k)
  {
    var o := (m - k) * c;
    assert o + k * c == m * c;
    SliceShift(b, o, k * c, c);
  }

  lemma SliceShift(b: seq<int>, o: nat, lo: nat, c: nat)
    requires o <= |b|
    ensures var rest := b[o..];
            (if o + lo <= |b| then b[o + lo..Min(o + lo + c, |b|)] else []) == (if lo <= |rest| then rest[lo..Min(lo + c, |rest|)] else [])
  {}

  /** The chain over m + 1 chunks is the chain over the last k + 1 of them, started from the hash
      of the m - k chunks before. */
  lemma {:induction false} ChainShift<H>(hash: HashInput<H> -> H, x: H, b: seq<int>, c: nat, m: nat, k: nat)
    requires k < m && (m - k) * c <= |b|
    ensures Chain(hash, x, b, c, m) == Chain(hash, Chain(hash, x, b, c, m - k - 1), b[(m - k) * c..], c, k)
  {
    ChunkShift(b, c, m, k);
    hide Chunk;
    if k > 0 { ChainShift(hash, x, b, c, m - 1, k - 1); }
  }

  /** The k-th chunk keys of two token lists are equal exactly when the lists agree on all tokens
      up to the end of that chunk. */
  lemma SameIndexKeys<H(!new)>(db: Database<H>, a: seq<int>, b: seq<int>, k: nat, configs: Option<seq<(string, string)>>)
    requires Injective(db.hash) && db.chunkSize >= 1
    requires k < NumChunks(|a|, db.chunkSize, db.saveUnfullChunk) && k < NumChunks(|b|, db.chunkSize, db.saveUnfullChunk)
    ensures MakeKey(db, ChunkHash(db, a, k), configs) == MakeKey(db, ChunkHash(db, b, k), configs)
            <==> a[..ChunkEnd(|a|, db.chunkSize, k)] == b[..ChunkEnd(|b|, db.chunkSize, k)]
  {
    ChunkBounds(|a|, db.chunkSize, db.saveUnfullChunk, k);
    ChunkBounds(|b|, db.chunkSize, db.saveUnfullChunk, k);
    ChainInjective(db.hash, db.noneHash, db.noneHash, a, b, db.chunkSize, k);
  }

  /** Keys of different chunk indices collide exactly when the surplus leading chunks of the longer
      prefix hash to NONE_HASH and what follows them is the shorter prefix. */
  lemma CrossIndexKeys<H(!new)>(db: Database<H>, a: seq<int>, k: nat, b: seq<int>, m: nat)
    requires Injective(db.hash) && db.chunkSize >= 1 && k < m
    requires k < NumChunks(|a|, db.chunkSize, db.saveUnfullChunk) && m < NumChunks(|b|, db.chunkSize, db.saveUnfullChunk)
    ensures (m - k) * db.chunkSize <= ChunkEnd(|b|, db.chunkSize, m)
    ensures ChunkHash(db, a, k) == ChunkHash(db, b, m)
        <==> ChunkHash(db, b, m - k - 1) == db.noneHash
             && a[..ChunkEnd(|a|, db.chunkSize, k)] == b[(m - k) * db.chunkSize..ChunkEnd(|b|, db.chunkSize, m)]
  {
    var c := db.chunkSize;
    ChunkBounds(|a|, c, db.saveUnfullChunk, k);
    ChunkBounds(|b|, c, db.saveUnfullChunk, m);
    MulMono(m - k, m, c);
    var rest := b[(m - k) * c..];
    assert (m - k) * c + k * c == m * c;
    ChainShift(db.hash, db.noneHash, b, c, m, k);
    ChainInjective(db.hash, db.noneHash, ChunkHash(db, b, m - k - 1), a, rest, c, k);
    assert rest[..ChunkEnd(|rest|, c, k)] == b[(m - k) * c..ChunkEnd(|b|, c, m)];
  }

  /** So when NONE_HASH is not itself a hash value, a key stands for one prefix: keys of any two
      chunks are equal exactly when the token prefixes that end with them are equal. */
  lemma KeyMeansPrefix<H(!new)>(db: Database<H>, a: seq<int>, k: nat, b: seq<int>, m: nat)
    requires Injective(db.hash) && db.chunkSize >= 1 && forall x :: db.hash(x) != db.noneHash
    requires k < NumChunks(|a|, db.chunkSize, db.saveUnfullChunk) && m < NumChunks(|b|, db.chunkSize, db.saveUnfullChunk)
    ensures ChunkHash(db, a, k) == ChunkHash(db, b, m)
        <==> a[..ChunkEnd(|a|, db.chunkSize, k)] == b[..ChunkEnd(|b|, db.chunkSize, m)]
  {
    var c := db.chunkSize;
    ChunkBounds(|a|, c, db.saveUnfullChunk, k);
    ChunkBounds(|b|, c, db.saveUnfullChunk, m);
    if k == m {
      SameIndexKeys(db, a, b, k, None);
    } else if k < m {
      CrossIndexKeys(db, a, k, b, m);
      EndsDiffer(|a|, |b|, c, k, m);
      assert |a[..ChunkEnd(|a|, c, k)]| == ChunkEnd(|a|, c, k) && |b[..ChunkEnd(|b|, c, m)]| == ChunkEnd(|b|, c, m);
    } else {
      CrossIndexKeys(db, b, m, a, k);
      EndsDiffer(|b|, |a|, c, m, k);
      assert |a[..ChunkEnd(|a|, c, k)]| == ChunkEnd(|a|, c, k) && |b[..ChunkEnd(|b|, c, m)]| == ChunkEnd(|b|, c, m);
    }
  }

  lemma EndsDiffer(n: nat, n2: nat, c: nat, k: nat, m: nat)
    requires c >= 1 && k < m && m * c < n2
    ensures ChunkEnd(n, c, k) < ChunkEnd(n2, c, m)
  {
    MulMono(k + 1, m, c);
    assert (k + 1) * c == k * c + c;
    var low, high := k * c, m * c;
    assert low + c <= high;
  }

  // ---- the assumption on NONE_HASH is needed ----

  datatype Tower = Base | Level(input: HashInput<Tower>)

  /** An injective hash whose value on one chunk of the single token 0 is NONE_HASH. */
  function TowerHash(x: HashInput<Tower>): Tower
  {
    if x == HashInput(Base, [0], []) then Base else Level(x)
  }

  lemma NoneHashCollision()
    ensures Injective(TowerHash)
    ensures Chain(TowerHash, Base, [7], 1, 0) == Chain(TowerHash, Base, [0, 7], 1, 1)
  {
    assert Chunk([0, 7], 1, 0) == [0] && Chunk([0, 7], 1, 1) == [7] && Chunk([7], 1, 0) == [7];
    assert Chain(TowerHash, Base, [0, 7], 1, 0) == Base;
  }
}
