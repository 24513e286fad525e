/** Collecting the memory objects of a request: the prefetched path, which must give back what it does
    not use, and the synchronous path, which fetches location by location. */
module Prefetch {
  import opened Basics

  /** What n releases leave of r references; the source warns at zero and stays there. */
  function Down(r: nat, n: nat): nat { if n <= r then r - n else 0 }

  /** How often n releases of r references give the memory back: each time the count is zero
      afterwards, so more than once when there are more releases than references. */
  function Frees(r: nat, n: nat): nat
  {
    var held := if r == 0 then 1 else r;
    if n < held then 0 else n - held + 1
  }

  lemma ReleaseAgain(r: nat, n: nat)
    ensures Down(r, n + 1) == Down(Down(r, n), 1) && Frees(r, n + 1) == Frees(r, n) + Frees(Down(r, n), 1)
  {}

  /** Which of n releases find or leave the count at zero. */
  function AtZero(r: nat, n: nat): set<nat> { set i: nat | 0 < i <= n && ZeroAfter(r, i) }

  predicate ZeroAfter(r: nat, i: nat) { r <= i }

  /** Those are the releases that give the memory back, and the count falls by one for each of the others. */
  lemma {:induction false} ReleasesMean(r: nat, n: nat)
    ensures Frees(r, n) == |AtZero(r, n)|
    ensures n <= r ==> Down(r, n) + n == r
    ensures n >= r ==> Down(r, n) == 0
  {
    if n > 0 {
      ReleasesMean(r, n - 1);
      assert AtZero(r, n) == AtZero(r, n - 1) + if r <= n then {n} else {};
    } else {
      assert AtZero(r, n) == {};
    }
  }

  lemma FewAndManyReleases(r: nat, n: nat)
    ensures n < r ==> Down(r, n) == r - n && Frees(r, n) == 0
    ensures n == r && 0 < n ==> Down(r, n) == 0 && Frees(r, n) == 1
    ensures n > r ==> Down(r, n) == 0 && Frees(r, n) == n - r + if r > 0 then 1 else 0
    ensures n == 0 ==> Down(r, n) == r && Frees(r, n) == 0
  {}

  class MemoryObj {
    const size: nat
    /** An allocator is set and nothing pins the object. */
    const freeable: bool
    var refCount: nat
    /** How often the allocator was told to free the object. */
    var frees: nat

    constructor (size: nat, freeable: bool)
      ensures this.size == size && this.freeable == freeable && refCount == 1 && frees == 0
    {
      this.size := size;
      this.freeable := freeable;
      refCount := 1;
      frees := 0;
    }

    method RefCountDown()
      modifies this
      ensures Released(this, 1)
      ensures refCount == if old(refCount) > 0 then old(refCount) - 1 else 0
      ensures frees == old(frees) + if freeable && old(refCount) <= 1 then 1 else 0
    {
      var count := refCount - 1;
      if count < 0 { count := 0; }
      refCount := count;
      if count == 0 && freeable { frees := frees + 1; }
    }
  }

  /** The object has had n releases. */
  twostate predicate Released(o: MemoryObj, n: nat)
    reads o
  {
    && o.refCount == Down(old(o.refCount), n)
    && o.frees == old(o.frees) + if o.freeable then Frees(old(o.refCount), n) else 0
  }

  /** The object has had n releases: fewer than its references leave the memory alone; the one that takes the
      last reference gives it back, once; and so does every further one.  A pinned object, or one without
      an allocator, is never given back. */
  twostate predicate GivenBack(o: MemoryObj, n: nat)
    reads o
  {
    var held := old(o.refCount);
    && (n < held ==> o.refCount == held - n && o.frees == old(o.frees))
    && (n == held && 0 < n ==> o.refCount == 0 && o.frees == old(o.frees) + if o.freeable then 1 else 0)
    && (n > held ==> o.refCount == 0 && (o.freeable ==> o.frees == old(o.frees) + n - held + if held > 0 then 1 else 0))
    && (n == 0 || !o.freeable ==> o.frees == old(o.frees))
    && (n == 0 ==> o.refCount == held)
  }

  /** One result of process_tokens. */
  datatype Chunk<K> = Chunk(key: K, start: nat, end: nat)

  /** A returned chunk with its object. */
  datatype Hit<K> = Hit(chunk: Chunk<K>, obj: MemoryObj)

  datatype Entry<K> = Entry(key: K, obj: MemoryObj)

  predicate InMask<K>(cs: seq<Chunk<K>>, length: nat)
  {
    forall i :: 0 <= i < |cs| ==> cs[i].start <= cs[i].end <= length
  }

  predicate Spans<K>(c: Chunk<K>, t: int) { c.start <= t < c.end }

  predicate Covered<K>(hits: seq<Hit<K>>, t: int)
  {
    exists i :: 0 <= i < |hits| && Spans(hits[i].chunk, t)
  }

  function TotalSize<K>(hits: seq<Hit<K>>): nat
  {
    if hits == [] then 0 else TotalSize(hits[..|hits| - 1]) + hits[|hits| - 1].obj.size
  }

  /** ret_mask[start:end] = value. */
  method Mark(mask: array<bool>, start: nat, end: nat, value: bool)
    requires start <= end <= mask.Length
    modifies mask
    ensures forall t :: 0 <= t < mask.Length ==> mask[t] == if start <= t < end then value else old(mask[t])
  {
    forall t | start <= t < end { mask[t] := value; }
  }

  // ---- the prefetched path ----

  /** The results of all tiers, in order. */
  function Flatten<T>(s: seq<seq<T>>): seq<T>
  {
    if s == [] then [] else Flatten(s[..|s| - 1]) + s[|s| - 1]
  }

  /** One tier's results are themselves, and more tiers' results follow them. */
  lemma {:induction false} FlattenMeans<T>(a: seq<seq<T>>, b: seq<seq<T>>, s: seq<T>)
    ensures Flatten([s]) == s && Flatten(a + b) == Flatten(a) + Flatten(b)
  {
    assert [s][..0] == [];
    if b == [] {
      assert a + b == a;
    } else {
      assert (a + b)[..|a + b| - 1] == a + b[..|b| - 1];
      FlattenMeans(a, b[..|b| - 1], s);
    }
  }

  /** A later result for the same key takes its place in the map. */
  predicate Shadowed<K(==)>(entries: seq<Entry<K>>, i: nat)
    requires i < |entries|
  {
    exists j :: i < j < |entries| && entries[j].key == entries[i].key
  }

  /** The map holds the last result for each key. */
  predicate MapOf<K(!new)>(entries: seq<Entry<K>>, m: map<K, MemoryObj>)
  {
    && (forall i :: 0 <= i < |entries| ==> entries[i].key in m)
    && (forall k :: k in m ==> LastFetched(entries, k, m[k]))
  }

  /** The object of the last result for the key. */
  predicate LastFetched<K(==)>(entries: seq<Entry<K>>, k: K, o: MemoryObj)
  {
    exists i :: 0 <= i < |entries| && entries[i] == Entry(k, o) && !Shadowed(entries, i)
  }

  lemma MapExtend<K(!new)>(entries: seq<Entry<K>>, m: map<K, MemoryObj>, e: Entry<K>)
    requires MapOf(entries, m)
    ensures MapOf(entries + [e], m[e.key := e.obj])
  {
    var es, m' := entries + [e], m[e.key := e.obj];
    forall k | k in m' ensures LastFetched(es, k, m'[k]) {
      if k == e.key {
        assert es[|entries|] == Entry(k, m'[k]) && !Shadowed(es, |entries|);
      } else {
        var i :| 0 <= i < |entries| && entries[i] == Entry(k, m[k]) && !Shadowed(entries, i);
        assert es[i] == Entry(k, m'[k]) && !Shadowed(es, i);
      }
    }
  }

  /** How many chunks are found before the first one that is missing. */
  function Found<K(!new)>(chunks: seq<Chunk<K>>, m: map<K, MemoryObj>): (n: nat)
    ensures n <= |chunks|
    ensures forall i :: 0 <= i < n ==> chunks[i].key in m
    ensures n < |chunks| ==> chunks[n].key !in m
  {
    if chunks == [] || chunks[0].key !in m then 0 else 1 + Found(chunks[1..], m)
  }

  function Objects<K>(entries: seq<Entry<K>>): set<MemoryObj>
  {
    set i | 0 <= i < |entries| :: entries[i].obj
  }

  /** The first loop of _async_process_tokens_internal: one map from key to object. */
  method BuildMap<K(==,!new)>(fetched: seq<seq<Entry<K>>>) returns (m: map<K, MemoryObj>)
    ensures MapOf(Flatten(fetched), m)
  {
    m := map[];
    for b := 0 to |fetched|
      invariant MapOf(Flatten(fetched[..b]), m)
    {
      assert fetched[..b + 1][..b] == fetched[..b];
      assert Flatten(fetched[..b]) + fetched[b][..0] == Flatten(fetched[..b]);
      for i := 0 to |fetched[b]|
        invariant MapOf(Flatten(fetched[..b]) + fetched[b][..i], m)
      {
        var e := fetched[b][i];
        MapExtend(Flatten(fetched[..b]) + fetched[b][..i], m, e);
        assert Flatten(fetched[..b]) + fetched[b][..i] + [e] == Flatten(fetched[..b]) + fetched[b][..i + 1];
        m := m[e.key := e.obj];
      }
      assert fetched[b][..|fetched[b]|] == fetched[b];
    }
    assert fetched[..|fetched|] == fetched;
  }

  /** The second loop: chunks are taken until one is missing, and their spans are marked. */
  method TakeChunks<K(==,!new)>(chunks: seq<Chunk<K>>, m: map<K, MemoryObj>, mask: array<bool>)
      returns (hits: seq<Hit<K>>, used: set<K>, total: nat)
    requires InMask(chunks, mask.Length)
    modifies mask
    ensures var n := Found(chunks, m);
            && |hits| == n && (forall i :: 0 <= i < n ==> hits[i] == Hit(chunks[i], m[chunks[i].key]))
            && used == (set i | 0 <= i < n :: chunks[i].key)
    ensures total == TotalSize(hits)
    ensures forall t :: 0 <= t < mask.Length ==> mask[t] == (old(mask[t]) || Covered(hits, t))
  {
    hits, used, total := [], {}, 0;
    for i := 0 to |chunks|
      invariant |hits| == i && (forall j :: 0 <= j < i ==> chunks[j].key in m && hits[j] == Hit(chunks[j], m[chunks[j].key]))
      invariant used == (set j | 0 <= j < i :: chunks[j].key)
      invariant total == TotalSize(hits)
      invariant forall t :: 0 <= t < mask.Length ==> mask[t] == (old(mask[t]) || Covered(hits, t))
    {
      if chunks[i].key !in m {
        FoundIs(chunks, m, i);
        return;
      }
      var hit := Hit(chunks[i], m[chunks[i].key]);
      CoveredMore(hits, hit);
      total := total + hit.obj.size;
      assert (hits + [hit])[..i] == hits;
      hits := hits + [hit];
      Mark(mask, chunks[i].start, chunks[i].end, true);
      used := used + {chunks[i].key};
    }
    FoundIs(chunks, m, |chunks|);
  }

  lemma CoveredMore<K>(hits: seq<Hit<K>>, hit: Hit<K>)
    ensures forall t :: Covered(hits + [hit], t) <==> Covered(hits, t) || Spans(hit.chunk, t)
  {
    forall t ensures Covered(hits + [hit], t) <==> Covered(hits, t) || Spans(hit.chunk, t) {
      var more := hits + [hit];
      if Covered(hits, t) {
        var i :| 0 <= i < |hits| && Spans(hits[i].chunk, t);
        assert Spans(more[i].chunk, t);
      }
      assert more[|hits|] == hit;
    }
  }

  lemma FoundIs<K(!new)>(chunks: seq<Chunk<K>>, m: map<K, MemoryObj>, n: nat)
    requires n <= |chunks| && (forall i :: 0 <= i < n ==> chunks[i].key in m) && (n < |chunks| ==> chunks[n].key !in m)
    ensures Found(chunks, m) == n
  {
    hide Found;
  }

  /** The keys of the set under which the map holds the object. */
  function Holders<K(!new)>(m: map<K, MemoryObj>, keys: set<K>, o: MemoryObj): set<K>
  {
    set k | k in m && k in keys && m[k] == o
  }

  function Held<K(!new)>(m: map<K, MemoryObj>, keys: set<K>, o: MemoryObj): nat { |Holders(m, keys, o)| }

  lemma OneMoreKey<K(!new)>(m: map<K, MemoryObj>, keys: set<K>, k: K)
    requires k in m && k !in keys
    ensures forall o :: Held(m, keys + {k}, o) == Held(m, keys, o) + if m[k] == o then 1 else 0
  {
    forall o ensures Held(m, keys + {k}, o) == Held(m, keys, o) + if m[k] == o then 1 else 0 {
      assert Holders(m, keys + {k}, o) == Holders(m, keys, o) + if m[k] == o then {k} else {};
    }
  }

  /** The keys of the map that were left behind and not used. */
  function Gone<K(!new)>(m: map<K, MemoryObj>, left: set<K>, used: set<K>): set<K> { m.Keys - left - used }

  lemma GoneStep<K(!new)>(m: map<K, MemoryObj>, left: set<K>, used: set<K>, k: K)
    requires k in left && left <= m.Keys
    ensures k in used ==> Gone(m, left - {k}, used) == Gone(m, left, used)
    ensures k !in used ==> k !in Gone(m, left, used) && Gone(m, left - {k}, used) == Gone(m, left, used) + {k}
  {}

  /** The counts of the objects at some moment. */
  type Counts = map<MemoryObj, (nat, nat)>

  /** The object has had n releases since the counts were taken. */
  ghost predicate ReleasedSince(o: MemoryObj, counts: Counts, n: nat)
    requires o in counts
    reads o
  {
    && o.refCount == Down(counts[o].0, n)
    && o.frees == counts[o].1 + if o.freeable then Frees(counts[o].0, n) else 0
  }

  /** One turn of the last loop. */
  method ReleaseKey<K(==,!new)>(m: map<K, MemoryObj>, used: set<K>, ghost left: set<K>, k: K, ghost counts: Counts)
    requires k in left && left <= m.Keys && m.Values <= counts.Keys
    requires forall o :: o in m.Values ==> ReleasedSince(o, counts, Held(m, Gone(m, left, used), o))
    modifies m.Values
    ensures forall o :: o in m.Values ==> ReleasedSince(o, counts, Held(m, Gone(m, left - {k}, used), o))
  {
    hide Held, Down, Frees, Gone;
    GoneStep(m, left, used, k);
    if k !in used {
      ghost var gone := Gone(m, left, used);
      OneMoreKey(m, gone, k);
      ReleaseAgain(counts[m[k]].0, Held(m, gone, m[k]));
      m[k].RefCountDown();
    }
  }

  /** The last loop: what is in the map and was not used is released, once for each of its keys. */
  method ReleaseUnused<K(==,!new)>(m: map<K, MemoryObj>, used: set<K>)
    modifies m.Values
    ensures forall o :: o in m.Values ==> Released(o, Held(m, m.Keys - used, o))
  {
    assert Gone(m, m.Keys, used) == {} && Gone(m, {}, used) == m.Keys - used;
    hide Held, Down, Frees, Gone;
    NothingReleased(m);
    ghost var counts: Counts := map o | o in m.Values :: (o.refCount, o.frees);
    var left := m.Keys;
    while left != {}
      invariant left <= m.Keys
      invariant forall o :: o in m.Values ==> ReleasedSince(o, counts, Held(m, Gone(m, left, used), o))
      decreases |left|
    {
      var k :| k in left;
      ReleaseKey(m, used, left, k, counts);
      left := left - {k};
    }
  }

  lemma NothingReleased<K(!new)>(m: map<K, MemoryObj>)
    ensures forall o :: Held(m, {}, o) == 0
    ensures forall r :: Down(r, 0) == r && Frees(r, 0) == 0
  {
    assert forall o :: Holders(m, {}, o) == {};
  }

  predicate UsedKey<K(==)>(hits: seq<Hit<K>>, k: K) { exists j :: 0 <= j < |hits| && hits[j].chunk.key == k }

  /** The keys that were last fetched as the object and are not returned. */
  function ReleasedKeys<K>(entries: seq<Entry<K>>, hits: seq<Hit<K>>, o: MemoryObj): set<K>
  {
    set i | 0 <= i < |entries| && entries[i].obj == o && !Shadowed(entries, i) && !UsedKey(hits, entries[i].key) :: entries[i].key
  }

  /** Every fetched object is released as many times as there are keys that ended up with it and are not
      returned, whoever else may hold it. */
  twostate predicate Accounted<K>(entries: seq<Entry<K>>, new hits: seq<Hit<K>>)
    reads Objects(entries)
  {
    forall i :: 0 <= i < |entries| ==> Released(entries[i].obj, |ReleasedKeys(entries, hits, entries[i].obj)|)
  }

  /** The last two loops together, for a map built from `entries`. */
  method TakeAndRelease<K(==,!new)>(ghost entries: seq<Entry<K>>, m: map<K, MemoryObj>, chunks: seq<Chunk<K>>, mask: array<bool>)
      returns (hits: seq<Hit<K>>, total: nat)
    requires InMask(chunks, mask.Length) && MapOf(entries, m)
    modifies mask, Objects(entries)
    ensures total == TotalSize(hits)
    ensures forall t :: 0 <= t < mask.Length ==> mask[t] == (old(mask[t]) || Covered(hits, t))
    ensures TakesPrefix(entries, chunks, hits) && Accounted(entries, hits)
  {
    hide Found, MapOf, Shadowed, TakesPrefix, TotalSize, Covered, UsedKey, Holders, ReleasedKeys;
    MapValues(entries, m);
    var used;
    hits, used, total := TakeChunks(chunks, m, mask);
    HitsArePrefix(entries, m, chunks, hits);
    UsedKeys(chunks, m, hits, used);
    ReleaseUnused(m, used);
    forall i | 0 <= i < |entries| ensures Released(entries[i].obj, |ReleasedKeys(entries, hits, entries[i].obj)|) {
      var o := entries[i].obj;
      HoldersAreLast(entries, m, hits, used, o);
    }
  }

  method Collect<K(==,!new)>(fetched: seq<seq<Entry<K>>>, ghost entries: seq<Entry<K>>, chunks: seq<Chunk<K>>, mask: array<bool>)
      returns (hits: seq<Hit<K>>, total: nat)
    requires InMask(chunks, mask.Length) && entries == Flatten(fetched)
    modifies mask, Objects(entries)
    ensures total == TotalSize(hits)
    ensures forall t :: 0 <= t < mask.Length ==> mask[t] == (old(mask[t]) || Covered(hits, t))
    ensures TakesPrefix(entries, chunks, hits) && Accounted(entries, hits)
  {
    hide Flatten, TotalSize, MapOf, Shadowed, TakesPrefix, Covered, UsedKey, ReleasedKeys, InMask;
    var m := BuildMap(fetched);
    hits, total := TakeAndRelease(entries, m, chunks, mask);
  }

  /** _async_process_tokens_internal.  A failed load (None) returns nothing and touches nothing.
      Otherwise exactly the chunks before the first missing one are returned and marked, and each
      fetched object is released once for every key that ended up with it and is not returned. */
  method AsyncProcess<K(==,!new)>(fetched: Option<seq<seq<Entry<K>>>>, chunks: seq<Chunk<K>>, mask: array<bool>)
      returns (hits: seq<Hit<K>>, total: nat)
    requires InMask(chunks, mask.Length)
    modifies mask, if fetched.Some? then Objects(Flatten(fetched.value)) else {}
    ensures fetched.None? ==> hits == [] && total == 0 && mask[..] == old(mask[..])
    ensures total == TotalSize(hits)
    ensures forall t :: 0 <= t < mask.Length ==> mask[t] == (old(mask[t]) || Covered(hits, t))
    ensures fetched.Some? ==> TakesPrefix(Flatten(fetched.value), chunks, hits)
    ensures fetched.Some? ==> Accounted(Flatten(fetched.value), hits)
    ensures fetched.Some? ==>
              var entries := Flatten(fetched.value);
              forall i :: 0 <= i < |entries| ==> GivenBack(entries[i].obj, |ReleasedKeys(entries, hits, entries[i].obj)|)
  {
    hide Flatten, TotalSize, MapOf, Shadowed, TakesPrefix, Covered, UsedKey, ReleasedKeys, InMask;
    if fetched.None? {
      NothingTaken<K>();
      return [], 0;
    }
    hits, total := Collect(fetched.value, Flatten(fetched.value), chunks, mask);
  }

  lemma NothingTaken<K>()
    ensures TotalSize<K>([]) == 0 && forall t :: !Covered<K>([], t)
  {}

  /** The chunks taken are those before the first one nobody fetched, each with the last object fetched
      for its key. */
  ghost predicate TakesPrefix<K(!new)>(entries: seq<Entry<K>>, chunks: seq<Chunk<K>>, hits: seq<Hit<K>>)
  {
    && |hits| <= |chunks|
    && (forall j :: 0 <= j < |hits| ==>
          hits[j].chunk == chunks[j] && LastFetched(entries, chunks[j].key, hits[j].obj))
    && (|hits| < |chunks| ==> forall i :: 0 <= i < |entries| ==> entries[i].key != chunks[|hits|].key)
  }

  lemma HitsArePrefix<K(!new)>(entries: seq<Entry<K>>, m: map<K, MemoryObj>, chunks: seq<Chunk<K>>, hits: seq<Hit<K>>)
    requires MapOf(entries, m)
    requires |hits| == Found(chunks, m) && forall i :: 0 <= i < |hits| ==> hits[i] == Hit(chunks[i], m[chunks[i].key])
    ensures TakesPrefix(entries, chunks, hits)
  {
    hide Found, Shadowed;
    forall j | 0 <= j < |hits| ensures hits[j].chunk == chunks[j] && LastFetched(entries, chunks[j].key, hits[j].obj) {
      var k := chunks[j].key;
      assert k in m && hits[j].obj == m[k];
    }
    if |hits| < |chunks| {
      forall i | 0 <= i < |entries| ensures entries[i].key != chunks[|hits|].key { assert entries[i].key in m; }
    }
  }

  lemma UsedKeys<K(!new)>(chunks: seq<Chunk<K>>, m: map<K, MemoryObj>, hits: seq<Hit<K>>, used: set<K>)
    requires |hits| == Found(chunks, m) && forall i :: 0 <= i < |hits| ==> hits[i] == Hit(chunks[i], m[chunks[i].key])
    requires used == (set i | 0 <= i < |hits| :: chunks[i].key)
    ensures forall k :: k in used <==> UsedKey(hits, k)
  {
    hide Found;
    forall k | UsedKey(hits, k) ensures k in used {
      var j :| 0 <= j < |hits| && hits[j].chunk.key == k;
      assert chunks[j].key == k;
    }
    forall j | 0 <= j < |hits| ensures UsedKey(hits, chunks[j].key) { assert hits[j].chunk.key == chunks[j].key; }
  }

  lemma MapValues<K(!new)>(entries: seq<Entry<K>>, m: map<K, MemoryObj>)
    requires MapOf(entries, m)
    ensures m.Values <= Objects(entries)
  {
    forall o | o in m.Values ensures o in Objects(entries) {
      var k :| k in m && m[k] == o;
      assert LastFetched(entries, k, o);
    }
  }

  /** The map holds an object under exactly the keys that were last fetched as that object. */
  lemma MapHolds<K(!new)>(entries: seq<Entry<K>>, m: map<K, MemoryObj>, k: K, o: MemoryObj)
    requires MapOf(entries, m)
    ensures k in m && m[k] == o <==> LastFetched(entries, k, o)
  {
    if LastFetched(entries, k, o) {
      var i :| 0 <= i < |entries| && entries[i] == Entry(k, o) && !Shadowed(entries, i);
      assert entries[i].key in m;
      var j :| 0 <= j < |entries| && entries[j] == Entry(k, m[k]) && !Shadowed(entries, j);
      LastIsUnique(entries, i, j);
    }
  }

  lemma HoldersAreLast<K(!new)>(entries: seq<Entry<K>>, m: map<K, MemoryObj>, hits: seq<Hit<K>>, used: set<K>, o: MemoryObj)
    requires MapOf(entries, m) && forall k :: k in used <==> UsedKey(hits, k)
    ensures Holders(m, m.Keys - used, o) == ReleasedKeys(entries, hits, o)
    ensures o !in m.Values ==> ReleasedKeys(entries, hits, o) == {}
  {
    hide MapOf, UsedKey, Shadowed;
    var holders, released := Holders(m, m.Keys - used, o), ReleasedKeys(entries, hits, o);
    forall k | k in holders ensures k in released {
      MapHolds(entries, m, k, o);
      var i :| 0 <= i < |entries| && entries[i] == Entry(k, o) && !Shadowed(entries, i);
      assert entries[i].key == k;
    }
    forall i | 0 <= i < |entries| && entries[i].obj == o && !Shadowed(entries, i) && !UsedKey(hits, entries[i].key)
      ensures entries[i].key in holders
    {
      assert entries[i] == Entry(entries[i].key, o);
      MapHolds(entries, m, entries[i].key, o);
    }
  }

  // ---- what becomes of each object ----

  predicate Returned<K>(hits: seq<Hit<K>>, o: MemoryObj) { exists j :: 0 <= j < |hits| && hits[j].obj == o }

  /** The keys that ended up with the object. */
  function FinalKeys<K>(entries: seq<Entry<K>>, o: MemoryObj): set<K>
  {
    set i | 0 <= i < |entries| && entries[i].obj == o && !Shadowed(entries, i) :: entries[i].key
  }

  predicate Fetched<K(==)>(entries: seq<Entry<K>>, k: K) { exists i :: 0 <= i < |entries| && entries[i].key == k }

  /** The key is asked for before the first key that nobody fetched. */
  predicate Asked<K(==)>(entries: seq<Entry<K>>, chunks: seq<Chunk<K>>, k: K)
  {
    exists j :: 0 <= j < |chunks| && chunks[j].key == k && forall i :: 0 <= i <= j ==> Fetched(entries, chunks[i].key)
  }

  /** Used are the keys asked for before the first missing one. */
  lemma UsedIffAsked<K(!new)>(entries: seq<Entry<K>>, chunks: seq<Chunk<K>>, hits: seq<Hit<K>>, k: K)
    requires TakesPrefix(entries, chunks, hits)
    ensures UsedKey(hits, k) <==> Asked(entries, chunks, k)
  {
    hide Shadowed;
    forall i | 0 <= i < |hits| ensures Fetched(entries, chunks[i].key) {
      var l := OwnerOf(entries, chunks, hits, i);
      assert entries[l].key == chunks[i].key;
    }
    if UsedKey(hits, k) {
      var j :| 0 <= j < |hits| && hits[j].chunk.key == k;
      assert chunks[j].key == k;
    }
    if Asked(entries, chunks, k) {
      var j :| 0 <= j < |chunks| && chunks[j].key == k && forall i :: 0 <= i <= j ==> Fetched(entries, chunks[i].key);
      assert j < |hits|;
      assert hits[j].chunk.key == k;
    }
  }

  /** An object is returned exactly when one of its keys is used, and released for each of its keys that is
      not. */
  lemma KeysDecide<K(!new)>(entries: seq<Entry<K>>, chunks: seq<Chunk<K>>, hits: seq<Hit<K>>, o: MemoryObj)
    requires TakesPrefix(entries, chunks, hits)
    ensures Returned(hits, o) <==> exists k :: k in FinalKeys(entries, o) && Asked(entries, chunks, k)
    ensures forall k :: k in ReleasedKeys(entries, hits, o) <==> k in FinalKeys(entries, o) && !Asked(entries, chunks, k)
  {
    hide Shadowed, TakesPrefix, Asked, UsedKey;
    forall k ensures k in ReleasedKeys(entries, hits, o) <==> k in FinalKeys(entries, o) && !Asked(entries, chunks, k) {
      UsedIffAsked(entries, chunks, hits, k);
    }
    if Returned(hits, o) {
      var j :| 0 <= j < |hits| && hits[j].obj == o;
      var i := OwnerOf(entries, chunks, hits, j);
      HitUses(hits, j);
      UsedIffAsked(entries, chunks, hits, entries[i].key);
      assert entries[i].key in FinalKeys(entries, o);
    }
    if k :| k in FinalKeys(entries, o) && Asked(entries, chunks, k) {
      UsedIffAsked(entries, chunks, hits, k);
      var i :| 0 <= i < |entries| && entries[i].obj == o && !Shadowed(entries, i) && entries[i].key == k;
      UsedReturns(entries, chunks, hits, i);
    }
  }

  lemma HitUses<K>(hits: seq<Hit<K>>, j: nat)
    requires j < |hits|
    ensures UsedKey(hits, hits[j].chunk.key)
  {}

  lemma UsedReturns<K(!new)>(entries: seq<Entry<K>>, chunks: seq<Chunk<K>>, hits: seq<Hit<K>>, i: nat)
    requires TakesPrefix(entries, chunks, hits) && i < |entries| && !Shadowed(entries, i) && UsedKey(hits, entries[i].key)
    ensures Returned(hits, entries[i].obj)
  {
    hide Shadowed, TakesPrefix;
    var j :| 0 <= j < |hits| && hits[j].chunk.key == entries[i].key;
    var l := OwnerOf(entries, chunks, hits, j);
    LastIsUnique(entries, l, i);
  }

  /** So an object is returned and released exactly when one of its keys is asked for in time and another
      is not. */
  lemma ReturnedAndReleasedIff<K(!new)>(entries: seq<Entry<K>>, chunks: seq<Chunk<K>>, hits: seq<Hit<K>>, o: MemoryObj)
    requires TakesPrefix(entries, chunks, hits)
    ensures Returned(hits, o) && ReleasedKeys(entries, hits, o) != {} <==>
            exists k, l :: k in FinalKeys(entries, o) && l in FinalKeys(entries, o) && Asked(entries, chunks, k) && !Asked(entries, chunks, l)
  {
    KeysDecide(entries, chunks, hits, o);
    hide Returned, ReleasedKeys, FinalKeys, Asked, TakesPrefix;
    if ReleasedKeys(entries, hits, o) != {} { var l :| l in ReleasedKeys(entries, hits, o); }
  }

  /** Every fetched object should be returned, or released exactly once, and not both. */
  predicate HandledOnce<K(==)>(entries: seq<Entry<K>>, hits: seq<Hit<K>>, o: MemoryObj)
  {
    |ReleasedKeys(entries, hits, o)| == if Returned(hits, o) then 0 else 1
  }

  /** It is exactly when all the keys that ended up with it are asked for in time, and there is one, or
      there is exactly one and it is not. */
  lemma HandledOnceIff<K(!new)>(entries: seq<Entry<K>>, chunks: seq<Chunk<K>>, hits: seq<Hit<K>>, o: MemoryObj)
    requires TakesPrefix(entries, chunks, hits)
    ensures var keys := FinalKeys(entries, o);
            HandledOnce(entries, hits, o) <==>
              || (keys != {} && forall k :: k in keys ==> Asked(entries, chunks, k))
              || (|keys| == 1 && forall k :: k in keys ==> !Asked(entries, chunks, k))
  {
    KeysDecide(entries, chunks, hits, o);
    hide Returned, ReleasedKeys, FinalKeys, Asked, TakesPrefix;
    var keys, released := FinalKeys(entries, o), ReleasedKeys(entries, hits, o);
    if Returned(hits, o) {
      var k :| k in keys && Asked(entries, chunks, k);
      if released != {} { var l :| l in released; }
    } else {
      assert released == keys;
    }
  }

  /** Two results for one key: the first object is neither returned nor released. */
  lemma FetchedTwiceIsLost(o: MemoryObj, p: MemoryObj)
    requires o != p
    ensures var entries := [Entry(1, o), Entry(1, p)];
            var chunks := [Chunk(1, 0, 1)];
            var hits := [Hit(chunks[0], p)];
            && TakesPrefix(entries, chunks, hits) && !Returned(hits, o) && ReleasedKeys(entries, hits, o) == {}
  {
    var entries := [Entry(1, o), Entry(1, p)];
    var hits := [Hit(Chunk(1, 0, 1), p)];
    assert entries[1] == Entry(1, p) && !Shadowed(entries, 1);
    assert entries[1].key == entries[0].key && Shadowed(entries, 0);
    assert hits[0].chunk.key == 1 && hits[0].obj == p;
  }

  // ---- when every result is its own object ----

  ghost predicate Owned<K>(entries: seq<Entry<K>>)
  {
    forall i, j :: 0 <= i < j < |entries| ==> entries[i].obj != entries[j].obj
  }

  /** A result that is its own object is returned, or released once, or shadowed by a later one for its
      key, and then neither. */
  lemma OwnedAccount<K(!new)>(entries: seq<Entry<K>>, chunks: seq<Chunk<K>>, hits: seq<Hit<K>>, i: nat)
    requires TakesPrefix(entries, chunks, hits) && Owned(entries) && i < |entries|
    ensures Shadowed(entries, i) ==> !Returned(hits, entries[i].obj)
    ensures |ReleasedKeys(entries, hits, entries[i].obj)| == if Shadowed(entries, i) || Returned(hits, entries[i].obj) then 0 else 1
  {
    hide Shadowed, Owned;
    var e := entries[i];
    forall j | 0 <= j < |hits| ensures (hits[j].obj == e.obj <==> hits[j].chunk.key == e.key && !Shadowed(entries, i)) {
      var k := OwnerOf(entries, chunks, hits, j);
      OwnedOnce(entries, k, i);
      if hits[j].chunk.key == e.key && !Shadowed(entries, i) { LastIsUnique(entries, k, i); }
    }
    assert Returned(hits, e.obj) <==> UsedKey(hits, e.key) && !Shadowed(entries, i);
    var released := ReleasedKeys(entries, hits, e.obj);
    forall k | k in released ensures k == e.key && !Shadowed(entries, i) && !UsedKey(hits, e.key) {
      var j :| 0 <= j < |entries| && entries[j].obj == e.obj && !Shadowed(entries, j) && !UsedKey(hits, entries[j].key) && entries[j].key == k;
      OwnedOnce(entries, j, i);
    }
    assert released == if Shadowed(entries, i) || UsedKey(hits, e.key) then {} else {e.key};
  }

  lemma OwnerOf<K(!new)>(entries: seq<Entry<K>>, chunks: seq<Chunk<K>>, hits: seq<Hit<K>>, j: nat) returns (k: nat)
    requires TakesPrefix(entries, chunks, hits) && j < |hits|
    ensures k < |entries| && entries[k] == Entry(hits[j].chunk.key, hits[j].obj) && !Shadowed(entries, k)
  {
    assert LastFetched(entries, chunks[j].key, hits[j].obj);
    k :| 0 <= k < |entries| && entries[k] == Entry(chunks[j].key, hits[j].obj) && !Shadowed(entries, k);
  }

  lemma OwnedOnce<K>(entries: seq<Entry<K>>, i: nat, j: nat)
    requires Owned(entries) && i < |entries| && j < |entries|
    ensures entries[i].obj == entries[j].obj <==> i == j
  {}

  lemma LastIsUnique<K>(entries: seq<Entry<K>>, i: nat, j: nat)
    requires i < |entries| && j < |entries| && entries[i].key == entries[j].key && !Shadowed(entries, i) && !Shadowed(entries, j)
    ensures i == j
  {}

  /** A result that shares its object: asked for the first key only, the object is returned and released
      as well, and with one reference its memory is given back while it is being returned. */
  lemma SharedIsReleased(o: MemoryObj)
    ensures var entries := [Entry(1, o), Entry(2, o)];
            var chunks := [Chunk(1, 0, 1)];
            var hits := [Hit(chunks[0], o)];
            && TakesPrefix(entries, chunks, hits) && Returned(hits, o)
            && ReleasedKeys(entries, hits, o) == {2} && Down(1, 1) == 0 && Frees(1, 1) == 1
  {
    var entries := [Entry(1, o), Entry(2, o)];
    var hits := [Hit(Chunk(1, 0, 1), o)];
    assert entries[0] == Entry(1, o) && !Shadowed(entries, 0) && !Shadowed(entries, 1);
    assert hits[0].chunk.key == 1 && hits[0].obj == o;
    assert UsedKey(hits, 1) && !UsedKey(hits, 2);
    assert entries[1].key == 2;
  }

  /** With distinct chunk keys no object is returned twice. */
  lemma ReturnedOnce<K(!new)>(entries: seq<Entry<K>>, chunks: seq<Chunk<K>>, hits: seq<Hit<K>>)
    requires TakesPrefix(entries, chunks, hits) && Owned(entries)
    requires forall i, j :: 0 <= i < j < |chunks| ==> chunks[i].key != chunks[j].key
    ensures forall i, j :: 0 <= i < j < |hits| ==> hits[i].obj != hits[j].obj
  {
    forall i, j | 0 <= i < j < |hits| ensures hits[i].obj != hits[j].obj {
      var k :| 0 <= k < |entries| && entries[k] == Entry(chunks[i].key, hits[i].obj) && !Shadowed(entries, k);
      var l :| 0 <= l < |entries| && entries[l] == Entry(chunks[j].key, hits[j].obj) && !Shadowed(entries, l);
    }
  }

  // ---- the synchronous path ----

  /** What a location returns for its blocks: an object, or nothing, for each. */
  datatype Location<K> = Location(blocks: seq<Chunk<K>>, results: seq<Option<MemoryObj>>)

  /** How many blocks of a location are retrieved: up to the first failure or the shorter list. */
  function Retrieved<K>(loc: Location<K>): (n: nat)
    ensures n <= |loc.blocks| && n <= |loc.results|
    ensures forall i :: 0 <= i < n ==> loc.results[i].Some?
    ensures n < |loc.blocks| && n < |loc.results| ==> loc.results[n].None?
    decreases |loc.blocks|
  {
    if loc.blocks == [] || loc.results == [] || loc.results[0].None? then 0
    else
      var rest := Location(loc.blocks[1..], loc.results[1..]);
      assert forall i :: 1 <= i < |loc.results| ==> loc.results[i] == rest.results[i - 1];
      1 + Retrieved(rest)
  }

  function HitsOf<K>(loc: Location<K>): seq<Hit<K>>
  {
    seq(Retrieved(loc), i requires 0 <= i < Retrieved(loc) => Hit(loc.blocks[i], loc.results[i].value))
  }

  /** The start of the block a location failed on. */
  function FailedAt<K>(loc: Location<K>): Option<nat>
  {
    var n := Retrieved(loc);
    if n < |loc.blocks| && n < |loc.results| then Some(loc.blocks[n].start) else None
  }

  /** Everything the locations retrieve, in order. */
  function AllHits<K>(locs: seq<Location<K>>): seq<Hit<K>>
  {
    if locs == [] then [] else AllHits(locs[..|locs| - 1]) + HitsOf(locs[|locs| - 1])
  }

  function Later(a: Option<nat>, b: Option<nat>): Option<nat>
  {
    if b.None? || (a.Some? && a.value >= b.value) then a else b
  }

  /** last_failed_block_start: the greatest start any location failed on. */
  function LastFailed<K>(locs: seq<Location<K>>): Option<nat>
  {
    if locs == [] then None else Later(LastFailed(locs[..|locs| - 1]), FailedAt(locs[|locs| - 1]))
  }

  /** The filter at the end: only chunks that end before the failed block starts. */
  function Keep<K>(hits: seq<Hit<K>>, failed: Option<nat>): seq<Hit<K>>
  {
    if failed.None? then hits
    else if hits == [] then []
    else Keep(hits[..|hits| - 1], failed) + (if hits[|hits| - 1].chunk.end < failed.value then [hits[|hits| - 1]] else [])
  }

  method CollectLocation<K(!new)>(loc: Location<K>, mask: array<bool>) returns (hits: seq<Hit<K>>, total: nat, failed: Option<nat>)
    requires InMask(loc.blocks, mask.Length)
    modifies mask
    ensures hits == HitsOf(loc) && failed == FailedAt(loc) && total == TotalSize(hits)
    ensures forall t :: 0 <= t < mask.Length ==> mask[t] == (old(mask[t]) || Covered(hits, t))
  {
    hits, total, failed := [], 0, None;
    for i := 0 to if |loc.blocks| <= |loc.results| then |loc.blocks| else |loc.results|
      invariant |hits| == i && forall j :: 0 <= j < i ==> loc.results[j].Some? && hits[j] == Hit(loc.blocks[j], loc.results[j].value)
      invariant failed.None? && total == TotalSize(hits)
      invariant forall t :: 0 <= t < mask.Length ==> mask[t] == (old(mask[t]) || Covered(hits, t))
    {
      if loc.results[i].None? {
        failed := Some(loc.blocks[i].start);
        break;
      }
      var hit := Hit(loc.blocks[i], loc.results[i].value);
      CoveredMore(hits, hit);
      total := total + hit.obj.size;
      assert (hits + [hit])[..i] == hits;
      hits := hits + [hit];
      Mark(mask, hit.chunk.start, hit.chunk.end, true);
    }
    hide Retrieved;
    assert |hits| == Retrieved(loc);
  }

  lemma TotalSizeConcat<K>(a: seq<Hit<K>>, b: seq<Hit<K>>)
    ensures TotalSize(a + b) == TotalSize(a) + TotalSize(b)
  {
    if b == [] {
      assert a + b == a;
    } else {
      assert (a + b)[..|a + b| - 1] == a + b[..|b| - 1];
      TotalSizeConcat(a, b[..|b| - 1]);
    }
  }

  lemma CoveredConcat<K>(a: seq<Hit<K>>, b: seq<Hit<K>>)
    ensures forall t :: Covered(a + b, t) <==> Covered(a, t) || Covered(b, t)
  {
    forall t ensures Covered(a + b, t) <==> Covered(a, t) || Covered(b, t) {
      if Covered(a, t) {
        var i :| 0 <= i < |a| && Spans(a[i].chunk, t);
        assert Spans((a + b)[i].chunk, t);
      } else if Covered(b, t) {
        var i :| 0 <= i < |b| && Spans(b[i].chunk, t);
        assert Spans((a + b)[|a| + i].chunk, t);
      }
    }
  }

  /** _process_tokens_internal over the locations' answers.  With no failure everything retrieved is
      returned and marked.  After a failure the mark ends at the last failed start and only chunks that
      end before it are returned; the size still counts every chunk retrieved.  Every retrieved object,
      also one whose chunk is not returned, still has its reference. */
  method SyncProcess<K(!new)>(locs: seq<Location<K>>, mask: array<bool>) returns (chunks: seq<Hit<K>>, total: nat)
    requires forall l :: 0 <= l < |locs| ==> InMask(locs[l].blocks, mask.Length)
    requires forall t :: 0 <= t < mask.Length ==> !mask[t]
    modifies mask
    ensures chunks == Keep(AllHits(locs), LastFailed(locs)) && total == TotalSize(AllHits(locs))
    ensures forall t :: 0 <= t < mask.Length ==> mask[t] == Marked(AllHits(locs), LastFailed(locs), t)
    ensures forall l, i :: 0 <= l < |locs| && 0 <= i < |locs[l].results| && locs[l].results[i].Some? ==>
              locs[l].results[i].value.refCount == old(locs[l].results[i].value.refCount)
  {
    hide HitsOf, FailedAt, TotalSize, Covered, Spans;
    var hits: seq<Hit<K>>, failed: Option<nat> := [], None;
    total := 0;
    NothingTaken<K>();
    assert locs[..0] == [];
    for l := 0 to |locs|
      invariant hits == AllHits(locs[..l]) && failed == LastFailed(locs[..l]) && total == TotalSize(hits)
      invariant forall t :: 0 <= t < mask.Length ==> mask[t] == Covered(hits, t)
    {
      assert locs[..l + 1][..l] == locs[..l];
      var found, size, miss := CollectLocation(locs[l], mask);
      TotalSizeConcat(hits, found);
      CoveredConcat(hits, found);
      hits := hits + found;
      total := total + size;
      if miss.Some? && (failed.None? || failed.value < miss.value) { failed := miss; }
    }
    assert locs[..|locs|] == locs;
    if failed.Some? {
      if failed.value < mask.Length { Mark(mask, failed.value, mask.Length, false); }
    }
    chunks := Keep(hits, failed);
  }

  // ---- the same read off the locations' answers ----

  /** Block i of location l is retrieved: nothing before it failed there. */
  predicate IsHit<K>(locs: seq<Location<K>>, l: nat, i: nat)
    requires l < |locs|
  {
    i < |locs[l].blocks| && i < |locs[l].results| && forall j :: 0 <= j <= i ==> locs[l].results[j].Some?
  }

  /** Location l fails on block i: the first answer without an object. */
  predicate FailsOn<K>(locs: seq<Location<K>>, l: nat, i: nat)
    requires l < |locs|
  {
    && i < |locs[l].blocks| && i < |locs[l].results| && locs[l].results[i].None?
    && forall j :: 0 <= j < i ==> locs[l].results[j].Some?
  }

  lemma RetrievedMeans<K>(locs: seq<Location<K>>, l: nat, i: nat)
    requires l < |locs|
    ensures IsHit(locs, l, i) <==> i < Retrieved(locs[l])
    ensures FailsOn(locs, l, i) <==> i == Retrieved(locs[l]) && FailedAt(locs[l]).Some?
  {
    hide Retrieved;
  }

  /** The place of a retrieved block: its location and its number there, in the order of retrieval. */
  predicate Before(p: (nat, nat), q: (nat, nat)) { p.0 < q.0 || (p.0 == q.0 && p.1 < q.1) }

  predicate HitIsAt<K(==)>(locs: seq<Location<K>>, hit: Hit<K>, l: nat, i: nat)
  {
    l < |locs| && IsHit(locs, l, i) && hit == Hit(locs[l].blocks[i], locs[l].results[i].value)
  }

  ghost predicate ListsHits<K(!new)>(locs: seq<Location<K>>, hits: seq<Hit<K>>, places: seq<(nat, nat)>)
  {
    && |places| == |hits|
    && (forall k :: 0 <= k < |hits| ==> HitIsAt(locs, hits[k], places[k].0, places[k].1))
    && (forall j, k :: 0 <= j < k < |places| ==> Before(places[j], places[k]))
    && (forall l: nat, i: nat :: l < |locs| && IsHit(locs, l, i) ==> (l, i) in places)
  }

  /** AllHits lists exactly the retrieved blocks with their objects. */
  lemma {:induction false} AllHitsMean<K(!new)>(locs: seq<Location<K>>) returns (places: seq<(nat, nat)>)
    ensures ListsHits(locs, AllHits(locs), places)
  {
    hide Retrieved;
    if locs == [] {
      places := [];
    } else {
      var n := |locs| - 1;
      var front, more := locs[..n], Retrieved(locs[n]);
      var before := AllHitsMean(front);
      var last := seq(more, i requires 0 <= i < more => (n as nat, i as nat));
      places := before + last;
      var hits := AllHits(locs);
      assert hits == AllHits(front) + HitsOf(locs[n]);
      hide AllHits;
      forall k | 0 <= k < |hits| ensures HitIsAt(locs, hits[k], places[k].0, places[k].1) {
        if k < |before| {
          assert HitIsAt(front, hits[k], before[k].0, before[k].1);
        } else {
          RetrievedMeans(locs, n, k - |before|);
        }
      }
      hide HitIsAt;
      forall l: nat, i: nat | l < |locs| ensures IsHit(locs, l, i) <==> if l < n then IsHit(front, l, i) else i < more {
        RetrievedMeans(locs, l, i);
        if l < n { RetrievedMeans(front, l, i); }
      }
      hide IsHit;
      forall l: nat, i: nat | l < |locs| && IsHit(locs, l, i) ensures (l, i) in places {
        if l == n { assert last[i] == (l, i); }
      }
    }
  }

  /** The last failed start is the greatest block start that a location failed on. */
  lemma {:induction false} LastFailedMeans<K(!new)>(locs: seq<Location<K>>)
    ensures forall l: nat, i: nat :: l < |locs| && FailsOn(locs, l, i) ==>
              LastFailed(locs).Some? && locs[l].blocks[i].start <= LastFailed(locs).value
    ensures LastFailed(locs).Some? ==>
              exists l: nat, i: nat :: l < |locs| && FailsOn(locs, l, i) && locs[l].blocks[i].start == LastFailed(locs).value
  {
    hide Retrieved;
    if locs != [] {
      var n := |locs| - 1;
      var front := locs[..n];
      LastFailedMeans(front);
      forall l: nat, i: nat | l < |locs| ensures FailsOn(locs, l, i) <==>
          if l < n then FailsOn(front, l, i) else i == Retrieved(locs[n]) && FailedAt(locs[n]).Some? {
        RetrievedMeans(locs, l, i);
      }
      hide FailsOn;
      if LastFailed(front).Some? && LastFailed(locs) == LastFailed(front) {
        var l: nat, i: nat :| l < |front| && FailsOn(front, l, i) && front[l].blocks[i].start == LastFailed(front).value;
        assert FailsOn(locs, l, i);
      } else if FailedAt(locs[n]).Some? {
        assert FailsOn(locs, n, Retrieved(locs[n]));
      }
    }
  }

  /** A chunk is kept when it ends before the failed start, and the kept ones stay in order. */
  lemma KeepMeans<K>(a: seq<Hit<K>>, b: seq<Hit<K>>, hit: Hit<K>, failed: Option<nat>)
    ensures Keep([hit], failed) == if failed.None? || hit.chunk.end < failed.value then [hit] else []
    ensures Keep(a + b, failed) == Keep(a, failed) + Keep(b, failed)
  {
    KeepConcat(a, b, failed);
    KeepMore([hit], failed);
    assert [hit][..0] == [];
  }

  lemma {:induction false} KeepConcat<K>(a: seq<Hit<K>>, b: seq<Hit<K>>, failed: Option<nat>)
    ensures Keep(a + b, failed) == Keep(a, failed) + Keep(b, failed)
  {
    if b == [] {
      assert a + b == a;
    } else {
      var n := |b| - 1;
      assert (a + b)[..|a + b| - 1] == a + b[..n] && (a + b)[|a + b| - 1] == b[n];
      hide Keep;
      KeepMore(a + b, failed);
      KeepMore(b, failed);
      KeepConcat(a, b[..n], failed);
    }
  }

  /** The size of one chunk is its object's, and that of several is the sum of their parts'. */
  lemma TotalSizeMeans<K>(a: seq<Hit<K>>, b: seq<Hit<K>>, hit: Hit<K>)
    ensures TotalSize([hit]) == hit.obj.size && TotalSize(a + b) == TotalSize(a) + TotalSize(b)
  {
    TotalSizeConcat(a, b);
  }

  predicate Marked<K>(hits: seq<Hit<K>>, failed: Option<nat>, t: int)
  {
    Covered(hits, t) && (failed.None? || t < failed.value)
  }

  // ---- the references of the retrieved objects ----

  /** In how many of the chunks the object stands. */
  function Times<K>(hits: seq<Hit<K>>, o: MemoryObj): nat
  {
    if hits == [] then 0 else Times(hits[..|hits| - 1], o) + if hits[|hits| - 1].obj == o then 1 else 0
  }

  /** The chunks in which the object stands. */
  function Standing<K>(hits: seq<Hit<K>>, o: MemoryObj): set<int>
  {
    set j | 0 <= j < |hits| && hits[j].obj == o
  }

  lemma {:induction false} TimesMeans<K>(hits: seq<Hit<K>>, o: MemoryObj)
    ensures Times(hits, o) == |Standing(hits, o)|
  {
    if hits != [] {
      var n := |hits| - 1;
      TimesMeans(hits[..n], o);
      assert Standing(hits, o) == Standing(hits[..n], o) + if hits[n].obj == o then {n} else {};
    }
  }

  function HitObjects<K>(hits: seq<Hit<K>>): set<MemoryObj>
  {
    set i | 0 <= i < |hits| :: hits[i].obj
  }

  /** The loop behind the copy to the device: each returned chunk gives back one reference. */
  method ReleaseReturned<K>(chunks: seq<Hit<K>>)
    modifies HitObjects(chunks)
    ensures forall o :: o in HitObjects(chunks) ==> Released(o, Times(chunks, o))
  {
    hide Down, Frees;
    NoRelease();
    for i := 0 to |chunks|
      invariant forall o :: o in HitObjects(chunks) ==> Released(o, Times(chunks[..i], o))
    {
      assert chunks[..i + 1][..i] == chunks[..i];
      ReleaseAgain(old(chunks[i].obj.refCount), Times(chunks[..i], chunks[i].obj));
      chunks[i].obj.RefCountDown();
    }
    assert chunks[..|chunks|] == chunks;
  }

  lemma NoRelease()
    ensures forall r :: Down(r, 0) == r && Frees(r, 0) == 0
  {}

  /** retrieve() with the synchronous path: every retrieved object, returned or dropped, is released once
      for each returned chunk that holds it and not otherwise. */
  method SyncRetrieve<K(!new)>(locs: seq<Location<K>>, mask: array<bool>) returns (chunks: seq<Hit<K>>, total: nat)
    requires forall l :: 0 <= l < |locs| ==> InMask(locs[l].blocks, mask.Length)
    requires forall t :: 0 <= t < mask.Length ==> !mask[t]
    modifies mask, HitObjects(AllHits(locs))
    ensures chunks == Keep(AllHits(locs), LastFailed(locs)) && total == TotalSize(AllHits(locs))
    ensures forall t :: 0 <= t < mask.Length ==> mask[t] == Marked(AllHits(locs), LastFailed(locs), t)
    ensures forall i :: 0 <= i < |AllHits(locs)| ==> Released(AllHits(locs)[i].obj, Times(chunks, AllHits(locs)[i].obj))
    ensures forall i :: 0 <= i < |AllHits(locs)| ==>
              var o := AllHits(locs)[i].obj; GivenBack(o, |Standing(chunks, o)|)
  {
    hide AllHits, LastFailed, Keep, TotalSize, Times, Marked, Down, Frees;
    NoRelease();
    forall r: nat, n: nat { FewAndManyReleases(r, n); }
    ghost var all := AllHits(locs);
    ObjectsExist(locs);
    chunks, total := SyncProcess(locs, mask);
    forall o | o in HitObjects(chunks) ensures o in HitObjects(AllHits(locs)) {
      var j :| 0 <= j < |chunks| && chunks[j].obj == o;
      var k := KeptFrom(AllHits(locs), LastFailed(locs), j);
    }
    ReleaseReturned(chunks);
    forall i | 0 <= i < |all| ensures Released(all[i].obj, Times(chunks, all[i].obj)) {
      if all[i].obj !in HitObjects(chunks) { NotReturned(chunks, all[i].obj); }
    }
    forall i | 0 <= i < |all|
      ensures var o := all[i].obj; GivenBack(o, |Standing(chunks, o)|) {
      TimesMeans(chunks, all[i].obj);
    }
  }

  lemma {:induction false} ObjectsExist<K>(locs: seq<Location<K>>)
    ensures forall i :: 0 <= i < |AllHits(locs)| ==> allocated(AllHits(locs)[i].obj)
  {
    hide Retrieved;
    if locs != [] {
      ObjectsExist(locs[..|locs| - 1]);
      var loc := locs[|locs| - 1];
      forall i | 0 <= i < |HitsOf(loc)| ensures allocated(HitsOf(loc)[i].obj) {
        assert HitsOf(loc)[i].obj == loc.results[i].value;
      }
    }
  }

  lemma {:induction false} NotReturned<K>(chunks: seq<Hit<K>>, o: MemoryObj)
    requires o !in HitObjects(chunks)
    ensures Times(chunks, o) == 0
  {
    if chunks != [] {
      assert forall i :: 0 <= i < |chunks| - 1 ==> chunks[i].obj in HitObjects(chunks);
      NotReturned(chunks[..|chunks| - 1], o);
      assert chunks[|chunks| - 1].obj in HitObjects(chunks);
    }
  }

  /** When each retrieved object is its own, exactly those whose chunk ends before the failed start get
      their reference back; a chunk that was retrieved and then filtered out keeps it for good. */
  lemma {:induction false} ReleasedIffKept<K>(hits: seq<Hit<K>>, failed: Option<nat>, i: nat)
    requires i < |hits| && forall j, k :: 0 <= j < k < |hits| ==> hits[j].obj != hits[k].obj
    ensures Times(Keep(hits, failed), hits[i].obj) ==
            if failed.None? || hits[i].chunk.end < failed.value then 1 else 0
  {
    hide Keep, Times;
    var n, o := |hits| - 1, hits[i].obj;
    KeepMore(hits, failed);
    TimesMore(Keep(hits[..n], failed), hits[n], o);
    if i < n {
      ReleasedIffKept(hits[..n], failed, i);
    } else {
      forall c | c in Keep(hits[..n], failed) ensures c.obj != o {
        var j :| 0 <= j < |Keep(hits[..n], failed)| && Keep(hits[..n], failed)[j] == c;
        var k := KeptFrom(hits[..n], failed, j);
      }
      NotReturned(Keep(hits[..n], failed), o);
    }
  }

  lemma {:induction false} KeepMore<K>(hits: seq<Hit<K>>, failed: Option<nat>)
    requires hits != []
    ensures var n := |hits| - 1;
            Keep(hits, failed) == if failed.None? || hits[n].chunk.end < failed.value then Keep(hits[..n], failed) + [hits[n]]
                                  else Keep(hits[..n], failed)
  {
    if failed.None? { assert hits == hits[..|hits| - 1] + [hits[|hits| - 1]]; }
  }

  lemma TimesMore<K>(hits: seq<Hit<K>>, hit: Hit<K>, o: MemoryObj)
    ensures Times(hits + [hit], o) == Times(hits, o) + if hit.obj == o then 1 else 0
  {
    assert (hits + [hit])[..|hits|] == hits;
  }

  // ---- the mask against what is returned ----

  /** Where a returned chunk comes from. */
  lemma {:induction false} KeptFrom<K>(hits: seq<Hit<K>>, failed: Option<nat>, j: nat) returns (k: nat)
    requires j < |Keep(hits, failed)|
    ensures k < |hits| && hits[k] == Keep(hits, failed)[j] && (failed.None? || hits[k].chunk.end < failed.value)
  {
    if failed.None? {
      k := j;
    } else if j < |Keep(hits[..|hits| - 1], failed)| {
      k := KeptFrom(hits[..|hits| - 1], failed, j);
    } else {
      k := |hits| - 1;
    }
  }

  /** Every chunk that ends before the failed start is returned. */
  lemma {:induction false} KeptIf<K>(hits: seq<Hit<K>>, failed: Option<nat>, k: nat) returns (j: nat)
    requires k < |hits| && (failed.None? || hits[k].chunk.end < failed.value)
    ensures j < |Keep(hits, failed)| && Keep(hits, failed)[j] == hits[k]
  {
    if failed.None? {
      j := k;
    } else if k < |hits| - 1 {
      j := KeptIf(hits[..|hits| - 1], failed, k);
    } else {
      j := |Keep(hits[..|hits| - 1], failed)|;
    }
  }

  /** Every returned chunk is marked throughout. */
  lemma ReturnedIsMarked<K>(hits: seq<Hit<K>>, failed: Option<nat>, j: nat, t: int)
    requires j < |Keep(hits, failed)| && Spans(Keep(hits, failed)[j].chunk, t)
    ensures Marked(hits, failed, t)
  {
    hide Keep;
    var k := KeptFrom(hits, failed, j);
    assert Spans(hits[k].chunk, t);
  }

  /** No two chunks share a token. */
  predicate NoOverlap<K>(hits: seq<Hit<K>>)
  {
    forall i, j :: 0 <= i < |hits| && 0 <= j < |hits| && i != j ==> NoSharedToken(hits[i].chunk, hits[j].chunk)
  }

  predicate NoSharedToken<K>(c: Chunk<K>, d: Chunk<K>)
  {
    c.end <= c.start || d.end <= d.start || c.end <= d.start || d.end <= c.start
  }

  /** Retrieved chunk c has tokens before the failed start and reaches it. */
  predicate Reaches<K>(c: Chunk<K>, failed: Option<nat>)
  {
    failed.Some? && c.start < c.end && c.start < failed.value <= c.end
  }

  /** A chunk that reaches the failed start is dropped although its first token stays marked. */
  lemma LostChunk<K>(hits: seq<Hit<K>>, failed: Option<nat>, i: nat)
    requires i < |hits| && Reaches(hits[i].chunk, failed) && NoOverlap(hits)
    ensures Marked(hits, failed, hits[i].chunk.start) && !Covered(Keep(hits, failed), hits[i].chunk.start)
  {
    hide Keep;
    var t := hits[i].chunk.start;
    assert Spans(hits[i].chunk, t);
    forall j | 0 <= j < |Keep(hits, failed)| ensures !Spans(Keep(hits, failed)[j].chunk, t) {
      var k := KeptFrom(hits, failed, j);
      assert NoSharedToken(hits[k].chunk, hits[i].chunk);
    }
  }

  /** Conversely, when no two retrieved chunks overlap, the mark says exactly what is returned if and
      only if no retrieved chunk reaches the failed start. */
  lemma MarkIsExactIff<K>(hits: seq<Hit<K>>, failed: Option<nat>)
    requires NoOverlap(hits)
    ensures (forall t :: Marked(hits, failed, t) <==> Covered(Keep(hits, failed), t)) <==>
            forall i :: 0 <= i < |hits| ==> !Reaches(hits[i].chunk, failed)
  {
    hide Keep;
    var kept := Keep(hits, failed);
    forall t | Covered(kept, t) ensures Marked(hits, failed, t) {
      var j :| 0 <= j < |kept| && Spans(kept[j].chunk, t);
      ReturnedIsMarked(hits, failed, j, t);
    }
    if i :| 0 <= i < |hits| && Reaches(hits[i].chunk, failed) {
      LostChunk(hits, failed, i);
    } else {
      forall t | Marked(hits, failed, t) ensures Covered(kept, t) {
        var k :| 0 <= k < |hits| && Spans(hits[k].chunk, t);
        assert !Reaches(hits[k].chunk, failed);
        var j := KeptIf(hits, failed, k);
        assert Spans(kept[j].chunk, t);
      }
    }
  }

  predicate Contiguous<K>(cs: seq<Chunk<K>>)
  {
    && (forall i :: 0 <= i < |cs| ==> cs[i].start < cs[i].end)
    && (forall i :: 0 <= i < |cs| - 1 ==> cs[i].end == cs[i + 1].start)
  }

  /** So with one location and contiguous chunks, a failure after the first chunk always loses the last
      chunk that was retrieved: it is marked as a hit and its object is not returned. */
  lemma {:induction false} LastGoodChunkIsLost<K(!new)>(loc: Location<K>, n: nat)
    requires n == Retrieved(loc) && 0 < n < |loc.blocks| && n < |loc.results|
    requires Contiguous(loc.blocks)
    ensures var hits, failed := AllHits([loc]), LastFailed([loc]);
            && |hits| == n && hits[n - 1].chunk == loc.blocks[n - 1]
            && (forall t :: Spans(hits[n - 1].chunk, t) ==> Marked(hits, failed, t) && !Covered(Keep(hits, failed), t))
  {
    hide AllHits, LastFailed, HitsOf, FailedAt, Keep, Retrieved, Marked, Covered, Contiguous;
    OneLocation(loc);
    Increasing(loc.blocks);
    LocationHits(loc, n);
    LastEnds(loc.blocks, n);
    var hits, failed := HitsOf(loc), FailedAt(loc);
    forall t | Spans(hits[n - 1].chunk, t) ensures Marked(hits, failed, t) && !Covered(Keep(hits, failed), t) {
      LastIsLost(hits, failed, t);
    }
  }

  lemma LastEnds<K>(cs: seq<Chunk<K>>, n: nat)
    requires Contiguous(cs) && 0 < n < |cs|
    ensures cs[n - 1].end == cs[n].start
  {}

  lemma {:induction false} LocationHits<K>(loc: Location<K>, n: nat)
    requires n == Retrieved(loc) && n < |loc.blocks| && n < |loc.results|
    ensures |HitsOf(loc)| == n && forall i :: 0 <= i < n ==> HitsOf(loc)[i].chunk == loc.blocks[i]
    ensures FailedAt(loc) == Some(loc.blocks[n].start)
  {
    hide Retrieved;
  }

  /** The last of the chunks in order, when it reaches the failed start: marked and dropped. */
  lemma LastIsLost<K>(hits: seq<Hit<K>>, failed: Option<nat>, t: int)
    requires hits != [] && forall k :: 0 <= k < |hits| - 1 ==> hits[k].chunk.end <= hits[|hits| - 1].chunk.start
    requires failed == Some(hits[|hits| - 1].chunk.end) && Spans(hits[|hits| - 1].chunk, t)
    ensures Marked(hits, failed, t) && !Covered(Keep(hits, failed), t)
  {
    hide Keep;
    forall j | 0 <= j < |Keep(hits, failed)| ensures !Spans(Keep(hits, failed)[j].chunk, t) {
      var k := KeptFrom(hits, failed, j);
    }
  }

  lemma OneLocation<K>(loc: Location<K>)
    ensures AllHits([loc]) == HitsOf(loc) && LastFailed([loc]) == FailedAt(loc)
  {
    assert [loc][..0] == [];
  }

  lemma {:induction false} Increasing<K>(cs: seq<Chunk<K>>)
    requires Contiguous(cs)
    ensures forall i, j :: 0 <= i < j < |cs| ==> cs[i].end <= cs[j].start
  {
    if cs != [] {
      var last := |cs| - 1;
      Increasing(cs[..last]);
      forall i, j | 0 <= i < j < |cs| ensures cs[i].end <= cs[j].start {
        if j < last {
          assert cs[..last][i].end <= cs[..last][j].start;
        } else if i < last - 1 {
          assert cs[..last][i].end <= cs[..last][last - 1].start;
        }
      }
    }
  }
}
