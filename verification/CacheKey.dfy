/** Cache keys as text: to_string, from_string and parse_cache_key. */
module CacheKey {
  import opened Basics
  import opened Parsing
  import opened Numerals

  // ---- splitting and joining ----

  function Split(s: string, c: char): (r: seq<string>)
    ensures r != []
  {
    if s == "" then [""]
    else
      var rest := Split(s[1..], c);
      if s[0] == c then [""] + rest else [[s[0]] + rest[0]] + rest[1..]
  }

  function Join(parts: seq<string>, c: char): string
    requires parts != []
  {
    if |parts| == 1 then parts[0] else parts[0] + [c] + Join(parts[1..], c)
  }

  predicate Without(s: string, c: char)
  {
    forall i :: 0 <= i < |s| ==> s[i] != c
  }

  predicate AllWithout(parts: seq<string>, c: char)
  {
    forall k :: 0 <= k < |parts| ==> Without(parts[k], c)
  }

  /** kv.split("%", 1), when it gives two pieces. */
  function SplitOnce(s: string, c: char): Option<(string, string)>
  {
    if s == "" then None
    else if s[0] == c then Some(("", s[1..]))
    else match SplitOnce(s[1..], c) case None => None case Some((a, b)) => Some(([s[0]] + a, b))
  }

  lemma {:induction false} SplitHead(a: string, c: char, rest: string)
    requires Without(a, c)
    ensures Split(a + [c] + rest, c) == [a] + Split(rest, c)
  {
    var s := a + [c] + rest;
    if a == "" {
      assert s[1..] == rest;
    } else {
      assert s[1..] == a[1..] + [c] + rest;
      SplitHead(a[1..], c, rest);
      assert [a[0]] + a[1..] == a;
    }
  }

  lemma {:induction false} SplitNone(a: string, c: char)
    requires Without(a, c)
    ensures Split(a, c) == [a]
  {
    if a != "" {
      SplitNone(a[1..], c);
      assert [a[0]] + a[1..] == a;
    }
  }

  /** Splitting undoes joining when no piece contains the separator. */
  lemma {:induction false} SplitJoin(parts: seq<string>, c: char)
    requires parts != [] && AllWithout(parts, c)
    ensures Split(Join(parts, c), c) == parts
  {
    hide Split;
    if |parts| == 1 {
      SplitNone(parts[0], c);
    } else {
      SplitJoin(parts[1..], c);
      SplitHead(parts[0], c, Join(parts[1..], c));
      assert [parts[0]] + parts[1..] == parts;
    }
  }

  lemma {:induction false} SplitOnceAt(a: string, c: char, b: string)
    requires Without(a, c)
    ensures SplitOnce(a + [c] + b, c) == Some((a, b))
  {
    var s := a + [c] + b;
    if a == "" {
      assert s[1..] == b;
    } else {
      assert s[1..] == a[1..] + [c] + b;
      SplitOnceAt(a[1..], c, b);
      assert [a[0]] + a[1..] == a;
    }
  }

  // ---- keys ----

  datatype DType = Half | BFloat16 | Float32 | Float64 | Int8 | UInt8 | Int16 | Int32 | Int64 | Bool
                 | Fp8E4M3Fn | Fp8E4M3Fnuz | Fp8E5M2 | Fp8E5M2Fnuz | Unsupported

  function DTypeName(d: DType): Option<string>
  {
    match d
    case Half => Some("half") case BFloat16 => Some("bfloat16") case Float32 => Some("float") case Float64 => Some("double")
    case Int8 => Some("int8") case UInt8 => Some("uint8") case Int16 => Some("int16") case Int32 => Some("int32")
    case Int64 => Some("int64") case Bool => Some("bool") case Fp8E4M3Fn => Some("fp8_e4m3fn")
    case Fp8E4M3Fnuz => Some("fp8_e4m3fnuz") case Fp8E5M2 => Some("fp8_e5m2") case Fp8E5M2Fnuz => Some("fp8_e5m2fnuz")
    case Unsupported => None
  }

  function NamedDType(s: string): Option<DType>
  {
    if s == "half" then Some(Half) else if s == "bfloat16" then Some(BFloat16) else if s == "float" then Some(Float32)
    else if s == "double" then Some(Float64) else if s == "int8" then Some(Int8) else if s == "uint8" then Some(UInt8)
    else if s == "int16" then Some(Int16) else if s == "int32" then Some(Int32) else if s == "int64" then Some(Int64)
    else if s == "bool" then Some(Bool) else if s == "fp8_e4m3fn" then Some(Fp8E4M3Fn)
    else if s == "fp8_e4m3fnuz" then Some(Fp8E4M3Fnuz) else if s == "fp8_e5m2" then Some(Fp8E5M2)
    else if s == "fp8_e5m2fnuz" then Some(Fp8E5M2Fnuz) else None
  }

  /** A dict of strings in insertion order. */
  type Dict = seq<(string, string)>

  /** CacheEngineKey, and LayerCacheEngineKey with its layer id. */
  datatype Key = Key(modelName: string, worldSize: int, workerId: int, chunkHash: int, dtype: DType,
                     requestConfigs: Option<Dict>, layer: Option<int>)

  const TAG_PREFIX: string := "lmcache.tag."

  function TagsOf(configs: Dict, prefix: string): Dict
  {
    if configs == [] then []
    else
      var (k, v) := configs[|configs| - 1];
      TagsOf(configs[..|configs| - 1], prefix) + if prefix <= k then [(k[|prefix|..], v)] else []
  }

  /** The tags field: None when no config entry is a tag. */
  function Tags(k: Key): Option<Dict>
  {
    if k.requestConfigs.None? then None
    else
      var tags := TagsOf(k.requestConfigs.value, TAG_PREFIX);
      if tags == [] then None else Some(tags)
  }

  /** __eq__: same class, same fields, same tags; the other config entries do not matter. */
  predicate KeysEqual(a: Key, b: Key)
  {
    && a.layer == b.layer
    && a.modelName == b.modelName && a.worldSize == b.worldSize && a.workerId == b.workerId
    && a.chunkHash == b.chunkHash && a.dtype == b.dtype && Tags(a) == Tags(b)
  }

  function TagTexts(tags: Dict): seq<string>
  {
    seq(|tags|, i requires 0 <= i < |tags| => tags[i].0 + "%" + tags[i].1)
  }

  /** The pieces between the '@' signs of a key's text. */
  function Parts(k: Key): seq<string>
    requires DTypeName(k.dtype).Some?
  {
    [k.modelName, Print(k.worldSize, 10), Print(k.workerId, 10), Print(k.chunkHash, 16), DTypeName(k.dtype).value]
    + (if k.layer.Some? then [Print(k.layer.value, 10)] else [])
    + (if Tags(k).Some? then TagTexts(Tags(k).value) else [])
  }

  /** Constructing a key of an unsupported dtype raises, so its text is never asked for. */
  function ToString(k: Key): string
    requires DTypeName(k.dtype).Some?
  {
    Join(Parts(k), '@')
  }

  /** d[key] = value. */
  function Put(d: Dict, key: string, value: string): Dict
  {
    if d == [] then [(key, value)]
    else if d[0].0 == key then [(key, value)] + d[1..]
    else [d[0]] + Put(d[1..], key, value)
  }

  function ReadTags(parts: seq<string>): Result<Dict>
  {
    if parts == [] then Ok([])
    else
      match ReadTags(parts[..|parts| - 1])
      case Err => Err
      case Ok(d) =>
        match SplitOnce(parts[|parts| - 1], '%')
        case None => Err
        case Some((name, value)) => Ok(Put(d, TAG_PREFIX + name, value))
  }

  method ReadTagsLoop(parts: seq<string>) returns (r: Result<Dict>)
    ensures r == ReadTags(parts)
  {
    var configs: Dict := [];
    for i := 0 to |parts|
      invariant ReadTags(parts[..i]) == Ok(configs)
    {
      assert parts[..i + 1][..i] == parts[..i];
      var kvs := SplitOnce(parts[i], '%');
      if kvs.None? {
        ReadTagsFails(parts, i);
        return Err;
      }
      configs := Put(configs, TAG_PREFIX + kvs.value.0, kvs.value.1);
    }
    assert parts[..|parts|] == parts;
    return Ok(configs);
  }

  lemma {:induction false} ReadTagsFails(parts: seq<string>, i: nat)
    requires i < |parts| && SplitOnce(parts[i], '%').None?
    ensures ReadTags(parts) == Err
  {
    if i < |parts| - 1 { ReadTagsFails(parts[..|parts| - 1], i); }
  }

  /** The fields shared by both from_string methods; `first` is the index of the first tag. */
  function ReadKey(parts: seq<string>, first: nat, layer: Option<int>): Result<Key>
    requires 5 <= first <= |parts|
  {
    var configs := if |parts| > first then ReadTags(parts[first..]) else Ok([]);
    if configs.Err? then Err
    else
      match (ParseInt(parts[1], 10), ParseInt(parts[2], 10), ParseInt(parts[3], 16), NamedDType(parts[4]))
      case (Some(world), Some(worker), Some(hash), Some(dtype)) =>
        Ok(Key(parts[0], world, worker, hash, dtype, if |parts| > first then Some(configs.value) else None, layer))
      case _ => Err
  }

  function EngineFromString(s: string): Result<Key>
  {
    var parts := Split(s, '@');
    if |parts| < 5 then Err else ReadKey(parts, 5, None)
  }

  function LayerFromString(s: string): Result<Key>
  {
    var parts := Split(s, '@');
    if |parts| < 6 then Err
    else match ParseInt(parts[5], 10) case None => Err case Some(layer) => ReadKey(parts, 6, Some(layer))
  }

  /** parse_cache_key looks at the stripped text to choose the class, but parses the text as given. */
  function Parse(s: string): Result<Key>
  {
    var parts := Split(Strip(s), '@');
    if |parts| >= 6 && IsDigits(parts[5]) then LayerFromString(s) else EngineFromString(s)
  }

  // ---- keys that can be written ----

  /** The dict keys are distinct, as in every dict; names of tags carry neither separator, and
      nothing carries an '@'. */
  ghost predicate Printable(k: Key)
  {
    && DTypeName(k.dtype).Some?
    && Without(k.modelName, '@')
    && (k.requestConfigs.Some? ==>
          && (forall i, j :: 0 <= i < j < |k.requestConfigs.value| ==> k.requestConfigs.value[i].0 != k.requestConfigs.value[j].0)
          && forall i :: 0 <= i < |k.requestConfigs.value| && TAG_PREFIX <= k.requestConfigs.value[i].0 ==>
               && Without(k.requestConfigs.value[i].0, '@') && Without(k.requestConfigs.value[i].0[|TAG_PREFIX|..], '%')
               && Without(k.requestConfigs.value[i].1, '@'))
  }

  ghost predicate GoodTags(tags: Dict)
  {
    && (forall i, j :: 0 <= i < j < |tags| ==> tags[i].0 != tags[j].0)
    && forall i :: 0 <= i < |tags| ==> Without(tags[i].0, '@') && Without(tags[i].0, '%') && Without(tags[i].1, '@')
  }

  ghost predicate GoodConfigs(configs: Dict, p: string)
  {
    && (forall i, j :: 0 <= i < j < |configs| ==> configs[i].0 != configs[j].0)
    && forall i :: 0 <= i < |configs| && p <= configs[i].0 ==>
         Without(configs[i].0, '@') && Without(configs[i].0[|p|..], '%') && Without(configs[i].1, '@')
  }

  lemma {:induction false} TagsAreGood(configs: Dict, p: string)
    requires GoodConfigs(configs, p)
    ensures GoodTags(TagsOf(configs, p))
    ensures forall i :: 0 <= i < |TagsOf(configs, p)| ==> exists j :: 0 <= j < |configs| && configs[j].0 == p + TagsOf(configs, p)[i].0
  {
    if configs != [] {
      var n := |configs| - 1;
      TagsAreGood(configs[..n], p);
      var tags := TagsOf(configs[..n], p);
      forall i | 0 <= i < |tags| ensures exists j :: 0 <= j < n && configs[j].0 == p + tags[i].0 {
        var j :| 0 <= j < |configs[..n]| && configs[..n][j].0 == p + tags[i].0;
        assert configs[j].0 == p + tags[i].0;
      }
      if p <= configs[n].0 {
        assert configs[n].0 == p + configs[n].0[|p|..];
        forall i | 0 <= i < |tags| ensures tags[i].0 != configs[n].0[|p|..] {
          var j :| 0 <= j < n && configs[j].0 == p + tags[i].0;
        }
      }
    }
  }

  lemma {:induction false} PutNew(d: Dict, key: string, value: string)
    requires forall i :: 0 <= i < |d| ==> d[i].0 != key
    ensures Put(d, key, value) == d + [(key, value)]
  {
    if d != [] { PutNew(d[1..], key, value); }
  }

  function Prefixed(tags: Dict, p: string): Dict
  {
    seq(|tags|, i requires 0 <= i < |tags| => (p + tags[i].0, tags[i].1))
  }

  /** Written tags read back as config entries with the tag prefix, in the same order. */
  lemma {:induction false} ReadTagTexts(tags: Dict)
    requires GoodTags(tags)
    ensures ReadTags(TagTexts(tags)) == Ok(Prefixed(tags, TAG_PREFIX))
  {
    if tags != [] {
      var n := |tags| - 1;
      ReadTagTexts(tags[..n]);
      assert TagTexts(tags)[..n] == TagTexts(tags[..n]);
      SplitOnceAt(tags[n].0, '%', tags[n].1);
      var before := Prefixed(tags[..n], TAG_PREFIX);
      forall i | 0 <= i < n ensures before[i].0 != TAG_PREFIX + tags[n].0 {
        if TAG_PREFIX + tags[i].0 == TAG_PREFIX + tags[n].0 { CancelPrefix(TAG_PREFIX, tags[i].0, tags[n].0); }
      }
      PutNew(before, TAG_PREFIX + tags[n].0, tags[n].1);
      assert before + [(TAG_PREFIX + tags[n].0, tags[n].1)] == Prefixed(tags, TAG_PREFIX);
    }
  }

  lemma CancelPrefix(p: string, a: string, b: string)
    requires p + a == p + b
    ensures a == b
  {
    assert a == (p + a)[|p|..] && b == (p + b)[|p|..];
  }

  lemma {:induction false} TagsOfPrefixed(tags: Dict, p: string)
    ensures TagsOf(Prefixed(tags, p), p) == tags
  {
    if tags != [] {
      var n := |tags| - 1;
      TagsOfPrefixed(tags[..n], p);
      assert Prefixed(tags, p)[..n] == Prefixed(tags[..n], p);
      assert (p + tags[n].0)[|p|..] == tags[n].0;
      assert tags == tags[..n] + [tags[n]];
    }
  }

  // ---- stripping the text only touches its two ends ----

  lemma {:induction false} StripLeftPast(a: string, r: string)
    requires r != "" && !IsSpace(r[0])
    ensures StripLeft(a + r) == StripLeft(a) + r
  {
    if a == "" {
      assert a + r == r;
    } else {
      assert (a + r)[1..] == a[1..] + r;
      StripLeftPast(a[1..], r);
    }
  }

  lemma {:induction false} StripRightPast(l: string, b: string)
    requires l != "" && !IsSpace(l[|l| - 1])
    ensures StripRight(l + b) == l + StripRight(b)
  {
    if b == "" {
      assert l + b == l;
    } else {
      assert (l + b)[..|l + b| - 1] == l + b[..|b| - 1];
      StripRightPast(l, b[..|b| - 1]);
    }
  }

  lemma {:induction false} JoinLast(parts: seq<string>, c: char)
    requires |parts| > 1
    ensures Join(parts, c) == Join(parts[..|parts| - 1], c) + [c] + parts[|parts| - 1]
  {
    if |parts| == 2 {
      assert parts[1..] == [parts[1]] && parts[..1] == [parts[0]];
    } else {
      JoinLast(parts[1..], c);
      assert parts[1..][..|parts| - 2] == parts[..|parts| - 1][1..];
    }
  }

  function StripEnds(parts: seq<string>): seq<string>
    requires |parts| > 1
  {
    [StripLeft(parts[0])] + parts[1..|parts| - 1] + [StripRight(parts[|parts| - 1])]
  }

  lemma {:induction false} StripKeeps(s: string, c: char)
    requires Without(s, c)
    ensures Without(StripLeft(s), c) && Without(StripRight(s), c)
    decreases |s|
  {
    if s != "" {
      StripKeeps(s[1..], c);
      StripKeeps(s[..|s| - 1], c);
    }
  }

  lemma StripJoinLeft(parts: seq<string>)
    requires |parts| > 1
    ensures StripLeft(Join(parts, '@')) == Join([StripLeft(parts[0])] + parts[1..], '@')
  {
    var left := [StripLeft(parts[0])] + parts[1..];
    assert parts[0] + ['@'] + Join(parts[1..], '@') == parts[0] + (['@'] + Join(parts[1..], '@'));
    StripLeftPast(parts[0], ['@'] + Join(parts[1..], '@'));
    hide StripLeft;
    assert left[1..] == parts[1..];
  }

  lemma StripJoinRight(parts: seq<string>)
    requires |parts| > 1
    ensures StripRight(Join(parts, '@')) == Join(parts[..|parts| - 1] + [StripRight(parts[|parts| - 1])], '@')
  {
    var n := |parts| - 1;
    var right := parts[..n] + [StripRight(parts[n])];
    JoinLast(parts, '@');
    JoinLast(right, '@');
    assert right[..n] == parts[..n];
    StripRightPast(Join(parts[..n], '@') + ['@'], parts[n]);
  }

  /** Stripping a joined text strips its first and last piece, and no other. */
  lemma StripJoin(parts: seq<string>)
    requires |parts| > 1
    ensures Strip(Join(parts, '@')) == Join(StripEnds(parts), '@')
  {
    hide Join, StripLeft, StripRight;
    var left := [StripLeft(parts[0])] + parts[1..];
    StripJoinLeft(parts);
    StripJoinRight(left);
    assert left[..|left| - 1] + [StripRight(left[|left| - 1])] == StripEnds(parts);
  }

  lemma SplitStripped(parts: seq<string>)
    requires |parts| > 1 && AllWithout(parts, '@')
    ensures Split(Strip(Join(parts, '@')), '@') == StripEnds(parts)
  {
    hide Split, Join, Strip, StripLeft, StripRight;
    StripKeeps(parts[0], '@');
    StripKeeps(parts[|parts| - 1], '@');
    StripJoin(parts);
    SplitJoin(StripEnds(parts), '@');
  }

  // ---- the round trip ----

  lemma PrintWithoutAt(i: int, base: nat)
    requires base == 10 || base == 16
    ensures Without(Print(i, base), '@') && Without(Print(i, base), '%')
  {
    PrintChars(i, base);
    forall k | 0 <= k < |Print(i, base)| ensures Print(i, base)[k] != '@' && Print(i, base)[k] != '%' {
      assert NumberChar(Print(i, base)[k]);
    }
  }

  lemma TagTextsWithoutAt(tags: Dict)
    requires GoodTags(tags)
    ensures AllWithout(TagTexts(tags), '@')
  {}

  lemma PrintableTags(k: Key)
    requires Printable(k)
    ensures Tags(k).Some? ==> Tags(k).value != [] && GoodTags(Tags(k).value)
  {
    if k.requestConfigs.Some? { TagsAreGood(k.requestConfigs.value, TAG_PREFIX); }
  }

  function TagTail(k: Key): seq<string>
  {
    if Tags(k).Some? then TagTexts(Tags(k).value) else []
  }

  function First(k: Key): nat { if k.layer.Some? then 6 else 5 }

  lemma PartsLayout(k: Key)
    requires Printable(k)
    ensures var p := Parts(k);
            && |p| == First(k) + |TagTail(k)| && p[First(k)..] == TagTail(k) && AllWithout(p, '@')
            && p[0] == k.modelName && p[1] == Print(k.worldSize, 10) && p[2] == Print(k.workerId, 10)
            && p[3] == Print(k.chunkHash, 16) && p[4] == DTypeName(k.dtype).value
            && (k.layer.Some? ==> p[5] == Print(k.layer.value, 10))
  {
    PrintableTags(k);
    PrintWithoutAt(k.worldSize, 10);
    PrintWithoutAt(k.workerId, 10);
    PrintWithoutAt(k.chunkHash, 16);
    if k.layer.Some? { PrintWithoutAt(k.layer.value, 10); }
    if Tags(k).Some? { TagTextsWithoutAt(Tags(k).value); }
    hide Print, Tags;
    DTypeWithoutAt(k.dtype);
    hide DTypeName;
    var p := Parts(k);
    forall i | 0 <= i < |p| ensures Without(p[i], '@') {
      if i >= First(k) { assert p[i] == TagTail(k)[i - First(k)]; }
    }
  }

  lemma DTypeWithoutAt(d: DType)
    requires DTypeName(d).Some?
    ensures Without(DTypeName(d).value, '@') && NamedDType(DTypeName(d).value) == Some(d)
  {}

  /** Reading the printed fields gives a key that is equal to the printed one. */
  lemma ReadsBack(k: Key)
    requires Printable(k)
    ensures |Parts(k)| >= First(k)
    ensures var r := ReadKey(Parts(k), First(k), k.layer); r.Ok? && KeysEqual(r.value, k)
  {
    hide Print, ParseInt, DTypeName, NamedDType, ReadTags, Parts, TagsOf, TAG_PREFIX;
    PartsLayout(k);
    PrintableTags(k);
    ParsePrinted(k.worldSize, 10);
    ParsePrinted(k.workerId, 10);
    ParsePrinted(k.chunkHash, 16);
    DTypeWithoutAt(k.dtype);
    if Tags(k).Some? {
      var tags := Tags(k).value;
      ReadTagTexts(tags);
      TagsOfPrefixed(tags, TAG_PREFIX);
    }
  }

  /** A tag's text is never all digits, even with blanks stripped from its end. */
  lemma TagNotDigits(name: string, value: string)
    ensures !IsDigits(name + "%" + value) && !IsDigits(StripRight(name + "%" + value))
  {
    StripRightPast(name + "%", value);
    assert (name + "%" + value)[|name|] == '%';
    assert (name + "%" + StripRight(value))[|name|] == '%';
  }

  /** Which class parse_cache_key picks for a printed key. */
  lemma ClassOf(k: Key)
    requires Printable(k)
    ensures var p := Split(Strip(ToString(k)), '@');
            |p| >= 6 && IsDigits(p[5]) <==> k.layer.Some? && k.layer.value >= 0
  {
    PartsLayout(k);
    SplitStripped(Parts(k));
    var p := Parts(k);
    var q := StripEnds(p);
    if |p| >= 6 {
      assert q[5] == if |p| == 6 then StripRight(p[5]) else p[5];
      if k.layer.Some? {
        PrintChars(k.layer.value, 10);
        assert k.layer.value < 0 ==> p[5][0] == '-';
        assert StripRight(p[5]) == p[5];
      } else {
        assert p[5] == TagTail(k)[0];
        var tag := Tags(k).value[0];
        TagNotDigits(tag.0, tag.1);
      }
    }
  }

  /** Any printable key reads back as an equal key of the same class, with signed hashes and any
      tags, except a layer key with a negative layer id: its text is rejected. */
  lemma ParseToString(k: Key)
    requires Printable(k)
    ensures var r := Parse(ToString(k));
            if k.layer.Some? && k.layer.value < 0 then r == Err else r.Ok? && KeysEqual(r.value, k)
  {
    if k.layer.Some? && k.layer.value < 0 {
      NegativeLayer(k);
    } else {
      ClassOf(k);
      PartsLayout(k);
      SplitJoin(Parts(k), '@');
      ReadsBack(k);
      if k.layer.Some? { ParsePrinted(k.layer.value, 10); }
      hide Split, Strip, Join, Parts, KeysEqual, Printable, ReadKey, ParseInt, Print, IsDigits;
    }
  }

  /** A negative layer id is taken for a tag without '%', so the text is rejected. */
  lemma NegativeLayer(k: Key)
    requires Printable(k) && k.layer.Some? && k.layer.value < 0
    ensures Parse(ToString(k)) == Err
  {
    ClassOf(k);
    PartsLayout(k);
    SplitJoin(Parts(k), '@');
    PrintWithoutAt(k.layer.value, 10);
    NoPercent(Print(k.layer.value, 10), '%');
    assert Parts(k)[5..][0] == Print(k.layer.value, 10);
    ReadTagsFails(Parts(k)[5..], 0);
    hide Split, Strip, Join, Parts, Printable, ParseInt, Print, IsDigits, SplitOnce;
  }

  lemma {:induction false} NoPercent(s: string, c: char)
    requires Without(s, c)
    ensures SplitOnce(s, c).None?
  {
    if s != "" { NoPercent(s[1..], c); }
  }

  // ---- which keys read back ----

  lemma {:induction false} SplitPieces(s: string, c: char)
    ensures AllWithout(Split(s, c), c)
  {
    if s != "" { SplitPieces(s[1..], c); }
  }

  lemma {:induction false} SplitOnceParts(s: string, c: char)
    ensures SplitOnce(s, c).Some? ==>
              var (a, b) := SplitOnce(s, c).value; Without(a, c) && s == a + [c] + b
  {
    if s != "" && s[0] != c {
      SplitOnceParts(s[1..], c);
      if SplitOnce(s[1..], c).Some? {
        var (a, b) := SplitOnce(s[1..], c).value;
        assert s == [s[0]] + (a + [c] + b) == ([s[0]] + a) + [c] + b;
      }
    }
  }

  /** A tag whose name has neither separator and whose value has no '@'. */
  predicate CleanTag(name: string, value: string)
  {
    Without(name, '@') && Without(name, '%') && Without(value, '@')
  }

  /** Every entry of the dictionary is a clean tag under the tag prefix. */
  predicate CleanDict(d: Dict)
  {
    forall i :: 0 <= i < |d| ==> TAG_PREFIX <= d[i].0 && CleanTag(d[i].0[|TAG_PREFIX|..], d[i].1)
  }

  lemma {:induction false} PutClean(d: Dict, name: string, value: string)
    requires CleanDict(d) && CleanTag(name, value)
    ensures CleanDict(Put(d, TAG_PREFIX + name, value))
  {
    hide TAG_PREFIX;
    assert (TAG_PREFIX + name)[|TAG_PREFIX|..] == name;
    if d != [] { PutClean(d[1..], name, value); }
  }

  lemma {:induction false} ReadTagsClean(parts: seq<string>)
    requires AllWithout(parts, '@')
    ensures ReadTags(parts).Ok? ==> CleanDict(ReadTags(parts).value)
  {
    hide TAG_PREFIX, CleanDict, SplitOnce;
    if parts == [] {
      EmptyIsClean();
    } else {
      var n := |parts| - 1;
      ReadTagsClean(parts[..n]);
      SplitOnceParts(parts[n], '%');
      if ReadTags(parts[..n]).Ok? && SplitOnce(parts[n], '%').Some? {
        var (name, value) := SplitOnce(parts[n], '%').value;
        forall i | 0 <= i < |name| ensures name[i] != '@' { assert parts[n][i] == name[i]; }
        forall i | 0 <= i < |value| ensures value[i] != '@' { assert parts[n][|name| + 1 + i] == value[i]; }
        PutClean(ReadTags(parts[..n]).value, name, value);
      }
    }
  }

  lemma EmptyIsClean()
    ensures CleanDict([])
  {}

  lemma {:induction false} TagsOfClean(d: Dict)
    requires CleanDict(d)
    ensures forall i :: 0 <= i < |TagsOf(d, TAG_PREFIX)| ==> CleanTag(TagsOf(d, TAG_PREFIX)[i].0, TagsOf(d, TAG_PREFIX)[i].1)
  {
    hide TAG_PREFIX, CleanTag;
    if d != [] { TagsOfClean(d[..|d| - 1]); }
  }

  /** Whatever text is parsed, the key has no '@' in its model name and only clean tags. */
  lemma ParsedIsClean(s: string)
    ensures Parse(s).Ok? ==> CleanKey(Parse(s).value)
  {
    var parts := Split(s, '@');
    SplitPieces(s, '@');
    hide Split, Strip, ParseInt, NamedDType, ReadTags, TagsOf, TAG_PREFIX, CleanDict, CleanTag, IsDigits;
    if |parts| > 5 {
      ReadTagsClean(parts[5..]);
      if ReadTags(parts[5..]).Ok? { TagsOfClean(ReadTags(parts[5..]).value); }
    }
    if |parts| > 6 {
      ReadTagsClean(parts[6..]);
      if ReadTags(parts[6..]).Ok? { TagsOfClean(ReadTags(parts[6..]).value); }
    }
  }

  predicate CleanKey(k: Key)
  {
    && Without(k.modelName, '@')
    && (Tags(k).Some? ==> forall i :: 0 <= i < |Tags(k).value| ==> CleanTag(Tags(k).value[i].0, Tags(k).value[i].1))
  }

  /** Every config entry under the prefix is among the tags. */
  lemma {:induction false} TagsOfHas(configs: Dict, p: string, i: nat)
    requires i < |configs| && p <= configs[i].0
    ensures (configs[i].0[|p|..], configs[i].1) in TagsOf(configs, p)
  {
    if i < |configs| - 1 { TagsOfHas(configs[..|configs| - 1], p, i); }
  }

  /** A key as the constructor lets it be: a supported dtype, and distinct config keys as in every dict. */
  ghost predicate Constructible(k: Key)
  {
    && DTypeName(k.dtype).Some?
    && (k.requestConfigs.Some? ==>
          forall i, j :: 0 <= i < j < |k.requestConfigs.value| ==> k.requestConfigs.value[i].0 != k.requestConfigs.value[j].0)
  }

  lemma CleanIsPrintable(k: Key)
    requires Constructible(k) && CleanKey(k)
    ensures Printable(k)
  {
    if k.requestConfigs.Some? {
      var configs := k.requestConfigs.value;
      hide TagsOf;
      forall i | 0 <= i < |configs| && TAG_PREFIX <= configs[i].0
        ensures Without(configs[i].0, '@') && Without(configs[i].0[|TAG_PREFIX|..], '%') && Without(configs[i].1, '@')
      {
        TagsOfHas(configs, TAG_PREFIX, i);
        var name := configs[i].0[|TAG_PREFIX|..];
        assert Tags(k).Some? && CleanTag(name, configs[i].1);
        forall c | 0 <= c < |configs[i].0| ensures configs[i].0[c] != '@' {
          if c < |TAG_PREFIX| {
            assert configs[i].0[c] == TAG_PREFIX[c];
          } else {
            assert configs[i].0[c] == name[c - |TAG_PREFIX|];
          }
        }
      }
    }
  }

  /** Exactly these keys read back as an equal key of the same class: no '@' in the model name, clean tags,
      and no negative layer id. */
  lemma ReadsBackIff(k: Key)
    requires Constructible(k)
    ensures (Parse(ToString(k)).Ok? && KeysEqual(Parse(ToString(k)).value, k))
        <==> CleanKey(k) && (k.layer.Some? ==> k.layer.value >= 0)
  {
    ParsedIsClean(ToString(k));
    if CleanKey(k) {
      CleanIsPrintable(k);
      ParseToString(k);
    }
    hide Parse, ToString, CleanTag, Without;
  }

  /** Two keys have the same text exactly when they are equal, so the text can stand for the key. */
  lemma SameTextIffEqual(a: Key, b: Key)
    requires Printable(a) && Printable(b)
    ensures ToString(a) == ToString(b) <==> KeysEqual(a, b)
  {
    PartsLayout(a);
    PartsLayout(b);
    SplitJoin(Parts(a), '@');
    SplitJoin(Parts(b), '@');
    if KeysEqual(a, b) {
      EqualKeysSameText(a, b);
    } else if ToString(a) == ToString(b) {
      assert Parts(a) == Parts(b);
      SamePartsSameClass(a, b);
      ParsePrinted(a.worldSize, 10);
      ParsePrinted(b.worldSize, 10);
      ParsePrinted(a.workerId, 10);
      ParsePrinted(b.workerId, 10);
      ParsePrinted(a.chunkHash, 16);
      ParsePrinted(b.chunkHash, 16);
      DTypeWithoutAt(a.dtype);
      DTypeWithoutAt(b.dtype);
      if a.layer.Some? {
        ParsePrinted(a.layer.value, 10);
        ParsePrinted(b.layer.value, 10);
      }
      hide Parts, Print, ParseInt, DTypeName, NamedDType, Printable, Split;
      SameTail(a, b);
    }
  }

  lemma EqualKeysSameText(a: Key, b: Key)
    requires DTypeName(a.dtype).Some? && KeysEqual(a, b)
    ensures ToString(a) == ToString(b)
  {
    hide Print, DTypeName, Split;
  }

  /** A key with these tags, and nothing else worth noting. */
  function Tagged(configs: Dict): Key { Key("m", 1, 0, 0, Half, Some(configs), None) }

  function OneLongTag(): Key { Tagged([("lmcache.tag.x", "1@y%2")]) }

  function TwoShortTags(): Key { Tagged([("lmcache.tag.x", "1"), ("lmcache.tag.y", "2")]) }

  lemma TagsOfBoth()
    ensures Tags(OneLongTag()) == Some([("x", "1@y%2")]) && Tags(TwoShortTags()) == Some([("x", "1"), ("y", "2")])
  {
    TwoTags(("lmcache.tag.x", "1"), ("lmcache.tag.y", "2"));
    OneTag(("lmcache.tag.x", "1@y%2"));
  }

  lemma TextsOfBoth()
    ensures TagTexts([("x", "1@y%2")]) == ["x%1@y%2"] && TagTexts([("x", "1"), ("y", "2")]) == ["x%1", "y%2"]
  {
    TagText("x", "1@y%2", "x%1@y%2");
    TagText("x", "1", "x%1");
    TagText("y", "2", "y%2");
  }

  lemma SharedText()
    ensures ToString(OneLongTag()) == ToString(TwoShortTags())
  {
    var front := ["m", Print(1, 10), Print(0, 10), Print(0, 16), "half"];
    hide Tags, Print, TagTexts, Join;
    TagsOfBoth();
    TextsOfBoth();
    assert Parts(OneLongTag()) == front + ["x%1@y%2"];
    assert Parts(TwoShortTags()) == front + ["x%1", "y%2"];
    JoinMore(front, ["x%1@y%2"], '@');
    JoinMore(front, ["x%1", "y%2"], '@');
    JoinTwo();
  }

  lemma JoinTwo()
    ensures Join(["x%1", "y%2"], '@') == "x%1@y%2" == Join(["x%1@y%2"], '@')
  {
    assert ["x%1", "y%2"][1..] == ["y%2"];
  }

  /** With an '@' in a tag, two keys that are not equal can have the same text: one tag that looks like two. */
  lemma UnequalKeysShareText()
    ensures var one, two := OneLongTag(), TwoShortTags();
            && Constructible(one) && Constructible(two) && !CleanKey(one) && CleanKey(two)
            && !KeysEqual(one, two) && ToString(one) == ToString(two)
  {
    hide Tags, TagsOf, ToString, Constructible, CleanKey;
    TagsOfBoth();
    SharedText();
    BothConstructible();
    OneIsClean();
  }

  lemma BothConstructible()
    ensures Constructible(OneLongTag()) && Constructible(TwoShortTags())
  {
    assert "lmcache.tag.x"[12] != "lmcache.tag.y"[12];
  }

  lemma OneIsClean()
    ensures !CleanKey(OneLongTag()) && CleanKey(TwoShortTags())
  {
    hide Tags;
    TagsOfBoth();
    assert "1@y%2"[1] == '@';
    assert !CleanTag("x", "1@y%2") && CleanTag("x", "1") && CleanTag("y", "2");
    hide CleanTag;
    assert Tags(OneLongTag()).value[0] == ("x", "1@y%2");
  }

  lemma TagText(name: string, value: string, text: string)
    requires |text| == |name| + 1 + |value| && text[..|name|] == name && text[|name|] == '%' && text[|name| + 1..] == value
    ensures name + "%" + value == text
  {
    assert text == text[..|name|] + [text[|name|]] + text[|name| + 1..];
  }

  lemma OneTag(a: (string, string))
    requires TAG_PREFIX <= a.0
    ensures TagsOf([a], TAG_PREFIX) == [(a.0[|TAG_PREFIX|..], a.1)]
  {
    hide TAG_PREFIX;
    assert [a][..0] == [];
  }

  lemma TwoTags(a: (string, string), b: (string, string))
    requires TAG_PREFIX <= a.0 && TAG_PREFIX <= b.0
    ensures TagsOf([a, b], TAG_PREFIX) == [(a.0[|TAG_PREFIX|..], a.1), (b.0[|TAG_PREFIX|..], b.1)]
  {
    hide TAG_PREFIX;
    OneTag(a);
    assert [a, b][..1] == [a];
  }

  lemma {:induction false} JoinMore(a: seq<string>, b: seq<string>, c: char)
    requires a != [] && b != []
    ensures Join(a + b, c) == Join(a, c) + [c] + Join(b, c)
  {
    if |a| == 1 {
      assert (a + b)[1..] == b;
    } else {
      assert (a + b)[1..] == a[1..] + b;
      JoinMore(a[1..], b, c);
    }
  }

  /** A layer id has no '%' and a tag has one, so equal texts are of one class. */
  lemma SamePartsSameClass(a: Key, b: Key)
    requires Printable(a) && Printable(b) && Parts(a) == Parts(b)
    ensures a.layer.Some? <==> b.layer.Some?
  {
    PartsLayout(a);
    PartsLayout(b);
    if a.layer.Some? && b.layer.None? { LayerIsNoTag(a, b); }
    if b.layer.Some? && a.layer.None? { LayerIsNoTag(b, a); }
  }

  lemma LayerIsNoTag(a: Key, b: Key)
    requires Printable(a) && Printable(b) && a.layer.Some? && b.layer.None?
    ensures Parts(a) != Parts(b)
  {
    PartsLayout(a);
    PartsLayout(b);
    PrintWithoutAt(a.layer.value, 10);
    if |Parts(b)| > 5 {
      var tag := Tags(b).value[0];
      assert Parts(b)[5] == TagTail(b)[0] == tag.0 + "%" + tag.1;
      assert Parts(b)[5][|tag.0|] == '%';
    }
  }

  lemma SameTail(a: Key, b: Key)
    requires Printable(a) && Printable(b) && TagTail(a) == TagTail(b)
    ensures Tags(a) == Tags(b)
  {
    PrintableTags(a);
    PrintableTags(b);
    hide Printable, Tags, TAG_PREFIX;
    if Tags(a).Some? && Tags(b).Some? {
      ReadTagTexts(Tags(a).value);
      ReadTagTexts(Tags(b).value);
      TagsOfPrefixed(Tags(a).value, TAG_PREFIX);
      TagsOfPrefixed(Tags(b).value, TAG_PREFIX);
    }
  }
}
