/** No text that is read as a key is shorter than the key's own text, so of all the pieces of a key's
    text only the whole of it can be read back as the key. */
module CacheKeyText {
  import opened Basics
  import opened Parsing
  import opened Numerals
  import opened CacheKey

  // ---- numbers ----

  lemma {:induction false} ShortestDigits(s: string, base: nat)
    requires (base == 10 || base == 16) && ParseNat(s, base).Some?
    ensures |Digits(ParseNat(s, base).value, base)| <= |s|
    decreases |s|
  {
    hide DigitValue, DigitChar;
    var d := DigitValue(s[|s| - 1]);
    if |s| > 1 {
      var front := s[..|s| - 1];
      var rest := if front[|front| - 1] == '_' then front[..|front| - 1] else front;
      ShortestDigits(rest, base);
      DivideBack(ParseNat(rest, base).value, d, base);
    }
  }

  lemma DivideBack(v: nat, d: nat, base: nat)
    requires (base == 10 || base == 16) && d < base
    ensures (v * base + d) / base == v
  {}

  lemma {:induction false} StripShortens(s: string)
    ensures |StripLeft(s)| <= |s| && |StripRight(s)| <= |s|
    decreases |s|
  {
    if s != "" {
      StripShortens(s[1..]);
      StripShortens(s[..|s| - 1]);
    }
  }

  /** The part of a stripped numeral behind its sign. */
  function Body(t: string): string
  {
    if t != "" && (t[0] == '-' || t[0] == '+') then t[1..] else t
  }

  lemma PrintSigned(v: int, base: nat)
    requires v >= 0 && (base == 10 || base == 16)
    ensures |Print(v, base)| == |Digits(v, base)| && |Print(-v, base)| <= |Digits(v, base)| + 1
  {
    hide Digits;
  }

  lemma ShortestInt(s: string, base: nat)
    requires (base == 10 || base == 16) && ParseInt(s, base).Some?
    ensures |Print(ParseInt(s, base).value, base)| <= |s|
  {
    hide Print, Digits, ParseNat, SkipPrefix, StripLeft, StripRight;
    StripShortens(s);
    StripShortens(StripLeft(s));
    var t := Strip(s);
    assert |t| <= |s|;
    hide Strip;
    SkipShortens(Body(t), base);
    var v: int := ParseNat(SkipPrefix(Body(t), base), base).value;
    assert ParseInt(s, base) == Some(if t != "" && t[0] == '-' then -v else v);
    ShortestDigits(SkipPrefix(Body(t), base), base);
    PrintSigned(v, base);
  }

  lemma SkipShortens(s: string, base: nat)
    ensures |SkipPrefix(s, base)| <= |s|
  {}

  // ---- joined pieces ----

  /** The length of the joined pieces and one separator. */
  function Length(parts: seq<string>): nat
  {
    if parts == [] then 0 else Length(parts[..|parts| - 1]) + |parts[|parts| - 1]| + 1
  }

  lemma {:induction false} LengthOfJoin(parts: seq<string>, c: char)
    requires parts != []
    ensures |Join(parts, c)| == Length(parts) - 1
  {
    if |parts| > 1 {
      JoinLast(parts, c);
      LengthOfJoin(parts[..|parts| - 1], c);
    } else {
      assert Length(parts[..0]) == 0;
    }
    hide Join;
  }

  lemma {:induction false} LengthOfConcat(a: seq<string>, b: seq<string>)
    ensures Length(a + b) == Length(a) + Length(b)
  {
    if b == [] {
      assert a + b == a;
    } else {
      assert (a + b)[..|a + b| - 1] == a + b[..|b| - 1];
      LengthOfConcat(a, b[..|b| - 1]);
    }
  }

  lemma {:induction false} JoinSplit(s: string, c: char)
    ensures Join(Split(s, c), c) == s
  {
    if s != "" {
      JoinSplit(s[1..], c);
      var rest := Split(s[1..], c);
      if s[0] == c {
        assert ([""] + rest)[1..] == rest;
      } else {
        assert ([[s[0]] + rest[0]] + rest[1..])[1..] == rest[1..];
      }
    }
  }

  // ---- tags ----

  /** What the entries take up as tags, once n characters are taken off each name. */
  function Weight(d: Dict, n: nat): int
  {
    if d == [] then 0 else |d[0].0| - n + |d[0].1| + 2 + Weight(d[1..], n)
  }

  lemma {:induction false} WeightOfPut(d: Dict, key: string, value: string, n: nat)
    requires |key| >= n
    ensures Weight(Put(d, key, value), n) <= Weight(d, n) + |key| - n + |value| + 2
  {
    if d == [] {
      assert [(key, value)][1..] == [];
    } else if d[0].0 == key {
      assert ([(key, value)] + d[1..])[1..] == d[1..];
    } else {
      WeightOfPut(d[1..], key, value, n);
      assert ([d[0]] + Put(d[1..], key, value))[1..] == Put(d[1..], key, value);
    }
  }

  lemma {:induction false} WeightOfLast(d: Dict, n: nat)
    requires d != []
    ensures var e := d[|d| - 1]; Weight(d, n) == Weight(d[..|d| - 1], n) + |e.0| - n + |e.1| + 2
  {
    if |d| > 1 {
      WeightOfLast(d[1..], n);
      assert d[1..][..|d| - 2] == d[..|d| - 1][1..];
    }
  }

  lemma {:induction false} WeightOfRead(parts: seq<string>)
    requires ReadTags(parts).Ok?
    ensures Weight(ReadTags(parts).value, |TAG_PREFIX|) <= Length(parts)
  {
    hide SplitOnce, Put, TAG_PREFIX;
    if parts != [] {
      var n := |parts| - 1;
      WeightOfRead(parts[..n]);
      SplitOnceParts(parts[n], '%');
      var (name, value) := SplitOnce(parts[n], '%').value;
      WeightOfPut(ReadTags(parts[..n]).value, TAG_PREFIX + name, value, |TAG_PREFIX|);
    }
  }

  lemma {:induction false} WeightOfTags(d: Dict, p: string)
    requires forall i :: 0 <= i < |d| ==> p <= d[i].0
    ensures Length(TagTexts(TagsOf(d, p))) == Weight(d, |p|)
  {
    if d != [] {
      var n := |d| - 1;
      WeightOfTags(d[..n], p);
      WeightOfLast(d, |p|);
      var tags := TagsOf(d, p);
      assert tags[..|tags| - 1] == TagsOf(d[..n], p);
      assert TagTexts(tags)[..|tags| - 1] == TagTexts(tags[..|tags| - 1]);
    }
  }

  // ---- keys ----

  lemma NamedIsName(s: string)
    requires NamedDType(s).Some?
    ensures DTypeName(NamedDType(s).value) == Some(s)
  {}

  lemma FiveFields(a: seq<string>, b: seq<string>)
    requires |a| == 5 && |b| == 5 && forall i :: 0 <= i < 5 ==> |a[i]| <= |b[i]|
    ensures Length(a) <= Length(b)
  {
    LengthOfFive(a);
    LengthOfFive(b);
  }

  lemma LengthOfFive(a: seq<string>)
    requires |a| == 5
    ensures Length(a) == |a[0]| + |a[1]| + |a[2]| + |a[3]| + |a[4]| + 5
  {
    LengthStep(a, 0);
    LengthStep(a, 1);
    LengthStep(a, 2);
    LengthStep(a, 3);
    LengthStep(a, 4);
    assert a[..5] == a && Length(a[..0]) == 0;
    hide Length;
  }

  lemma LengthStep(a: seq<string>, i: nat)
    requires i < |a|
    ensures Length(a[..i + 1]) == Length(a[..i]) + |a[i]| + 1
  {
    assert a[..i + 1][..i] == a[..i];
  }

  /** The printed tags of a key that was read are no longer than what they were read from. */
  lemma TailShortens(tail: seq<string>, k: Key)
    requires AllWithout(tail, '@')
    requires if tail == [] then k.requestConfigs.None?
             else ReadTags(tail).Ok? && k.requestConfigs == Some(ReadTags(tail).value)
    ensures Length(TagTail(k)) <= Length(tail)
  {
    hide ReadTags, TAG_PREFIX;
    if tail != [] {
      var d := ReadTags(tail).value;
      WeightOfRead(tail);
      ReadTagsClean(tail);
      WeightOfTags(d, TAG_PREFIX);
      hide TagsOf, Weight, TagTexts;
      assert TagTail(k) == if TagsOf(d, TAG_PREFIX) == [] then [] else TagTexts(TagsOf(d, TAG_PREFIX));
    }
  }

  function Fields(k: Key): seq<string>
    requires DTypeName(k.dtype).Some?
  {
    [k.modelName, Print(k.worldSize, 10), Print(k.workerId, 10), Print(k.chunkHash, 16), DTypeName(k.dtype).value]
  }

  function Middle(layer: Option<int>): seq<string>
  {
    if layer.Some? then [Print(layer.value, 10)] else []
  }

  lemma LengthOfThree(a: seq<string>, b: seq<string>, c: seq<string>)
    ensures Length(a + b + c) == Length(a) + Length(b) + Length(c)
  {
    LengthOfConcat(a, b);
    LengthOfConcat(a + b, c);
  }

  lemma LengthOfKey(k: Key)
    requires DTypeName(k.dtype).Some?
    ensures Length(Parts(k)) == Length(Fields(k)) + Length(Middle(k.layer)) + Length(TagTail(k))
  {
    hide Print, DTypeName, TagTexts, Tags, Length;
    LengthOfThree(Fields(k), Middle(k.layer), TagTail(k));
    assert Parts(k) == Fields(k) + Middle(k.layer) + TagTail(k);
  }

  lemma FieldsShorten(parts: seq<string>, k: Key)
    requires |parts| == 5 && k.modelName == parts[0] && NamedDType(parts[4]) == Some(k.dtype)
    requires ParseInt(parts[1], 10) == Some(k.worldSize) && ParseInt(parts[2], 10) == Some(k.workerId)
    requires ParseInt(parts[3], 16) == Some(k.chunkHash)
    ensures DTypeName(k.dtype).Some? && Length(Fields(k)) <= Length(parts)
  {
    hide ParseInt, Print, NamedDType, DTypeName, Length;
    ShortestInt(parts[1], 10);
    ShortestInt(parts[2], 10);
    ShortestInt(parts[3], 16);
    NamedIsName(parts[4]);
    FiveFields(Fields(k), parts);
  }

  lemma ReadKeyShortens(parts: seq<string>, first: nat, layer: Option<int>)
    requires 5 <= first <= |parts| && first == (if layer.Some? then 6 else 5) && AllWithout(parts, '@')
    requires layer.Some? ==> ParseInt(parts[5], 10) == layer
    requires ReadKey(parts, first, layer).Ok?
    ensures var k := ReadKey(parts, first, layer).value;
            DTypeName(k.dtype).Some? && Length(Parts(k)) <= Length(parts)
  {
    hide ParseInt, Print, NamedDType, DTypeName, ReadTags, TagTexts, Tags, Length, Fields, Middle, Parts, TagTail, AllWithout;
    var k := ReadKey(parts, first, layer).value;
    FieldsShorten(parts[..5], k);
    MiddleShortens(parts, first, layer);
    TailWithout(parts, first);
    TailShortens(parts[first..], k);
    LengthOfKey(k);
    assert parts == parts[..5] + parts[5..first] + parts[first..];
    LengthOfThree(parts[..5], parts[5..first], parts[first..]);
  }

  lemma TailWithout(parts: seq<string>, first: nat)
    requires first <= |parts| && AllWithout(parts, '@')
    ensures AllWithout(parts[first..], '@')
  {
    hide Without;
  }

  lemma MiddleShortens(parts: seq<string>, first: nat, layer: Option<int>)
    requires 5 <= first <= |parts| && first == (if layer.Some? then 6 else 5)
    requires layer.Some? ==> ParseInt(parts[5], 10) == layer
    ensures Length(Middle(layer)) <= Length(parts[5..first])
  {
    if layer.Some? {
      ShortestInt(parts[5], 10);
      assert parts[5..6] == [parts[5]];
      assert parts[5..6][..0] == [] && [Print(layer.value, 10)][..0] == [];
    }
    hide ParseInt, Print;
  }

  /** A key that is read prints no longer than the text it was read from. */
  lemma ParseShortens(s: string)
    requires Parse(s).Ok?
    ensures DTypeName(Parse(s).value.dtype).Some? && |ToString(Parse(s).value)| <= |s|
  {
    var parts := Split(s, '@');
    SplitPieces(s, '@');
    JoinSplit(s, '@');
    LengthOfJoin(parts, '@');
    hide Split, Join, Strip, ParseInt, ReadKey, Parts, Length, IsDigits, DTypeName;
    var k := Parse(s).value;
    if EngineFromString(s) == Ok(k) {
      ReadKeyShortens(parts, 5, None);
    } else {
      ReadKeyShortens(parts, 6, ParseInt(parts[5], 10));
    }
    LengthOfJoin(Parts(k), '@');
  }

  /** Whatever reads back as the key is at least as long as the key's own text. */
  lemma OwnTextIsShortest(k: Key, s: string)
    requires DTypeName(k.dtype).Some? && Parse(s).Ok? && KeysEqual(Parse(s).value, k)
    ensures |ToString(k)| <= |s|
  {
    ParseShortens(s);
    EqualKeysSameText(k, Parse(s).value);
    hide Parse, ToString, DTypeName;
  }

  // ---- the text, field by field ----

  lemma JoinMore(parts: seq<string>, part: string)
    requires parts != []
    ensures Join(parts + [part], '@') == Join(parts, '@') + "@" + part
  {
    JoinLast(parts + [part], '@');
    assert (parts + [part])[..|parts|] == parts;
  }

  /** A key without configs: its fields between '@' signs, the hash in hexadecimal. */
  lemma TextOf(k: Key)
    requires DTypeName(k.dtype).Some? && k.requestConfigs.None?
    ensures var five := k.modelName + "@" + Print(k.worldSize, 10) + "@" + Print(k.workerId, 10) + "@" + Print(k.chunkHash, 16)
                        + "@" + DTypeName(k.dtype).value;
            ToString(k) == if k.layer.Some? then five + "@" + Print(k.layer.value, 10) else five
  {
    hide Print, DTypeName;
    var world, worker, hash, name := Print(k.worldSize, 10), Print(k.workerId, 10), Print(k.chunkHash, 16), DTypeName(k.dtype).value;
    hide Join;
    var one := [k.modelName];
    var two := one + [world];
    var three := two + [worker];
    var four := three + [hash];
    var five := four + [name];
    OneJoined(k.modelName);
    JoinMore(one, world);
    JoinMore(two, worker);
    JoinMore(three, hash);
    JoinMore(four, name);
    assert five == [k.modelName, world, worker, hash, name];
    if k.layer.Some? {
      JoinMore(five, Print(k.layer.value, 10));
      assert Parts(k) == five + [Print(k.layer.value, 10)];
      assert ToString(k) == Join(five, '@') + "@" + Print(k.layer.value, 10);
    } else {
      assert Parts(k) == five;
    }
  }

  lemma OneJoined(s: string)
    ensures Join([s], '@') == s
  {}

  /** One more config: a tag adds its name and value, any other entry nothing. */
  lemma TextGrows(k: Key, name: string, value: string)
    requires DTypeName(k.dtype).Some?
    ensures var configs := if k.requestConfigs.Some? then k.requestConfigs.value else [];
            ToString(k.(requestConfigs := Some(configs + [(name, value)]))) ==
            ToString(k) + if "lmcache.tag." <= name then "@" + name[12..] + "%" + value else ""
  {
    hide Print, DTypeName, Join;
    PartsGrow(k, name, value);
    if "lmcache.tag." <= name {
      JoinMore(Parts(k), name[12..] + "%" + value);
      hide Parts;
      Regroup(ToString(k), name[12..], value);
    }
  }

  lemma Regroup(s: string, name: string, value: string)
    ensures s + "@" + (name + "%" + value) == s + ("@" + name + "%" + value)
  {}

  lemma PartsGrow(k: Key, name: string, value: string)
    requires DTypeName(k.dtype).Some?
    ensures var configs := if k.requestConfigs.Some? then k.requestConfigs.value else [];
            Parts(k.(requestConfigs := Some(configs + [(name, value)]))) ==
            if "lmcache.tag." <= name then Parts(k) + [name[12..] + "%" + value] else Parts(k)
  {
    hide Print, DTypeName;
    var configs := if k.requestConfigs.Some? then k.requestConfigs.value else [];
    TagsGrow(configs, name, value);
    var tags := TagsOf(configs, TAG_PREFIX);
    assert k.requestConfigs.None? ==> tags == [];
    hide TagsOf, TagTexts;
    assert TagTexts([]) == [] by { NoTagTexts(); }
    if "lmcache.tag." <= name { TextsMore(tags, name[12..], value); }
  }

  lemma NoTagTexts()
    ensures TagTexts([]) == []
  {}

  lemma TagsGrow(configs: Dict, name: string, value: string)
    ensures TagsOf(configs + [(name, value)], TAG_PREFIX) ==
            TagsOf(configs, TAG_PREFIX) + if "lmcache.tag." <= name then [(name[12..], value)] else []
  {
    assert (configs + [(name, value)])[..|configs|] == configs;
  }

  lemma TextsMore(tags: Dict, name: string, value: string)
    ensures TagTexts(tags + [(name, value)]) == TagTexts(tags) + [name + "%" + value]
  {}

  /** The names of the element types. */
  lemma DTypeNames()
    ensures DTypeName(Half) == Some("half") && DTypeName(BFloat16) == Some("bfloat16")
    ensures DTypeName(Float32) == Some("float") && DTypeName(Float64) == Some("double")
    ensures DTypeName(Int8) == Some("int8") && DTypeName(UInt8) == Some("uint8") && DTypeName(Int16) == Some("int16")
    ensures DTypeName(Int32) == Some("int32") && DTypeName(Int64) == Some("int64") && DTypeName(Bool) == Some("bool")
    ensures DTypeName(Fp8E4M3Fn) == Some("fp8_e4m3fn") && DTypeName(Fp8E4M3Fnuz) == Some("fp8_e4m3fnuz")
    ensures DTypeName(Fp8E5M2) == Some("fp8_e5m2") && DTypeName(Fp8E5M2Fnuz) == Some("fp8_e5m2fnuz")
  {}

  // ---- reading tags ----

  /** An entry of a dict is replaced where it stands. */
  lemma {:induction false} PutOld(d: Dict, key: string, value: string, i: nat)
    requires i < |d| && d[i].0 == key && forall j :: 0 <= j < i ==> d[j].0 != key
    ensures Put(d, key, value) == d[i := (key, value)]
  {
    if i > 0 { PutOld(d[1..], key, value, i - 1); }
  }

  lemma {:induction false} SplitOnceIff(s: string, c: char)
    ensures SplitOnce(s, c).Some? <==> c in s
  {
    if s != "" { SplitOnceIff(s[1..], c); }
  }

  /** Tags are read when each has a '%', and then one after the other. */
  lemma {:induction false} ReadTagsMeans(parts: seq<string>, name: string, value: string)
    requires '%' !in name
    ensures ReadTags(parts).Ok? <==> forall i :: 0 <= i < |parts| ==> '%' in parts[i]
    ensures ReadTags(parts).Ok? ==>
              ReadTags(parts + [name + "%" + value]) == Ok(Put(ReadTags(parts).value, "lmcache.tag." + name, value))
  {
    assert (parts + [name + "%" + value])[..|parts|] == parts;
    SplitOnceAt(name, '%', value);
    hide SplitOnce;
    if parts != [] {
      var n := |parts| - 1;
      ReadTagsMeans(parts[..n], name, value);
      SplitOnceIff(parts[n], '%');
    }
  }

  /** The kind of key a text is read as: with a layer when its sixth field is all digits, blanks at the very end
      of the text aside. */
  predicate Layered(fields: seq<string>)
  {
    |fields| > 5 && IsDigits(if |fields| == 6 then StripRight(fields[5]) else fields[5])
  }

  /** A text is read as its fields: too few are refused, and the layer comes before the tags. */
  lemma ParseMeans(fields: seq<string>)
    requires fields != [] && AllWithout(fields, '@')
    ensures Parse(Join(fields, '@')) ==
            if |fields| < 5 then Err
            else if !Layered(fields) then ReadKey(fields, 5, None)
            else if ParseInt(fields[5], 10).None? then Err else ReadKey(fields, 6, ParseInt(fields[5], 10))
  {
    var s := Join(fields, '@');
    SplitJoin(fields, '@');
    StrippedClass(fields);
    EngineReads(s, fields);
    LayerReads(s, fields);
    assert Layered(fields) ==> |fields| > 5;
    assert Parse(s) == if Layered(fields) then LayerFromString(s) else EngineFromString(s);
    hide *;
  }

  lemma EngineReads(s: string, fields: seq<string>)
    requires Split(s, '@') == fields
    ensures EngineFromString(s) == if |fields| < 5 then Err else ReadKey(fields, 5, None)
  {
    hide ReadKey;
  }

  lemma LayerReads(s: string, fields: seq<string>)
    requires Split(s, '@') == fields
    ensures LayerFromString(s) ==
            if |fields| < 6 || ParseInt(fields[5], 10).None? then Err else ReadKey(fields, 6, ParseInt(fields[5], 10))
  {
    hide ReadKey, ParseInt;
  }

  /** Which fields are read: three integers, a known element type, and a '%' in every tag. */
  lemma ReadKeyMeans(fields: seq<string>, first: nat, layer: Option<int>)
    requires 5 <= first <= |fields|
    ensures var r := ReadKey(fields, first, layer);
            && (r.Ok? <==>
                 && ParseInt(fields[1], 10).Some? && ParseInt(fields[2], 10).Some? && ParseInt(fields[3], 16).Some?
                 && NamedDType(fields[4]).Some? && forall i :: first <= i < |fields| ==> '%' in fields[i])
            && (r.Ok? ==>
                 && r.value.modelName == fields[0] && Some(r.value.worldSize) == ParseInt(fields[1], 10)
                 && Some(r.value.workerId) == ParseInt(fields[2], 10) && Some(r.value.chunkHash) == ParseInt(fields[3], 16)
                 && Some(r.value.dtype) == NamedDType(fields[4]) && r.value.layer == layer
                 && r.value.requestConfigs == if |fields| > first then Some(ReadTags(fields[first..]).value) else None)
  {
    hide ParseInt, NamedDType;
    TagsBehind(fields, first);
    hide ReadTags;
  }

  lemma TagsBehind(fields: seq<string>, first: nat)
    requires first <= |fields|
    ensures ReadTags(fields[first..]).Ok? <==> forall i :: first <= i < |fields| ==> '%' in fields[i]
  {
    ReadTagsMeans(fields[first..], "", "");
    hide ReadTags;
    assert forall i :: first <= i < |fields| ==> fields[i] == fields[first..][i - first];
  }

  lemma StrippedClass(fields: seq<string>)
    requires fields != [] && AllWithout(fields, '@')
    ensures var parts := Split(Strip(Join(fields, '@')), '@'); |parts| >= 6 && IsDigits(parts[5]) <==> Layered(fields)
  {
    hide Split, Join, Strip, IsDigits, StripLeft, StripRight;
    if |fields| > 1 {
      SplitStripped(fields);
      assert |fields| > 5 ==> StripEnds(fields)[5] == if |fields| == 6 then StripRight(fields[5]) else fields[5];
    } else {
      assert fields == [fields[0]];
      OneField(fields[0]);
    }
  }

  lemma OneField(s: string)
    requires Without(s, '@')
    ensures Split(Strip(Join([s], '@')), '@') == [Strip(s)]
  {
    OneJoined(s);
    hide Split, StripLeft, StripRight, Join;
    StripKeeps(s, '@');
    StripKeeps(StripLeft(s), '@');
    SplitNone(Strip(s), '@');
  }
}
