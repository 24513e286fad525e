/** The messages byte by byte: which number stands where, where the key text lies, and which error a
    message that cannot be written or read ends in. */
module WireLayout {
  import opened Basics
  import opened WireMessage
  import opened Utf8
  import Numerals
  import CacheKey

  /** The four bytes from `at` on, least significant first, are v in two's complement. */
  predicate IntAt(bytes: seq<Byte>, at: nat, v: int)
  {
    && at + 4 <= |bytes|
    && var u := (bytes[at] as int) + 0x100 * (bytes[at + 1] as int) + 0x1_0000 * (bytes[at + 2] as int) + 0x100_0000 * (bytes[at + 3] as int);
       u == if v < 0 then v + 0x1_0000_0000 else v
  }

  lemma PackIntAt(i: int)
    requires Fits(i)
    ensures IntAt(PackInt(i), 0, i)
  {}

  lemma IntAtInside(front: seq<Byte>, bytes: seq<Byte>, tail: seq<Byte>, at: nat, v: int)
    requires IntAt(bytes, at, v)
    ensures IntAt(front + bytes + tail, |front| + at, v)
  {
    var all := front + bytes + tail;
    assert forall i :: 0 <= i < |bytes| ==> all[|front| + i] == bytes[i];
  }

  /** Field k of packed integers stands at byte 4k. */
  lemma {:induction false} PackedAt(fields: seq<int>, k: nat, tail: seq<Byte>)
    requires Pack(fields).Ok? && k < |fields|
    ensures IntAt(Pack(fields).value + tail, 4 * k, fields[k])
    decreases |fields|
  {
    var n := |fields| - 1;
    PackStep(fields);
    UnpackAll(fields[..n]);
    var front, last := Pack(fields[..n]).value, PackInt(fields[n]);
    if k < n {
      PackedAt(fields[..n], k, last + tail);
      assert Pack(fields).value + tail == front + (last + tail);
    } else {
      PackIntAt(fields[n]);
      IntAtInside(front, last, tail, 0, fields[n]);
    }
  }

  /** Four numbers from byte `at` on. */
  predicate ShapeAt(bytes: seq<Byte>, at: nat, shape: seq<int>)
  {
    |shape| == 4 && forall i :: 0 <= i < 4 ==> IntAt(bytes, at + 4 * i, shape[i])
  }

  /** The text from byte `at` to the end, in UTF-8: cut at the end, or padded with blanks. */
  predicate TextAt(bytes: seq<Byte>, at: nat, text: string)
  {
    forall i :: at <= i < |bytes| ==> bytes[i] == if i - at < |Encode(text)| then Encode(text)[i - at] else 32
  }

  /** The numbers of the protocol. */
  lemma Numbers()
    ensures CommandValue(Put) == 1 && CommandValue(Get) == 2 && CommandValue(Exist) == 3 && CommandValue(List) == 4
    ensures CommandValue(Health) == 5 && CodeValue(Success) == 200 && CodeValue(Fail) == 400
    ensures FormatValue(Undefined) == 0 && FormatValue(Kv2Ltd) == 1 && FormatValue(KvT2d) == 2 && FormatValue(Kv2Td) == 3
    ensures FormatValue(Binary) == 4 && FormatValue(BinaryBuffer) == 5 && FormatValue(KvMla) == 6
    ensures DTypeValue(None) == Ok(0) && DTypeValue(Some(CacheKey.Half)) == Ok(2) && DTypeValue(Some(CacheKey.BFloat16)) == Ok(3)
    ensures DTypeValue(Some(CacheKey.Float32)) == Ok(4) && DTypeValue(Some(CacheKey.Float64)) == Ok(5)
    ensures DTypeValue(Some(CacheKey.UInt8)) == Ok(6) && DTypeValue(Some(CacheKey.Fp8E4M3Fn)) == Ok(7)
    ensures DTypeValue(Some(CacheKey.Fp8E5M2)) == Ok(8) && ReadDType(1) == Ok(Some(CacheKey.Half))
    ensures LocationValue(None) == Ok(0) && LocationValue(Some("LocalCPUBackend")) == Ok(1) && LocationValue(Some("LocalDiskBackend")) == Ok(2)
  {}

  /** A client message: nine numbers, then the key text. */
  lemma ClientLayout(m: ClientMeta)
    requires CacheKey.DTypeName(m.key.dtype).Some? && SerializeClient(m).Ok?
    ensures DTypeValue(m.dtype).Ok? && LocationValue(m.location).Ok?
    ensures var b := SerializeClient(m).value;
            && |b| == 186 && IntAt(b, 0, CommandValue(m.command)) && IntAt(b, 4, m.length) && IntAt(b, 8, FormatValue(m.fmt))
            && IntAt(b, 12, DTypeValue(m.dtype).value) && IntAt(b, 16, LocationValue(m.location).value)
            && ShapeAt(b, 20, m.shape) && TextAt(b, 36, CacheKey.ToString(m.key))
  {
    var text := CacheKey.ToString(m.key);
    ClientWrites(m, text);
    var fields, field := ClientFields(m), Field(Encode(text), MAX_KEY_LENGTH);
    UnpackAll(fields);
    forall k: nat | k < 9 ensures IntAt(Pack(fields).value + field, 4 * k, fields[k]) { PackedAt(fields, k, field); }
    var b := SerializeClient(m).value;
    assert b[36..] == field;
    hide IntAt, Pack, Encode, CacheKey.ToString, SerializeClient, CommandValue, FormatValue, DTypeValue, LocationValue;
    assert IntAt(b, 4 * 0, fields[0]) && IntAt(b, 4 * 1, fields[1]) && IntAt(b, 4 * 2, fields[2]) && IntAt(b, 4 * 3, fields[3]);
    assert IntAt(b, 4 * 4, fields[4]);
    forall i | 0 <= i < 4 ensures IntAt(b, 20 + 4 * i, m.shape[i]) {
      assert IntAt(b, 4 * (i + 5), fields[i + 5]) && fields[i + 5] == m.shape[i];
    }
    forall i | 36 <= i < |b| ensures b[i] == if i - 36 < |Encode(text)| then Encode(text)[i - 36] else 32 { assert b[i] == field[i - 36]; }
  }

  /** A client message cannot be written when its text is longer than 150 characters or its shape has not
      four entries, or else when its dtype or location is not in the tables, or else when a number does not fit. */
  lemma ClientErrors(m: ClientMeta)
    requires CacheKey.DTypeName(m.key.dtype).Some?
    ensures var r := SerializeClient(m);
            var asserts := |CacheKey.ToString(m.key)| > 150 || |m.shape| != 4;
            var named := DTypeValue(m.dtype).Ok? && LocationValue(m.location).Ok?;
            && (r == Err(AssertionError) <==> asserts) && (r == Err(KeyError) <==> !asserts && !named)
            && (r == Err(StructError) <==> !asserts && named && !(Fits(m.length) && forall i :: 0 <= i < 4 ==> Fits(m.shape[i])))
            && (r.Ok? || r == Err(AssertionError) || r == Err(KeyError) || r == Err(StructError))
  {
    TablesReadBack(m.command, Success, m.fmt, m.dtype, m.location);
    if Encodable(m, CacheKey.ToString(m.key)) {
      var fields := ClientFields(m);
      UnpackAll(fields);
      PackError(fields);
      assert fields[5..] == m.shape;
      FieldsFit(fields, m.shape, 5);
    }
    hide Pack, Fits, CacheKey.ToString, Encode, CommandValue, FormatValue;
  }

  lemma {:induction false} PackError(fields: seq<int>)
    ensures Pack(fields).Err? ==> Pack(fields) == Err(StructError)
  {
    if fields != [] { PackError(fields[..|fields| - 1]); }
  }

  /** Which numbers the tables read, and how the others are refused. */
  lemma TablesRead(v: int)
    ensures if 1 <= v <= 5 then ReadCommand(v).Ok? && CommandValue(ReadCommand(v).value) == v else ReadCommand(v) == Err(ValueError)
    ensures if v == 200 || v == 400 then ReadCode(v).Ok? && CodeValue(ReadCode(v).value) == v else ReadCode(v) == Err(ValueError)
    ensures if 0 <= v <= 6 then ReadFormat(v).Ok? && FormatValue(ReadFormat(v).value) == v else ReadFormat(v) == Err(ValueError)
    ensures if 0 <= v <= 8 then ReadDType(v).Ok? && (v != 1 ==> DTypeValue(ReadDType(v).value) == Ok(v)) else ReadDType(v) == Err(KeyError)
    ensures if 0 <= v <= 2 then ReadLocation(v).Ok? && LocationValue(ReadLocation(v).value) == Ok(v) else ReadLocation(v) == Err(KeyError)
  {}

  /** A received client message is refused for its length, its command, its text, its key, its format, its
      dtype, or its location, whichever comes first. */
  lemma ClientRefused(s: seq<Byte>, command: int, length: int, fmt: int, dtype: int, location: int)
    requires |s| == 186 ==> IntAt(s, 0, command) && IntAt(s, 4, length) && IntAt(s, 8, fmt) && IntAt(s, 12, dtype) && IntAt(s, 16, location)
    requires Fits(command) && Fits(length) && Fits(fmt) && Fits(dtype) && Fits(location)
    ensures var r := DeserializeClient(s);
            if |s| != 186 then r == Err(StructError)
            else if !(1 <= command <= 5) then r == Err(ValueError)
            else if Decode(s[36..]).None? then r == Err(UnicodeError)
            else
              var key := CacheKey.Parse(Numerals.Strip(Decode(s[36..]).value));
              if key.Err? || !(0 <= fmt <= 6) then r == Err(ValueError)
              else if !(0 <= dtype <= 8) || !(0 <= location <= 2) then r == Err(KeyError)
              else
                && r.Ok? && r.value.key == key.value && r.value.length == length && CommandValue(r.value.command) == command
                && FormatValue(r.value.fmt) == fmt && ReadDType(dtype) == Ok(r.value.dtype)
                && LocationValue(r.value.location) == Ok(location) && ShapeAt(s, 20, r.value.shape)
  {
    if |s| == 186 {
      var f := Unpack(s, 9);
      UnpackedAt(s, 9);
      assert IntAt(s, 4 * 0, f[0]) && IntAt(s, 4 * 1, f[1]) && IntAt(s, 4 * 2, f[2]) && IntAt(s, 4 * 3, f[3]) && IntAt(s, 4 * 4, f[4]);
      assert f[0] == command && f[1] == length && f[2] == fmt && f[3] == dtype && f[4] == location;
      TablesRead(command);
      TablesRead(fmt);
      TablesRead(dtype);
      TablesRead(location);
      hide IntAt, Unpack, CacheKey.Parse, Numerals.Strip, Decode, Fits, ReadCommand, CommandValue, ReadFormat, FormatValue,
           ReadDType, DTypeValue, ReadLocation, LocationValue;
      forall i | 0 <= i < 4 ensures IntAt(s, 20 + 4 * i, f[5..9][i]) { assert IntAt(s, 4 * (i + 5), f[i + 5]); }
    }
  }

  lemma UnpackIntAt(bytes: seq<Byte>, at: nat)
    requires at + 4 <= |bytes|
    ensures IntAt(bytes, at, UnpackInt(bytes[at..at + 4])) && Fits(UnpackInt(bytes[at..at + 4]))
  {}

  /** What is unpacked is what stands there. */
  lemma {:induction false} UnpackedAt(bytes: seq<Byte>, n: nat)
    requires |bytes| >= 4 * n
    ensures forall k: nat :: k < n ==> IntAt(bytes, 4 * k, Unpack(bytes, n)[k]) && Fits(Unpack(bytes, n)[k])
  {
    if n > 0 {
      UnpackedAt(bytes, n - 1);
      UnpackIntAt(bytes, 4 * (n - 1));
      hide IntAt, Fits, UnpackInt;
    }
  }

  /** A reply: eight numbers and the location last. */
  lemma ServerLayout(m: ServerMeta)
    requires SerializeServer(m).Ok?
    ensures DTypeValue(m.dtype).Ok? && LocationValue(m.location).Ok?
    ensures var b := SerializeServer(m).value;
            && |b| == 36 && IntAt(b, 0, CodeValue(m.code)) && IntAt(b, 4, m.length) && IntAt(b, 8, FormatValue(m.fmt))
            && IntAt(b, 12, DTypeValue(m.dtype).value) && ShapeAt(b, 16, m.shape) && IntAt(b, 32, LocationValue(m.location).value)
  {
    var fields := ServerFields(m);
    UnpackAll(fields);
    var b := SerializeServer(m).value;
    forall k: nat | k < 9 ensures IntAt(b, 4 * k, fields[k]) {
      PackedAt(fields, k, []);
      assert b + [] == b;
    }
    hide IntAt, Pack, SerializeServer, CodeValue, FormatValue, DTypeValue, LocationValue;
    assert IntAt(b, 4 * 0, fields[0]) && IntAt(b, 4 * 1, fields[1]) && IntAt(b, 4 * 2, fields[2]) && IntAt(b, 4 * 3, fields[3]);
    assert IntAt(b, 4 * 8, fields[8]);
    forall i | 0 <= i < 4 ensures IntAt(b, 16 + 4 * i, m.shape[i]) {
      assert IntAt(b, 4 * (i + 4), fields[i + 4]) && fields[i + 4] == m.shape[i];
    }
  }

  /** A received reply is refused for its length, or for the first number the tables do not hold. */
  lemma ServerRefused(s: seq<Byte>, code: int, length: int, fmt: int, dtype: int, location: int)
    requires |s| == 36 ==> IntAt(s, 0, code) && IntAt(s, 4, length) && IntAt(s, 8, fmt) && IntAt(s, 12, dtype) && IntAt(s, 32, location)
    requires Fits(code) && Fits(length) && Fits(fmt) && Fits(dtype) && Fits(location)
    ensures var r := DeserializeServer(s);
            if |s| != 36 then r == Err(StructError)
            else if !(code == 200 || code == 400) || !(0 <= fmt <= 6) then r == Err(ValueError)
            else if !(0 <= dtype <= 8) || !(0 <= location <= 2) then r == Err(KeyError)
            else
              && r.Ok? && r.value.length == length && CodeValue(r.value.code) == code && FormatValue(r.value.fmt) == fmt
              && ReadDType(dtype) == Ok(r.value.dtype) && LocationValue(r.value.location) == Ok(location) && ShapeAt(s, 16, r.value.shape)
  {
    if |s| == 36 {
      var f := Unpack(s, 9);
      UnpackedAt(s, 9);
      assert IntAt(s, 4 * 0, f[0]) && IntAt(s, 4 * 1, f[1]) && IntAt(s, 4 * 2, f[2]) && IntAt(s, 4 * 3, f[3]) && IntAt(s, 4 * 8, f[8]);
      assert f[0] == code && f[1] == length && f[2] == fmt && f[3] == dtype && f[8] == location;
      TablesRead(code);
      TablesRead(fmt);
      TablesRead(dtype);
      TablesRead(location);
      hide IntAt, Unpack, Fits, ReadCode, CodeValue, ReadFormat, FormatValue, ReadDType, DTypeValue, ReadLocation, LocationValue;
      forall i | 0 <= i < 4 ensures IntAt(s, 16 + 4 * i, f[4..8][i]) { assert IntAt(s, 4 * (i + 4), f[i + 4]); }
    }
  }

  /** Metadata: the length, the format, and for each group its dtype and shape. */
  lemma RemoteLayout(m: RemoteMeta, numGroups: nat, g: nat)
    requires SerializeRemote(m, numGroups).Ok? && g < |m.groups|
    ensures var b := SerializeRemote(m, numGroups).value;
            && IntAt(b, 0, m.length) && IntAt(b, 4, FormatValue(m.fmt)) && DTypeValue(m.groups[g].dtype).Ok?
            && IntAt(b, 8 + 20 * g, DTypeValue(m.groups[g].dtype).value) && ShapeAt(b, 12 + 20 * g, m.groups[g].shape)
  {
    RemoteWrites(m, numGroups);
    var fields, b := RemoteFields(m), SerializeRemote(m, numGroups).value;
    UnpackAll(fields);
    forall k: nat | k < |fields| ensures IntAt(b, 4 * k, fields[k]) {
      PackedAt(fields, k, []);
      assert b + [] == b;
    }
    GroupAt(m.groups, g);
    hide IntAt, Pack, SerializeRemote, FormatValue, DTypeValue, GroupParams;
    assert IntAt(b, 4 * 0, fields[0]) && IntAt(b, 4 * 1, fields[1]) && IntAt(b, 4 * (2 + 5 * g), fields[2 + 5 * g]);
    forall i | 0 <= i < 4 ensures IntAt(b, 12 + 20 * g + 4 * i, m.groups[g].shape[i]) {
      assert IntAt(b, 4 * (3 + 5 * g + i), fields[3 + 5 * g + i]);
    }
  }

  lemma {:induction false} GroupAt(groups: seq<Group>, g: nat)
    requires GroupParams(groups).Ok? && g < |groups|
    ensures |GroupParams(groups).value| == 5 * |groups| && |groups[g].shape| == 4 && DTypeValue(groups[g].dtype).Ok?
    ensures GroupParams(groups).value[5 * g] == DTypeValue(groups[g].dtype).value
    ensures forall i :: 0 <= i < 4 ==> GroupParams(groups).value[5 * g + 1 + i] == groups[g].shape[i]
  {
    ReadGroupsBack(groups, 0, 0, []);
    hide DTypeValue;
    var n := |groups| - 1;
    ReadGroupsBack(groups[..n], 0, 0, []);
    if g < n { GroupAt(groups[..n], g); }
  }

  /** The first group that cannot be written decides the error. */
  lemma {:induction false} GroupErrors(groups: seq<Group>, g: nat)
    requires g < |groups| && forall k :: 0 <= k < g ==> |groups[k].shape| == 4 && DTypeValue(groups[k].dtype).Ok?
    ensures |groups[g].shape| != 4 ==> GroupParams(groups) == Err(AssertionError)
    ensures |groups[g].shape| == 4 && DTypeValue(groups[g].dtype).Err? ==> GroupParams(groups) == Err(KeyError)
  {
    hide DTypeValue;
    var n := |groups| - 1;
    assert DTypeValue(groups[g].dtype).Err? ==> DTypeValue(groups[g].dtype) == Err(KeyError) by { OnlyKeyErrors(groups[g].dtype); }
    if g < n { GroupErrors(groups[..n], g); } else { GroupsOk(groups[..n]); }
  }

  lemma {:induction false} GroupsOk(groups: seq<Group>)
    requires forall k :: 0 <= k < |groups| ==> |groups[k].shape| == 4 && DTypeValue(groups[k].dtype).Ok?
    ensures GroupParams(groups).Ok?
  {
    hide DTypeValue;
    if groups != [] { GroupsOk(groups[..|groups| - 1]); }
  }

  lemma OnlyKeyErrors(d: Option<DType>)
    ensures DTypeValue(d).Err? ==> DTypeValue(d) == Err(KeyError)
  {}
}
