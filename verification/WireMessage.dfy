/** The fixed-size messages between workers and the remote server: packed native (little-endian,
    32-bit) integers, and a key text in UTF-8, padded with blanks or cut to 150 bytes. */
module WireMessage {
  import opened Basics
  import Parsing
  import opened Numerals
  import opened Utf8
  import CacheKey
  import CacheKeyText

  const MAX_KEY_LENGTH: nat := 150

  datatype Error = AssertionError | KeyError | StructError | ValueError | UnicodeError
  datatype Result<T> = Ok(value: T) | Err(error: Error)

  // ---- struct.pack / unpack of "i" ----

  predicate Fits(i: int) { -0x8000_0000 <= i < 0x8000_0000 }

  predicate AllFit(f: seq<int>)
  {
    forall i :: 0 <= i < |f| ==> Fits(f[i])
  }

  function PackInt(i: int): (b: seq<Byte>)
    requires Fits(i)
    ensures |b| == 4
  {
    var u := if i < 0 then i + 0x1_0000_0000 else i;
    [u % 256, u / 256 % 256, u / 256 / 256 % 256, u / 256 / 256 / 256]
  }

  function UnpackInt(b: seq<Byte>): int
    requires |b| == 4
  {
    var u := (b[0] as int) + 256 * ((b[1] as int) + 256 * ((b[2] as int) + 256 * (b[3] as int)));
    if u >= 0x8000_0000 then u - 0x1_0000_0000 else u
  }

  lemma UnpackPack(i: int)
    requires Fits(i)
    ensures UnpackInt(PackInt(i)) == i
  {}

  function Pack(fields: seq<int>): Result<seq<Byte>>
  {
    if fields == [] then Ok([])
    else
      match Pack(fields[..|fields| - 1])
      case Err(e) => Err(e)
      case Ok(bytes) => if Fits(fields[|fields| - 1]) then Ok(bytes + PackInt(fields[|fields| - 1])) else Err(StructError)
  }

  /** The first n packed integers of a byte string. */
  function Unpack(bytes: seq<Byte>, n: nat): (r: seq<int>)
    requires |bytes| >= 4 * n
    ensures |r| == n
  {
    if n == 0 then [] else Unpack(bytes, n - 1) + [UnpackInt(bytes[4 * (n - 1)..4 * n])]
  }

  /** Unpacking looks at no more than the bytes it needs. */
  lemma {:induction false} UnpackPrefix(bytes: seq<Byte>, tail: seq<Byte>, n: nat)
    requires |bytes| >= 4 * n
    ensures Unpack(bytes + tail, n) == Unpack(bytes, n)
  {
    hide UnpackInt;
    if n > 0 {
      UnpackPrefix(bytes, tail, n - 1);
      assert (bytes + tail)[4 * (n - 1)..4 * n] == bytes[4 * (n - 1)..4 * n];
    }
  }

  lemma PackStep(fields: seq<int>)
    requires fields != []
    ensures var front, x := Pack(fields[..|fields| - 1]), fields[|fields| - 1];
            && (Pack(fields).Ok? <==> front.Ok? && Fits(x))
            && (Pack(fields).Ok? ==> Pack(fields).value == front.value + PackInt(x))
  {
    hide PackInt, Fits;
  }

  /** Packing succeeds exactly when every field fits in 32 bits, and unpacking gives the fields back. */
  lemma {:induction false} UnpackAll(fields: seq<int>)
    ensures Pack(fields).Ok? <==> forall i :: 0 <= i < |fields| ==> Fits(fields[i])
    ensures Pack(fields).Ok? ==> |Pack(fields).value| == 4 * |fields| && Unpack(Pack(fields).value, |fields|) == fields
  {
    if fields != [] {
      var n := |fields| - 1;
      UnpackAll(fields[..n]);
      PackStep(fields);
      assert fields == fields[..n] + [fields[n]];
      if Pack(fields).Ok? {
        var front, last := Pack(fields[..n]).value, PackInt(fields[n]);
        UnpackPack(fields[n]);
        UnpackPrefix(front, last, n);
        hide Pack, PackInt, UnpackInt, Fits;
        assert (front + last)[4 * n..4 * (n + 1)] == last;
      }
    }
  }

  lemma UnpackPacked(fields: seq<int>, tail: seq<Byte>)
    ensures Pack(fields).Ok? <==> AllFit(fields)
    ensures Pack(fields).Ok? ==> |Pack(fields).value| == 4 * |fields| && Unpack(Pack(fields).value + tail, |fields|) == fields
  {
    UnpackAll(fields);
    if Pack(fields).Ok? { UnpackPrefix(Pack(fields).value, tail, |fields|); }
  }

  // ---- the tables ----

  datatype Command = Put | Get | Exist | List | Health
  datatype ReturnCode = Success | Fail
  datatype Format = Undefined | Kv2Ltd | KvT2d | Kv2Td | Binary | BinaryBuffer | KvMla
  type DType = CacheKey.DType

  function CommandValue(c: Command): int
  {
    match c case Put => 1 case Get => 2 case Exist => 3 case List => 4 case Health => 5
  }

  function ReadCommand(v: int): Result<Command>
  {
    if v == 1 then Ok(Put) else if v == 2 then Ok(Get) else if v == 3 then Ok(Exist)
    else if v == 4 then Ok(List) else if v == 5 then Ok(Health) else Err(ValueError)
  }

  function CodeValue(c: ReturnCode): int { match c case Success => 200 case Fail => 400 }

  function ReadCode(v: int): Result<ReturnCode>
  {
    if v == 200 then Ok(Success) else if v == 400 then Ok(Fail) else Err(ValueError)
  }

  function FormatValue(f: Format): int
  {
    match f case Undefined => 0 case Kv2Ltd => 1 case KvT2d => 2 case Kv2Td => 3 case Binary => 4 case BinaryBuffer => 5 case KvMla => 6
  }

  function ReadFormat(v: int): Result<Format>
  {
    if v == 0 then Ok(Undefined) else if v == 1 then Ok(Kv2Ltd) else if v == 2 then Ok(KvT2d) else if v == 3 then Ok(Kv2Td)
    else if v == 4 then Ok(Binary) else if v == 5 then Ok(BinaryBuffer) else if v == 6 then Ok(KvMla) else Err(ValueError)
  }

  /** torch.half and torch.float16 are one dtype; its later entry, 2, wins in the table. */
  function DTypeValue(d: Option<DType>): Result<int>
  {
    match d
    case None => Ok(0)
    case Some(t) =>
      match t
      case Half => Ok(2) case BFloat16 => Ok(3) case Float32 => Ok(4) case Float64 => Ok(5) case UInt8 => Ok(6)
      case Fp8E4M3Fn => Ok(7) case Fp8E5M2 => Ok(8)
      case _ => Err(KeyError)
  }

  function ReadDType(v: int): Result<Option<DType>>
  {
    if v == 0 then Ok(None) else if v == 1 || v == 2 then Ok(Some(CacheKey.Half)) else if v == 3 then Ok(Some(CacheKey.BFloat16))
    else if v == 4 then Ok(Some(CacheKey.Float32)) else if v == 5 then Ok(Some(CacheKey.Float64))
    else if v == 6 then Ok(Some(CacheKey.UInt8)) else if v == 7 then Ok(Some(CacheKey.Fp8E4M3Fn))
    else if v == 8 then Ok(Some(CacheKey.Fp8E5M2)) else Err(KeyError)
  }

  function LocationValue(l: Option<string>): Result<int>
  {
    match l
    case None => Ok(0)
    case Some(name) =>
      if name == "LocalCPUBackend" then Ok(1) else if name == "LocalDiskBackend" then Ok(2) else Err(KeyError)
  }

  function ReadLocation(v: int): Result<Option<string>>
  {
    if v == 0 then Ok(None) else if v == 1 then Ok(Some("LocalCPUBackend")) else if v == 2 then Ok(Some("LocalDiskBackend"))
    else Err(KeyError)
  }

  lemma TablesReadBack(c: Command, r: ReturnCode, f: Format, d: Option<DType>, l: Option<string>)
    ensures ReadCommand(CommandValue(c)) == Ok(c) && ReadCode(CodeValue(r)) == Ok(r) && ReadFormat(FormatValue(f)) == Ok(f)
    ensures DTypeValue(d).Ok? ==> ReadDType(DTypeValue(d).value) == Ok(d)
    ensures LocationValue(l).Ok? ==> ReadLocation(LocationValue(l).value) == Ok(l)
    ensures Fits(CommandValue(c)) && Fits(CodeValue(r)) && Fits(FormatValue(f))
    ensures (DTypeValue(d).Ok? ==> Fits(DTypeValue(d).value)) && (LocationValue(l).Ok? ==> Fits(LocationValue(l).value))
  {}

  // ---- key text as bytes ----

  /** key.ljust(n), and then the "s" of struct.pack, which cuts what is longer. */
  function Field(bytes: seq<Byte>, n: nat): (r: seq<Byte>)
    ensures |r| == n
  {
    if |bytes| < n then bytes + seq(n - |bytes|, _ => 32) else bytes[..n]
  }

  function Blanks(n: nat): string { seq(n, _ => ' ') }

  lemma {:induction false} StripLeftBlank(s: string)
    ensures StripLeft(s + " ") == if StripLeft(s) == "" then "" else StripLeft(s) + " "
  {
    if s == "" {
      assert s + " " == " " && " "[1..] == "";
    } else {
      assert (s + " ")[1..] == s[1..] + " ";
      StripLeftBlank(s[1..]);
    }
  }

  /** Blanks behind a text are stripped with it. */
  lemma {:induction false} StripPadded(s: string, n: nat)
    ensures Strip(s + Blanks(n)) == Strip(s)
  {
    if n == 0 {
      assert s + Blanks(0) == s;
    } else {
      var t := s + Blanks(n - 1);
      assert s + Blanks(n) == t + " ";
      StripPadded(s, n - 1);
      StripLeftBlank(t);
      StripRightBlank(StripLeft(t));
      hide StripLeft, StripRight;
      assert StripRight("") == "" by { StripTrimmed(""); StripLeftEmpty(); }
    }
  }

  lemma StripLeftEmpty()
    ensures StripLeft("") == "" && StripRight("") == ""
  {}

  lemma StripRightBlank(s: string)
    ensures StripRight(s + " ") == StripRight(s)
  {
    assert (s + " ")[..|s|] == s;
  }

  /** A text is as long as its stripped form exactly when it is trimmed. */
  lemma StripShortens(s: string)
    ensures if Trimmed(s) then Strip(s) == s else |Strip(s)| < |s|
  {
    if Trimmed(s) {
      StripTrimmed(s);
    } else if IsSpace(s[0]) {
      CacheKeyText.StripShortens(s[1..]);
      CacheKeyText.StripShortens(StripLeft(s));
    } else {
      CacheKeyText.StripShortens(s[..|s| - 1]);
    }
  }

  lemma {:induction false} EncodeBlanks(n: nat)
    ensures Encode(Blanks(n)) == seq(n, _ => 32)
  {
    if n > 0 {
      assert Blanks(n)[1..] == Blanks(n - 1);
      EncodeBlanks(n - 1);
    }
  }

  /** What the field decodes to: the padded text, or when the text does not fit nothing, or a shorter
      beginning of it. */
  lemma DecodeField(s: string, n: nat)
    ensures var size, r := |Encode(s)|, Decode(Field(Encode(s), n));
            if size <= n then r == Some(s + Blanks(n - size)) else r.Some? ==> r.value <= s && r.value != s
  {
    hide Encode, Decode;
    var size := |Encode(s)|;
    if size <= n {
      EncodeBlanks(n - size);
      EncodeConcat(s, Blanks(n - size));
      assert Field(Encode(s), n) == Encode(s + Blanks(n - size));
      DecodeMeans(Field(Encode(s), n), s + Blanks(n - size));
    } else {
      DecodeCut(s, n);
    }
  }

  /** The stripped text a receiver gets is the text sent exactly when that is trimmed and fits; anything
      else it gets is shorter. */
  lemma ReceivedText(s: string, n: nat)
    ensures var r, whole := Decode(Field(Encode(s), n)), Trimmed(s) && |Encode(s)| <= n;
            && (whole ==> r.Some? && Strip(r.value) == s)
            && (!whole && r.Some? ==> |Strip(r.value)| < |s|)
  {
    DecodeField(s, n);
    StripShortens(s);
    hide Encode, Decode, Field, Strip;
    var r := Decode(Field(Encode(s), n));
    if |Encode(s)| <= n {
      StripPadded(s, n - |Encode(s)|);
    } else if r.Some? {
      StripShortens(r.value);
    }
  }

  // ---- ClientMetaMessage ----

  datatype ClientMeta = ClientMeta(command: Command, key: CacheKey.Key, length: int, fmt: Format,
                                   dtype: Option<DType>, shape: seq<int>, location: Option<string>)

  function SerializeClient(m: ClientMeta): Result<seq<Byte>>
    requires CacheKey.DTypeName(m.key.dtype).Some?
  {
    var keyStr := CacheKey.ToString(m.key);
    if |keyStr| > MAX_KEY_LENGTH || |m.shape| != 4 then Err(AssertionError)
    else if DTypeValue(m.dtype).Err? || LocationValue(m.location).Err? then Err(KeyError)
    else
      match Pack([CommandValue(m.command), m.length, FormatValue(m.fmt), DTypeValue(m.dtype).value,
                  LocationValue(m.location).value] + m.shape)
      case Err(e) => Err(e)
      case Ok(bytes) => Ok(bytes + Field(Encode(keyStr), MAX_KEY_LENGTH))
  }

  const CLIENT_LENGTH: nat := 4 * 9 + MAX_KEY_LENGTH

  function DeserializeClient(s: seq<Byte>): Result<ClientMeta>
  {
    if |s| != CLIENT_LENGTH then Err(StructError)
    else
      var f := Unpack(s, 9);
      match (ReadCommand(f[0]), Decode(s[36..]))
      case (Ok(command), Some(text)) =>
        (match CacheKey.Parse(Strip(text))
         case Err => Err(ValueError)
         case Ok(key) =>
           match (ReadFormat(f[2]), ReadDType(f[3]), ReadLocation(f[4]))
           case (Ok(fmt), Ok(dtype), Ok(location)) => Ok(ClientMeta(command, key, f[1], fmt, dtype, f[5..9], location))
           case (Err(e), _, _) => Err(e)
           case (_, Err(e), _) => Err(e)
           case (_, _, Err(e)) => Err(e))
      case (Err(e), _) => Err(e)
      case (_, None) => Err(UnicodeError)
  }

  ghost predicate SameClient(a: ClientMeta, b: ClientMeta)
  {
    && a == b.(key := a.key) && CacheKey.KeysEqual(a.key, b.key)
  }

  /** The text has at most 150 characters, the shape four entries, and the tables hold the rest. */
  predicate Encodable(m: ClientMeta, text: string)
  {
    |text| <= MAX_KEY_LENGTH && |m.shape| == 4 && DTypeValue(m.dtype).Ok? && LocationValue(m.location).Ok?
  }

  function ClientFields(m: ClientMeta): (f: seq<int>)
    requires |m.shape| == 4 && DTypeValue(m.dtype).Ok? && LocationValue(m.location).Ok?
    ensures |f| == 9 && f[5..9] == m.shape
  {
    [CommandValue(m.command), m.length, FormatValue(m.fmt), DTypeValue(m.dtype).value, LocationValue(m.location).value] + m.shape
  }

  lemma ClientWrites(m: ClientMeta, text: string)
    requires CacheKey.DTypeName(m.key.dtype).Some? && text == CacheKey.ToString(m.key)
    ensures SerializeClient(m).Ok? <==> Encodable(m, text) && Pack(ClientFields(m)).Ok?
    ensures SerializeClient(m).Ok? ==> SerializeClient(m).value == Pack(ClientFields(m)).value + Field(Encode(text), MAX_KEY_LENGTH)
  {
    hide CacheKey.ToString, Pack, Field, Encode, CommandValue, FormatValue, DTypeValue, LocationValue;
  }

  /** Reading depends on the received text only through the key it parses to. */
  lemma ClientReads(m: ClientMeta, bytes: seq<Byte>)
    requires |m.shape| == 4 && DTypeValue(m.dtype).Ok? && LocationValue(m.location).Ok?
    requires |bytes| == CLIENT_LENGTH && Unpack(bytes, 9) == ClientFields(m)
    ensures var r, text := DeserializeClient(bytes), Decode(bytes[36..]);
            if text.Some? && CacheKey.Parse(Strip(text.value)).Ok?
            then r == Ok(m.(key := CacheKey.Parse(Strip(text.value)).value)) else r.Err?
  {
    TablesReadBack(m.command, Success, m.fmt, m.dtype, m.location);
    hide CacheKey.Parse, Strip, Decode, Unpack, ReadCommand, CommandValue, ReadFormat, FormatValue, DTypeValue,
         ReadDType, LocationValue, ReadLocation;
  }

  /** The keys a message carries: those that read back from their text, when the text is trimmed and
      takes no more than 150 bytes. */
  predicate Carried(k: CacheKey.Key)
    requires CacheKey.DTypeName(k.dtype).Some?
  {
    && CacheKey.CleanKey(k) && (k.layer.Some? ==> k.layer.value >= 0)
    && Trimmed(CacheKey.ToString(k)) && |Encode(CacheKey.ToString(k))| <= MAX_KEY_LENGTH
  }

  /** The key read from the field is the key sent exactly when the key is one that is carried. */
  lemma CarriedIff(k: CacheKey.Key)
    requires CacheKey.Constructible(k)
    ensures var text := Decode(Field(Encode(CacheKey.ToString(k)), MAX_KEY_LENGTH));
            Carried(k) <==> text.Some? && CacheKey.Parse(Strip(text.value)).Ok?
                            && CacheKey.KeysEqual(CacheKey.Parse(Strip(text.value)).value, k)
  {
    var sent := CacheKey.ToString(k);
    ReceivedText(sent, MAX_KEY_LENGTH);
    CacheKey.ReadsBackIff(k);
    hide CacheKey.Parse, CacheKey.ToString, CacheKey.KeysEqual, CacheKey.CleanKey, Trimmed, Strip, Decode, Encode, Field;
    var text := Decode(Field(Encode(sent), MAX_KEY_LENGTH));
    if text.Some? && CacheKey.Parse(Strip(text.value)).Ok? && CacheKey.KeysEqual(CacheKey.Parse(Strip(text.value)).value, k) {
      CacheKeyText.OwnTextIsShortest(k, Strip(text.value));
    }
  }

  /** A client message can be written exactly when its fields fit.  It then takes 186 bytes and reads
      back as an equal message if and only if its key is one that is carried. */
  lemma ClientRoundTrip(m: ClientMeta)
    requires CacheKey.Constructible(m.key)
    ensures SerializeClient(m).Ok? <==>
              Encodable(m, CacheKey.ToString(m.key)) && Fits(m.length) && forall i :: 0 <= i < 4 ==> Fits(m.shape[i])
    ensures SerializeClient(m).Ok? ==>
              var bytes := SerializeClient(m).value;
              && |bytes| == CLIENT_LENGTH
              && (DeserializeClient(bytes).Ok? && SameClient(DeserializeClient(bytes).value, m) <==> Carried(m.key))
  {
    var text := CacheKey.ToString(m.key);
    ClientWrites(m, text);
    TablesReadBack(m.command, Success, m.fmt, m.dtype, m.location);
    if Encodable(m, text) {
      var fields, field := ClientFields(m), Field(Encode(text), MAX_KEY_LENGTH);
      UnpackPacked(fields, field);
      assert fields[5..] == m.shape;
      FieldsFit(fields, m.shape, 5);
      CarriedIff(m.key);
      hide CacheKey.Parse, CacheKey.ToString, CacheKey.KeysEqual, CacheKey.Constructible, SerializeClient, DeserializeClient,
           Pack, Unpack, Fits, Decode, Encode, Field, Strip, ClientFields, Carried;
      if Pack(fields).Ok? {
        var bytes := Pack(fields).value + field;
        assert bytes[36..] == field;
        ClientReads(m, bytes);
      }
    }
  }

  /** A key with nothing but a model name worth noting, and a message about it. */
  function Named(name: string): CacheKey.Key { CacheKey.Key(name, 1, 0, 0, CacheKey.Half, None, None) }

  function Ask(name: string): ClientMeta { ClientMeta(Exist, Named(name), 0, Undefined, None, [0, 0, 0, 0], None) }

  lemma NamedText(name: string)
    ensures CacheKey.ToString(Named(name)) == name + "@1@0@0@half"
  {
    assert Print(1, 10) == "1" && Print(0, 10) == "0" && Print(0, 16) == "0";
    var parts := CacheKey.Parts(Named(name));
    assert parts == [name, "1", "0", "0", "half"];
    assert parts[1..] == ["1", "0", "0", "half"] && parts[1..][1..] == ["0", "0", "half"];
    assert parts[1..][1..][1..] == ["0", "half"] && parts[1..][1..][1..][1..] == ["half"];
    assert CacheKey.Join(parts[1..][1..][1..], '@') == "0@half";
    assert CacheKey.Join(parts[1..][1..], '@') == "0@0@half";
    assert CacheKey.Join(parts[1..], '@') == "1@0@0@half";
  }

  lemma {:induction false} EncodeWide(n: nat)
    ensures |Encode(seq(n, _ => '\U{00e9}'))| == 2 * n
  {
    if n > 0 {
      assert seq(n, _ => '\U{00e9}')[1..] == seq(n - 1, _ => '\U{00e9}');
      EncodeWide(n - 1);
    }
  }

  lemma NotCarried(name: string)
    requires name == " m" || name == seq(100, _ => '\U{00e9}')
    ensures |CacheKey.ToString(Named(name))| <= MAX_KEY_LENGTH && !Carried(Named(name))
  {
    hide Encode, CacheKey.ToString, CacheKey.CleanKey;
    NamedText(name);
    var text := CacheKey.ToString(Named(name));
    if name == " m" {
      assert text[0] == ' ';
    } else {
      EncodeWide(100);
      EncodeConcat(name, "@1@0@0@half");
    }
  }

  /** Two requests that are sent and not read back: a model name that begins with a blank, and one of a
      hundred two-byte letters, whose text passes the length check in characters and is then cut. */
  lemma NotReadBack(name: string)
    requires name == " m" || name == seq(100, _ => '\U{00e9}')
    ensures SerializeClient(Ask(name)).Ok?
    ensures var r := DeserializeClient(SerializeClient(Ask(name)).value); r.Err? || !SameClient(r.value, Ask(name))
  {
    assert CacheKey.Constructible(Named(name));
    NotCarried(name);
    hide CacheKey.ToString, SerializeClient, DeserializeClient, CacheKey.Constructible, Carried;
    ClientRoundTrip(Ask(name));
  }

  lemma FieldsFit(fields: seq<int>, shape: seq<int>, at: nat)
    requires |fields| == 9 && |shape| == 4 && at <= 5 && fields[at..at + 4] == shape
    requires forall i :: 0 <= i < 9 && i != 1 && !(at <= i < at + 4) ==> Fits(fields[i])
    requires at > 1
    ensures AllFit(fields) <==> Fits(fields[1]) && forall i :: 0 <= i < 4 ==> Fits(shape[i])
  {
    assert forall i :: 0 <= i < 4 ==> shape[i] == fields[i + at];
    assert forall i :: at <= i < at + 4 ==> fields[i] == shape[i - at];
  }

  // ---- ServerMetaMessage ----

  datatype ServerMeta = ServerMeta(code: ReturnCode, length: int, fmt: Format, dtype: Option<DType>, shape: seq<int>, location: Option<string>)

  function SerializeServer(m: ServerMeta): Result<seq<Byte>>
  {
    if |m.shape| != 4 then Err(AssertionError)
    else if DTypeValue(m.dtype).Err? || LocationValue(m.location).Err? then Err(KeyError)
    else Pack([CodeValue(m.code), m.length, FormatValue(m.fmt), DTypeValue(m.dtype).value] + m.shape + [LocationValue(m.location).value])
  }

  function DeserializeServer(s: seq<Byte>): Result<ServerMeta>
  {
    if |s| != 36 then Err(StructError)
    else
      var f := Unpack(s, 9);
      match (ReadCode(f[0]), ReadFormat(f[2]), ReadDType(f[3]), ReadLocation(f[8]))
      case (Ok(code), Ok(fmt), Ok(dtype), Ok(location)) => Ok(ServerMeta(code, f[1], fmt, dtype, f[4..8], location))
      case (Err(e), _, _, _) => Err(e)
      case (_, Err(e), _, _) => Err(e)
      case (_, _, Err(e), _) => Err(e)
      case (_, _, _, Err(e)) => Err(e)
  }

  function ServerFields(m: ServerMeta): (f: seq<int>)
    requires |m.shape| == 4 && DTypeValue(m.dtype).Ok? && LocationValue(m.location).Ok?
    ensures |f| == 9 && f[4..8] == m.shape
  {
    [CodeValue(m.code), m.length, FormatValue(m.fmt), DTypeValue(m.dtype).value] + m.shape + [LocationValue(m.location).value]
  }

  /** A reply can be written exactly when its shape has four entries, the tables hold its dtype and
      location and its numbers fit, and then it reads back as itself. */
  lemma ServerRoundTrip(m: ServerMeta)
    ensures SerializeServer(m).Ok? <==>
              && |m.shape| == 4 && DTypeValue(m.dtype).Ok? && LocationValue(m.location).Ok?
              && Fits(m.length) && forall i :: 0 <= i < 4 ==> Fits(m.shape[i])
    ensures SerializeServer(m).Ok? ==>
              |SerializeServer(m).value| == 36 && DeserializeServer(SerializeServer(m).value) == Ok(m)
  {
    TablesReadBack(Put, m.code, m.fmt, m.dtype, m.location);
    if |m.shape| == 4 && DTypeValue(m.dtype).Ok? && LocationValue(m.location).Ok? {
      var fields := ServerFields(m);
      UnpackPacked(fields, []);
      FieldsFit(fields, m.shape, 4);
      hide Pack, Unpack, Fits;
      if Pack(fields).Ok? { assert Pack(fields).value + [] == Pack(fields).value; }
    }
  }

  // ---- RemoteMetadata: any number of (dtype, shape) groups ----

  datatype Group = Group(dtype: Option<DType>, shape: seq<int>)
  datatype RemoteMeta = RemoteMeta(length: int, groups: seq<Group>, fmt: Format)

  function GroupParams(groups: seq<Group>): Result<seq<int>>
  {
    if groups == [] then Ok([])
    else
      match GroupParams(groups[..|groups| - 1])
      case Err(e) => Err(e)
      case Ok(params) =>
        var g := groups[|groups| - 1];
        if |g.shape| != 4 then Err(AssertionError)
        else match DTypeValue(g.dtype) case Err(e) => Err(e) case Ok(v) => Ok(params + [v] + g.shape)
  }

  method PrepareParams(m: RemoteMeta) returns (r: Result<seq<int>>)
    ensures r == match GroupParams(m.groups) case Err(e) => Err(e) case Ok(ps) => Ok([m.length, FormatValue(m.fmt)] + ps)
  {
    var params := [m.length, FormatValue(m.fmt)];
    for i := 0 to |m.groups|
      invariant GroupParams(m.groups[..i]).Ok? && params == [m.length, FormatValue(m.fmt)] + GroupParams(m.groups[..i]).value
    {
      assert m.groups[..i + 1][..i] == m.groups[..i];
      var g := m.groups[i];
      if |g.shape| != 4 {
        GroupParamsFails(m.groups, i);
        return Err(AssertionError);
      }
      var v := DTypeValue(g.dtype);
      if v.Err? {
        GroupParamsFails(m.groups, i);
        return Err(v.error);
      }
      params := params + [v.value] + g.shape;
    }
    assert m.groups[..|m.groups|] == m.groups;
    return Ok(params);
  }

  lemma {:induction false} GroupParamsFails(groups: seq<Group>, i: nat)
    requires i < |groups| && GroupParams(groups[..i + 1]).Err?
    ensures GroupParams(groups) == GroupParams(groups[..i + 1])
  {
    if i + 1 < |groups| {
      assert groups[..|groups| - 1][..i + 1] == groups[..i + 1];
      GroupParamsFails(groups[..|groups| - 1], i);
    } else {
      assert groups[..i + 1] == groups;
    }
  }

  /** struct.pack with a format for numGroups groups: the parameter count must match. */
  function SerializeRemote(m: RemoteMeta, numGroups: nat): Result<seq<Byte>>
  {
    match GroupParams(m.groups)
    case Err(e) => Err(e)
    case Ok(ps) => if 2 + |ps| != 2 + 5 * numGroups then Err(StructError) else Pack([m.length, FormatValue(m.fmt)] + ps)
  }

  function ReadGroups(f: seq<int>, n: nat): Result<seq<Group>>
    requires |f| >= 2 + 5 * n
  {
    if n == 0 then Ok([])
    else
      match ReadGroups(f, n - 1)
      case Err(e) => Err(e)
      case Ok(groups) =>
        var i := 2 + 5 * (n - 1);
        match ReadDType(f[i]) case Err(e) => Err(e) case Ok(d) => Ok(groups + [Group(d, f[i + 1..i + 5])])
  }

  /** unpack_from reads the leading bytes of a buffer that may be longer. */
  function DeserializeRemote(s: seq<Byte>, numGroups: nat): Result<RemoteMeta>
  {
    if |s| < 4 * (2 + 5 * numGroups) then Err(StructError)
    else
      var f := Unpack(s, 2 + 5 * numGroups);
      match (ReadFormat(f[1]), ReadGroups(f, numGroups))
      case (Ok(fmt), Ok(groups)) => Ok(RemoteMeta(f[0], groups, fmt))
      case (Err(e), _) => Err(e)
      case (_, Err(e)) => Err(e)
  }

  lemma {:induction false} ReadGroupsBack(groups: seq<Group>, a: int, b: int, rest: seq<int>)
    requires GroupParams(groups).Ok?
    ensures |GroupParams(groups).value| == 5 * |groups|
    ensures ReadGroups([a, b] + GroupParams(groups).value + rest, |groups|) == Ok(groups)
  {
    if groups != [] {
      var n := |groups| - 1;
      var g := groups[n];
      var front := GroupParams(groups[..n]).value;
      var last := [DTypeValue(g.dtype).value] + g.shape;
      ReadGroupsBack(groups[..n], a, b, last + rest);
      TablesReadBack(Put, Success, Undefined, g.dtype, None);
      var f := [a, b] + GroupParams(groups).value + rest;
      assert f == [a, b] + front + (last + rest);
      assert f[2 + 5 * n] == DTypeValue(g.dtype).value && f[2 + 5 * n + 1..2 + 5 * n + 5] == g.shape;
      assert groups == groups[..n] + [g];
    }
  }

  /** A group that can be written: a shape of four numbers that fit, and a dtype of the table. */
  predicate GroupFits(g: Group)
  {
    |g.shape| == 4 && DTypeValue(g.dtype).Ok? && forall i :: 0 <= i < 4 ==> Fits(g.shape[i])
  }

  lemma {:induction false} ParamsFit(groups: seq<Group>)
    ensures (GroupParams(groups).Ok? && AllFit(GroupParams(groups).value))
        <==> forall k :: 0 <= k < |groups| ==> GroupFits(groups[k])
  {
    hide DTypeValue, Fits, GroupFits;
    if groups != [] {
      var n := |groups| - 1;
      ParamsFit(groups[..n]);
      assert forall k :: 0 <= k < n ==> groups[..n][k] == groups[k];
      LastGroupFits(groups);
    }
  }

  lemma LastGroupFits(groups: seq<Group>)
    requires groups != []
    ensures (GroupParams(groups).Ok? && AllFit(GroupParams(groups).value)) <==>
            var front := GroupParams(groups[..|groups| - 1]);
            front.Ok? && AllFit(front.value) && GroupFits(groups[|groups| - 1])
  {
    var g, front := groups[|groups| - 1], GroupParams(groups[..|groups| - 1]);
    TablesReadBack(Put, Success, Undefined, g.dtype, None);
    hide DTypeValue, Fits;
    if front.Ok? && |g.shape| == 4 && DTypeValue(g.dtype).Ok? {
      AllFitConcat(front.value + [DTypeValue(g.dtype).value], g.shape);
      AllFitConcat(front.value, [DTypeValue(g.dtype).value]);
    }
  }

  lemma AllFitConcat(a: seq<int>, b: seq<int>)
    ensures AllFit(a + b) <==> AllFit(a) && AllFit(b)
  {
    forall i | 0 <= i < |b| && AllFit(a + b) ensures Fits(b[i]) { assert (a + b)[|a| + i] == b[i]; }
    forall i | 0 <= i < |a| && AllFit(a + b) ensures Fits(a[i]) { assert (a + b)[i] == a[i]; }
  }

  function RemoteFields(m: RemoteMeta): (f: seq<int>)
    requires GroupParams(m.groups).Ok?
  {
    [m.length, FormatValue(m.fmt)] + GroupParams(m.groups).value
  }

  lemma RemoteWrites(m: RemoteMeta, numGroups: nat)
    ensures SerializeRemote(m, numGroups).Ok? <==>
              && |m.groups| == numGroups && GroupParams(m.groups).Ok? && Fits(m.length) && AllFit(GroupParams(m.groups).value)
    ensures SerializeRemote(m, numGroups).Ok? ==>
              && |RemoteFields(m)| == 2 + 5 * numGroups && Pack(RemoteFields(m)) == SerializeRemote(m, numGroups)
  {
    hide GroupParams, ReadGroups, Pack, Fits, FormatValue, Unpack;
    if GroupParams(m.groups).Ok? {
      ReadGroupsBack(m.groups, m.length, FormatValue(m.fmt), []);
      TablesReadBack(Put, Success, m.fmt, None, None);
      UnpackPacked(RemoteFields(m), []);
      HeadFits(m.length, FormatValue(m.fmt), GroupParams(m.groups).value);
    }
  }

  lemma HeadFits(length: int, fmt: int, params: seq<int>)
    requires Fits(fmt)
    ensures AllFit([length, fmt] + params) <==> Fits(length) && AllFit(params)
  {
    hide Fits;
    AllFitConcat([length, fmt], params);
    assert AllFit([length, fmt]) <==> Fits([length, fmt][0]) && Fits([length, fmt][1]);
  }

  /** Metadata can be written exactly when it has as many groups as were announced, each fits and so does
      the length; then it reads back as itself, also from the front of a longer buffer. */
  lemma RemoteRoundTrip(m: RemoteMeta, numGroups: nat, tail: seq<Byte>)
    ensures SerializeRemote(m, numGroups).Ok? <==>
              |m.groups| == numGroups && Fits(m.length) && forall k :: 0 <= k < |m.groups| ==> GroupFits(m.groups[k])
    ensures SerializeRemote(m, numGroups).Ok? ==>
              && |SerializeRemote(m, numGroups).value| == 4 * (2 + 5 * numGroups)
              && DeserializeRemote(SerializeRemote(m, numGroups).value + tail, numGroups) == Ok(m)
  {
    hide SerializeRemote, GroupParams, ReadGroups, Pack, Fits, FormatValue, ReadFormat, Unpack, GroupFits, AllFit;
    ParamsFit(m.groups);
    RemoteWrites(m, numGroups);
    if SerializeRemote(m, numGroups).Ok? {
      UnpackPacked(RemoteFields(m), tail);
      TablesReadBack(Put, Success, m.fmt, None, None);
      ReadGroupsBack(m.groups, m.length, FormatValue(m.fmt), []);
      assert RemoteFields(m) + [] == RemoteFields(m);
    }
  }
}
