/** str.encode() and bytes.decode(): UTF-8, strict. */
module Utf8 {
  import opened Basics

  type Byte = x: int | 0 <= x < 256

  /** The lead byte carries the first bits, and each further byte six. */
  function EncodeChar(c: char): (b: seq<Byte>)
    ensures 1 <= |b| <= 4
  {
    var u := c as int;
    if u < 0x80 then [u]
    else if u < 0x800 then [0xc0 + u / 64, 0x80 + u % 64]
    else if u < 0x10000 then [0xe0 + u / 64 / 64, 0x80 + u / 64 % 64, 0x80 + u % 64]
    else [0xf0 + u / 64 / 64 / 64, 0x80 + u / 64 / 64 % 64, 0x80 + u / 64 % 64, 0x80 + u % 64]
  }

  function Encode(s: string): seq<Byte>
  {
    if s == "" then [] else EncodeChar(s[0]) + Encode(s[1..])
  }

  predicate Scalar(u: int) { 0 <= u < 0xd800 || 0xe000 <= u < 0x110000 }

  /** A byte that continues a character, and the bits so far with its six appended. */
  predicate Continues(b: int) { 0x80 <= b < 0xc0 }

  function More(u: int, b: int): int { u * 64 + (b - 0x80) }

  /** The code point at the front and its width; overlong forms, surrogates and values past the last
      code point are refused. */
  function DecodeFirst(b: seq<Byte>): (r: Option<(char, nat)>)
    requires b != []
    ensures r.Some? ==> 1 <= r.value.1 <= |b|
  {
    var u := b[0] as int;
    if u < 0x80 then Some((u as char, 1))
    else if 0xc2 <= u < 0xe0 && |b| > 1 && Continues(b[1]) then
      Some((More(u - 0xc0, b[1]) as char, 2))
    else if 0xe0 <= u < 0xf0 && |b| > 2 && Continues(b[1]) && Continues(b[2]) then
      var v := More(More(u - 0xe0, b[1]), b[2]);
      if v >= 0x800 && Scalar(v) then Some((v as char, 3)) else None
    else if 0xf0 <= u < 0xf5 && |b| > 3 && Continues(b[1]) && Continues(b[2]) && Continues(b[3]) then
      var v := More(More(More(u - 0xf0, b[1]), b[2]), b[3]);
      if v >= 0x10000 && Scalar(v) then Some((v as char, 4)) else None
    else None
  }

  function Decode(b: seq<Byte>): Option<string>
  {
    if b == [] then Some("")
    else
      match DecodeFirst(b)
      case None => None
      case Some((c, n)) => match Decode(b[n..]) case None => None case Some(s) => Some([c] + s)
  }

  // ---- one character ----

  lemma FirstEncoded(c: char, rest: seq<Byte>)
    ensures DecodeFirst(EncodeChar(c) + rest) == Some((c, |EncodeChar(c)|))
  {
    var u, b := c as int, EncodeChar(c) + rest;
    Sextet(u);
    Sextet(u / 64);
    Sextet(u / 64 / 64);
    assert forall i :: 0 <= i < |EncodeChar(c)| ==> b[i] == EncodeChar(c)[i];
  }

  lemma Sextet(u: nat)
    ensures More(u / 64, 0x80 + u % 64) == u && Continues(0x80 + u % 64)
  {}

  lemma MoreSplits(u: int, b: int)
    requires Continues(b)
    ensures More(u, b) / 64 == u && 0x80 + More(u, b) % 64 == b
  {}

  /** A character cut short is refused. */
  lemma FirstCut(c: char, n: nat)
    requires 0 < n < |EncodeChar(c)|
    ensures DecodeFirst(EncodeChar(c)[..n]) == None
  {
    var b := EncodeChar(c)[..n];
    assert b[0] == EncodeChar(c)[0];
  }

  /** What is read at the front is the encoding of the character read. */
  lemma FirstMeans(b: seq<Byte>)
    requires b != [] && DecodeFirst(b).Some?
    ensures var (c, n) := DecodeFirst(b).value; b[..n] == EncodeChar(c)
  {
    var u, n := b[0] as int, DecodeFirst(b).value.1;
    if n == 2 {
      MoreSplits(u - 0xc0, b[1]);
    } else if n == 3 {
      MoreSplits(u - 0xe0, b[1]);
      MoreSplits(More(u - 0xe0, b[1]), b[2]);
    } else if n == 4 {
      MoreSplits(u - 0xf0, b[1]);
      MoreSplits(More(u - 0xf0, b[1]), b[2]);
      MoreSplits(More(More(u - 0xf0, b[1]), b[2]), b[3]);
    }
    hide More;
  }

  // ---- whole texts ----

  /** Decoding accepts the encodings, each as its own text, and nothing else. */
  lemma {:induction false} DecodeMeans(b: seq<Byte>, s: string)
    ensures Decode(b) == Some(s) <==> b == Encode(s)
    decreases |b| + |s|
  {
    hide EncodeChar, DecodeFirst;
    if s != "" {
      FirstEncoded(s[0], Encode(s[1..]));
      assert s == [s[0]] + s[1..];
    }
    if b != [] && DecodeFirst(b).Some? {
      var (c, n) := DecodeFirst(b).value;
      FirstMeans(b);
      assert b == b[..n] + b[n..];
      if s != "" && s[0] == c {
        DecodeMeans(b[n..], s[1..]);
        assert Encode(s)[n..] == Encode(s[1..]);
      }
    }
  }

  lemma {:induction false} EncodeConcat(s: string, t: string)
    ensures Encode(s + t) == Encode(s) + Encode(t)
  {
    hide EncodeChar;
    if s == "" {
      assert s + t == t;
    } else {
      assert (s + t)[1..] == s[1..] + t;
      EncodeConcat(s[1..], t);
    }
  }

  /** An encoding that is cut short decodes, if at all, to a shorter beginning of the text. */
  lemma {:induction false} DecodeCut(s: string, n: nat)
    requires n < |Encode(s)|
    ensures var r := Decode(Encode(s)[..n]); r.Some? ==> r.value <= s && r.value != s
  {
    hide EncodeChar, DecodeFirst;
    var w := |EncodeChar(s[0])|;
    var b := Encode(s)[..n];
    if 0 < n < w {
      assert b == EncodeChar(s[0])[..n];
      FirstCut(s[0], n);
    } else if n >= w {
      var rest := Encode(s[1..])[..n - w];
      assert b == EncodeChar(s[0]) + rest && b[w..] == rest;
      FirstEncoded(s[0], rest);
      DecodeCut(s[1..], n - w);
    }
  }

  /** The encodings by their bits, as in section 3 of RFC 3629: the lead byte tells the length, further bytes
      begin with 10, the other bits are the code point's, and no shorter form would hold it. */
  predicate FormOf(b: seq<int>, u: int)
  {
    && (|b| == 1 <==> u < 0x80) && (|b| == 2 <==> 0x80 <= u < 0x800) && (|b| == 3 <==> 0x800 <= u < 0x10000)
    && (|b| == 4 <==> u >= 0x10000)
    && (forall i :: 1 <= i < |b| ==> b[i] / 64 == 2)
    && (|b| == 1 ==> b[0] == u)
    && (|b| == 2 ==> b[0] / 32 == 6 && u == b[0] % 32 * 64 + b[1] % 64)
    && (|b| == 3 ==> b[0] / 16 == 14 && u == (b[0] % 16 * 64 + b[1] % 64) * 64 + b[2] % 64)
    && (|b| == 4 ==> b[0] / 8 == 30 && u == ((b[0] % 8 * 64 + b[1] % 64) * 64 + b[2] % 64) * 64 + b[3] % 64)
  }

  lemma EncodeCharMeans(c: char)
    ensures FormOf(EncodeChar(c), c as int) && Encode([c]) == EncodeChar(c)
  {
    assert [c][1..] == "" && EncodeChar(c) + [] == EncodeChar(c);
  }
}
