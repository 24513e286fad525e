/** Printing integers and reading them back the way Python's str, format and int do, on ASCII digits. */
module Numerals {
  import opened Basics

  /** str.isspace of one character. */
  predicate IsSpace(c: char)
  {
    var i := c as int;
    9 <= i <= 13 || 0x1c <= i <= 0x20 || i == 0x85 || i == 0xa0 || i == 0x1680 || 0x2000 <= i <= 0x200a
    || i == 0x2028 || i == 0x2029 || i == 0x202f || i == 0x205f || i == 0x3000
  }

  function StripLeft(s: string): string
  {
    if s != "" && IsSpace(s[0]) then StripLeft(s[1..]) else s
  }

  function StripRight(s: string): string
  {
    if s != "" && IsSpace(s[|s| - 1]) then StripRight(s[..|s| - 1]) else s
  }

  function Strip(s: string): string { StripRight(StripLeft(s)) }

  /** The value of a digit in bases up to 16, or 99 for any other character. */
  function DigitValue(c: char): nat
  {
    if '0' <= c <= '9' then c as int - '0' as int
    else if 'a' <= c <= 'f' then c as int - 'a' as int + 10
    else if 'A' <= c <= 'F' then c as int - 'A' as int + 10
    else 99
  }

  function DigitChar(d: nat): (c: char)
    requires d < 16
    ensures DigitValue(c) == d && c != '_' && !IsSpace(c) && c != '-' && c != '+' && c != 'x' && c != 'X'
    ensures c != '@' && c != '%' && c != ',' && c != '[' && c != ']'
    ensures d < 10 ==> '0' <= c <= '9'
  {
    if d < 10 then ('0' as int + d) as char else ('a' as int + d - 10) as char
  }

  function Digits(n: nat, base: nat): string
    requires 2 <= base <= 16
  {
    if n < base then [DigitChar(n)] else Digits(n / base, base) + [DigitChar(n % base)]
  }

  /** str(i) for base 10, format(i, "x") for base 16. */
  function Print(i: int, base: nat): string
    requires 2 <= base <= 16
  {
    if i < 0 then "-" + Digits(-i, base) else Digits(i, base)
  }

  /** One or more digits of the base, with single underscores allowed between digits. */
  function ParseNat(s: string, base: nat): Option<nat>
    decreases |s|
  {
    if s == "" then None
    else
      var d := DigitValue(s[|s| - 1]);
      if d >= base then None
      else if |s| == 1 then Some(d)
      else
        var front := s[..|s| - 1];
        var rest := if front[|front| - 1] == '_' then front[..|front| - 1] else front;
        match ParseNat(rest, base)
        case None => None
        case Some(v) => Some(v * base + d)
  }

  /** For base 16 an optional 0x, and one underscore behind it. */
  function SkipPrefix(s: string, base: nat): string
  {
    if base == 16 && |s| >= 2 && s[0] == '0' && (s[1] == 'x' || s[1] == 'X')
    then if |s| >= 3 && s[2] == '_' then s[3..] else s[2..]
    else s
  }

  /** int(s, base); None is ValueError. */
  function ParseInt(text: string, base: nat): Option<int>
  {
    var s := Strip(text);
    if s != "" && (s[0] == '-' || s[0] == '+') then
      match ParseNat(SkipPrefix(s[1..], base), base)
      case None => None
      case Some(v) => var i: int := v; Some(if s[0] == '-' then -i else i)
    else
      match ParseNat(SkipPrefix(s, base), base)
      case None => None
      case Some(v) => Some(v)
  }

  /** str.isdigit on ASCII. */
  predicate IsDigits(s: string)
  {
    s != "" && forall i :: 0 <= i < |s| ==> '0' <= s[i] <= '9'
  }

  /** A character that printed numbers consist of. */
  predicate NumberChar(c: char)
  {
    c == '-' || DigitValue(c) < 16
  }

  predicate Sign(c: char) { c == '_' || c == '-' || c == '+' }

  predicate Trimmed(s: string)
  {
    s == "" || (!IsSpace(s[0]) && !IsSpace(s[|s| - 1]))
  }

  lemma StripTrimmed(s: string)
    requires Trimmed(s)
    ensures Strip(s) == s
  {}

  lemma {:induction false} DigitsChars(n: nat, base: nat)
    requires 2 <= base <= 16
    ensures Digits(n, base) != ""
    ensures forall i :: 0 <= i < |Digits(n, base)| ==> DigitValue(Digits(n, base)[i]) < base && !Sign(Digits(n, base)[i])
    ensures base == 10 ==> IsDigits(Digits(n, base))
    decreases n
  {
    if n >= base {
      DivMod(n, base);
      DigitsChars(n / base, base);
    }
  }

  lemma ParseAppend(front: string, v: nat, d: nat, base: nat)
    requires 2 <= base <= 16 && d < base && front != "" && front[|front| - 1] != '_' && ParseNat(front, base) == Some(v)
    ensures ParseNat(front + [DigitChar(d)], base) == Some(v * base + d)
  {
    assert (front + [DigitChar(d)])[..|front|] == front;
  }

  /** Digits read back. */
  lemma {:induction false} ParseDigits(n: nat, base: nat)
    requires 2 <= base <= 16
    ensures ParseNat(Digits(n, base), base) == Some(n)
    decreases n
  {
    if n >= base {
      DivMod(n, base);
      ParseDigits(n / base, base);
      DigitsChars(n / base, base);
      ParseLast(n, n / base, n % base, base);
    }
  }

  lemma DivMod(n: nat, base: nat)
    requires 2 <= base <= n
    ensures n / base < n && n % base < base && n == (n / base) * base + n % base
  {}

  lemma ParseLast(n: nat, q: nat, d: nat, base: nat)
    requires 2 <= base <= 16 && d < base && n == q * base + d
    requires Digits(q, base) != "" && !Sign(Digits(q, base)[|Digits(q, base)| - 1])
    requires ParseNat(Digits(q, base), base) == Some(q)
    ensures ParseNat(Digits(q, base) + [DigitChar(d)], base) == Some(n)
  {
    ParseAppend(Digits(q, base), q, d, base);
  }

  /** A printed integer consists of digits and at most a leading minus sign. */
  lemma PrintChars(i: int, base: nat)
    requires base == 10 || base == 16
    ensures Print(i, base) != "" && Trimmed(Print(i, base))
    ensures forall k :: 0 <= k < |Print(i, base)| ==> NumberChar(Print(i, base)[k])
    ensures i >= 0 && base == 10 ==> IsDigits(Print(i, base))
  {
    DigitsChars(if i < 0 then -i else i, base);
  }

  /** int(str(i)) == i and int(format(i, "x"), 16) == i, for every integer. */
  lemma ParsePrinted(i: int, base: nat)
    requires base == 10 || base == 16
    ensures ParseInt(Print(i, base), base) == Some(i)
  {
    var n := if i < 0 then -i else i;
    DigitsChars(n, base);
    ParseDigits(n, base);
    PrintChars(i, base);
    StripTrimmed(Print(i, base));
    NoPrefix(Digits(n, base), base);
    if i < 0 { assert Print(i, base)[1..] == Digits(n, base); }
  }

  lemma NoPrefix(s: string, base: nat)
    requires forall i :: 0 <= i < |s| ==> DigitValue(s[i]) < 16
    ensures SkipPrefix(s, base) == s
  {
    assert |s| >= 2 ==> DigitValue(s[1]) < 16;
  }

  /** Text with a character that is neither a digit, a sign nor an underscore is no integer. */
  lemma {:induction false} ParseNatRejects(s: string, base: nat, k: nat)
    requires k < |s| && DigitValue(s[k]) >= base && s[k] != '_'
    ensures ParseNat(s, base) == None
    decreases |s|
  {
    if k < |s| - 1 && |s| > 1 {
      var front := s[..|s| - 1];
      var rest := if front[|front| - 1] == '_' then front[..|front| - 1] else front;
      assert rest[k] == s[k];
      ParseNatRejects(rest, base, k);
    }
  }

  // ---- what the texts mean ----

  const DIGITS: string := "0123456789abcdef"
  const CAPITALS: string := "0123456789ABCDEF"

  /** The digits are 0 to 9 and then letters, small when printed and either way when read. */
  lemma DigitIs(d: nat, c: char)
    requires d < 16
    ensures DigitChar(d) == DIGITS[d]
    ensures DigitValue(c) == d <==> c == DIGITS[d] || c == CAPITALS[d]
  {
    assert DIGITS[0] == '0' && DIGITS[1] == '1' && DIGITS[2] == '2' && DIGITS[3] == '3' && DIGITS[4] == '4';
    assert DIGITS[5] == '5' && DIGITS[6] == '6' && DIGITS[7] == '7' && DIGITS[8] == '8' && DIGITS[9] == '9';
    assert DIGITS[10] == 'a' && DIGITS[11] == 'b' && DIGITS[12] == 'c' && DIGITS[13] == 'd' && DIGITS[14] == 'e' && DIGITS[15] == 'f';
  }

  predicate IsDigit(c: char, base: nat) { DigitValue(c) < base }

  /** Digits, and underscores that stand singly between digits. */
  predicate Spelled(s: string, base: nat)
  {
    && s != "" && IsDigit(s[0], base)
    && forall i: nat :: i < |s| ==> Stands(s, base, i)
  }

  predicate Stands(s: string, base: nat, i: nat)
    requires i < |s|
  {
    IsDigit(s[i], base) || (s[i] == '_' && i + 1 < |s| && IsDigit(s[i + 1], base))
  }

  /** The value of the digits, the most significant first, whatever else stands between them. */
  function Value(s: string, base: nat): nat
  {
    if s == "" then 0
    else
      var front, last := Value(s[..|s| - 1], base), s[|s| - 1];
      if IsDigit(last, base) then front * base + DigitValue(last) else front
  }

  lemma {:induction false} ValueOf(front: string, last: char, base: nat)
    ensures Value(front + [last], base) == if IsDigit(last, base) then Value(front, base) * base + DigitValue(last) else Value(front, base)
  {
    assert (front + [last])[..|front|] == front;
  }

  /** Digits without a leading zero. */
  predicate Proper(s: string, base: nat)
  {
    s != "" && (forall i :: 0 <= i < |s| ==> IsDigit(s[i], base) && s[i] in DIGITS) && (s[0] == '0' ==> |s| == 1)
  }

  /** A number prints as digits, with no leading zero, that have its value. */
  lemma {:induction false} DigitsMean(n: nat, base: nat)
    requires 2 <= base <= 16
    ensures Proper(Digits(n, base), base) && Value(Digits(n, base), base) == n
    ensures Digits(n, base)[0] == '0' ==> n == 0
    decreases n
  {
    if n < base {
      OneDigit(n, base);
    } else {
      DivMod(n, base);
      DigitsMean(n / base, base);
      assert Digits(n, base) == Digits(n / base, base) + [DigitChar(n % base)];
      hide *;
      OneMoreDigit(Digits(n / base, base), n / base, n % base, base);
    }
  }

  lemma OneDigit(n: nat, base: nat)
    requires n < base <= 16
    ensures var s := [DigitChar(n)]; Proper(s, base) && Value(s, base) == n && (s[0] == '0' ==> n == 0)
  {
    DigitIsOne(n, base);
    ValueOf("", DigitChar(n), base);
    assert "" + [DigitChar(n)] == [DigitChar(n)];
    hide IsDigit, DIGITS, DigitChar, DigitValue;
  }

  lemma OneMoreDigit(front: string, q: nat, d: nat, base: nat)
    requires d < base <= 16 && Proper(front, base) && Value(front, base) == q && front[0] != '0'
    ensures var s := front + [DigitChar(d)]; Proper(s, base) && Value(s, base) == q * base + d && s[0] == front[0]
  {
    DigitIsOne(d, base);
    ValueOf(front, DigitChar(d), base);
    hide Value, IsDigit, DIGITS, DigitChar;
  }

  lemma DigitIsOne(d: nat, base: nat)
    requires d < base <= 16
    ensures IsDigit(DigitChar(d), base) && DigitValue(DigitChar(d)) == d && DigitChar(d) in DIGITS && (DigitChar(d) == '0' <==> d == 0)
  {
    DigitIs(d, DigitChar(d));
    assert DigitChar(d) == DIGITS[d];
  }

  /** A text of digits reads as its value, and nothing else is read. */
  lemma {:induction false} ParseNatMeans(s: string, base: nat)
    requires 2 <= base <= 16
    ensures ParseNat(s, base) == if Spelled(s, base) then Some(Value(s, base)) else None
    decreases |s|
  {
    if s != "" && !IsDigit(s[|s| - 1], base) {
      assert !Stands(s, base, |s| - 1);
    } else if |s| > 1 {
      ParseNatStep(s, base);
      SpelledFront(s, base);
      ValueFront(s, base);
      hide ParseNat, Value, Spelled;
      ParseNatMeans(Rest(s), base);
    } else if |s| == 1 {
      assert s == [s[0]] == "" + [s[0]];
      ValueOf("", s[0], base);
    }
  }

  lemma ParseNatStep(s: string, base: nat)
    requires |s| > 1 && IsDigit(s[|s| - 1], base)
    ensures ParseNat(s, base) ==
            match ParseNat(Rest(s), base) case None => None case Some(v) => Some(v * base + DigitValue(s[|s| - 1]))
  {
    assert s[..|s| - 1][..|s| - 2] == s[..|s| - 2];
  }

  /** The text before the last digit, and before an underscore there. */
  function Rest(s: string): string
    requires |s| > 1
  {
    if s[|s| - 2] == '_' then s[..|s| - 2] else s[..|s| - 1]
  }

  lemma SpelledFront(s: string, base: nat)
    requires |s| > 1 && IsDigit(s[|s| - 1], base) && 2 <= base <= 16
    ensures Spelled(s, base) <==> Spelled(Rest(s), base)
  {
    var rest, n := Rest(s), |Rest(s)|;
    assert !IsDigit('_', base);
    if Spelled(s, base) {
      forall i: nat | i < n ensures Stands(rest, base, i) {
        assert Stands(s, base, i) && rest[i] == s[i] && (i + 1 < n ==> rest[i + 1] == s[i + 1]);
      }
    }
    if Spelled(rest, base) {
      forall i: nat | i < |s| ensures Stands(s, base, i) {
        if i < n { assert Stands(rest, base, i) && rest[i] == s[i] && (i + 1 < n ==> rest[i + 1] == s[i + 1]); }
      }
    }
  }

  lemma ValueFront(s: string, base: nat)
    requires |s| > 1 && IsDigit(s[|s| - 1], base) && 2 <= base <= 16
    ensures Value(s, base) == Value(Rest(s), base) * base + DigitValue(s[|s| - 1])
  {
    var n := |s| - 1;
    assert s == s[..n] + [s[n]];
    ValueOf(s[..n], s[n], base);
    if s[n - 1] == '_' {
      assert s[..n] == s[..n - 1] + ['_'];
      ValueOf(s[..n - 1], '_', base);
    }
  }

  /** Stripping takes blanks off both ends, and all of them. */
  lemma StripMeans(s: string) returns (a: string, b: string)
    ensures s == a + Strip(s) + b && Trimmed(Strip(s))
    ensures forall c :: c in a + b ==> IsSpace(c)
  {
    a := LeftBlanks(s);
    b := RightBlanks(StripLeft(s));
    hide IsSpace;
  }

  lemma {:induction false} LeftBlanks(s: string) returns (a: string)
    ensures s == a + StripLeft(s) && (forall c :: c in a ==> IsSpace(c)) && (StripLeft(s) != "" ==> !IsSpace(StripLeft(s)[0]))
  {
    hide IsSpace;
    a := "";
    if s != "" && IsSpace(s[0]) {
      var rest := LeftBlanks(s[1..]);
      a := [s[0]] + rest;
    }
  }

  lemma {:induction false} RightBlanks(s: string) returns (b: string)
    ensures s == StripRight(s) + b && (forall c :: c in b ==> IsSpace(c))
    ensures StripRight(s) != "" ==> !IsSpace(StripRight(s)[|StripRight(s)| - 1]) && StripRight(s)[0] == s[0]
  {
    hide IsSpace;
    b := "";
    if s != "" && IsSpace(s[|s| - 1]) {
      var rest := RightBlanks(s[..|s| - 1]);
      b := rest + [s[|s| - 1]];
    }
  }

  /** An integer text: blanks around an optional sign, for base 16 an optional 0x with an underscore
      behind it allowed, and digits. */
  lemma ParseIntMeans(text: string, base: nat, v: int)
    requires base == 10 || base == 16
    ensures ParseInt(text, base) == Some(v) <==>
            exists sign, mark, body :: Reads(Strip(text), base, sign, mark, body) && v == Signed(sign, Value(body, base))
  {
    var s := Strip(text);
    var sign, mark, body := SignOf(s), MarkOf(s, base), BodyOf(s, base);
    ParseIntBy(text, base);
    MarkIsOne(s, base);
    forall g, m, b | Reads(s, base, g, m, b) ensures g == sign && m == mark && b == body { ReadsOneWay(s, base, g, m, b); }
    hide Strip, Value, ParseInt, SignOf, MarkOf, BodyOf, Spelled;
    assert Spelled(body, base) ==> Reads(s, base, sign, mark, body);
  }

  function SignOf(s: string): string { if s != "" && (s[0] == '-' || s[0] == '+') then s[..1] else "" }

  function BodyOf(s: string, base: nat): string { SkipPrefix(s[|SignOf(s)|..], base) }

  function MarkOf(s: string, base: nat): string
  {
    var rest := s[|SignOf(s)|..];
    rest[..|rest| - |BodyOf(s, base)|]
  }

  lemma ParseIntBy(text: string, base: nat)
    requires base == 10 || base == 16
    ensures var s := Strip(text);
            var body := BodyOf(s, base);
            ParseInt(text, base) == if Spelled(body, base) then Some(Signed(SignOf(s), Value(body, base))) else None
  {
    ParseNatMeans(BodyOf(Strip(text), base), base);
    hide Strip, Value, Spelled, ParseNat, SkipPrefix;
    assert Strip(text) != "" ==> Strip(text)[..1] == [Strip(text)[0]];
    assert SignOf(Strip(text)) == "" ==> Strip(text)[0..] == Strip(text);
  }

  lemma MarkIsOne(s: string, base: nat)
    requires base == 10 || base == 16
    ensures s == SignOf(s) + MarkOf(s, base) + BodyOf(s, base)
    ensures IsSign(SignOf(s)) && IsMark(MarkOf(s, base), base)
  {
    var sign, rest := SignOf(s), s[|SignOf(s)|..];
    SignIsOne(s);
    SkippedIsMark(rest, base);
    hide SignOf, SkipPrefix, IsMark, IsSign;
    assert sign + (MarkOf(s, base) + BodyOf(s, base)) == sign + MarkOf(s, base) + BodyOf(s, base);
  }

  lemma SignIsOne(s: string)
    ensures IsSign(SignOf(s)) && s == SignOf(s) + s[|SignOf(s)|..]
  {
    assert s != "" ==> s[..1] == [s[0]];
  }

  lemma SkippedIsMark(rest: string, base: nat)
    requires base == 10 || base == 16
    ensures |SkipPrefix(rest, base)| <= |rest|
    ensures var mark := rest[..|rest| - |SkipPrefix(rest, base)|]; rest == mark + SkipPrefix(rest, base) && IsMark(mark, base)
  {
    var n := |rest| - |SkipPrefix(rest, base)|;
    if n == 0 {
      assert rest[..n] == "";
    } else if n == 2 {
      assert rest[..n] == ['0', rest[1]];
    } else {
      assert rest[..n] == ['0', rest[1], '_'];
    }
  }

  predicate IsSign(s: string) { s == "" || s == "-" || s == "+" }

  predicate IsMark(s: string, base: nat) { s == "" || (base == 16 && (s == "0x" || s == "0X" || s == "0x_" || s == "0X_")) }

  function Signed(sign: string, v: nat): int { if sign == "-" then 0 - v else v }

  predicate Reads(s: string, base: nat, sign: string, mark: string, body: string)
  {
    && s == sign + mark + body && IsSign(sign) && IsMark(mark, base)
    && Spelled(body, base)
  }

  lemma ReadsOneWay(s: string, base: nat, sign: string, mark: string, body: string)
    requires (base == 10 || base == 16) && Reads(s, base, sign, mark, body)
    ensures sign == SignOf(s) && body == BodyOf(s, base) && mark == MarkOf(s, base)
  {
    var rest := mark + body;
    SkipsMark(base, mark, body);
    FirstIsNoSign(base, mark, body);
    assert s == sign + rest;
    SignBefore(sign, rest);
    hide *;
    assert rest[..|mark|] == mark;
    assert SignOf(s) == sign && s[|sign|..] == rest && BodyOf(s, base) == body && MarkOf(s, base) == mark by { CutBy(s, base, sign, mark, body); }
  }

  lemma CutBy(s: string, base: nat, sign: string, mark: string, body: string)
    requires SignOf(s) == sign && s[|sign|..] == mark + body && SkipPrefix(mark + body, base) == body
    ensures BodyOf(s, base) == body && MarkOf(s, base) == mark
  {
    hide SignOf, SkipPrefix;
    assert (mark + body)[..|mark|] == mark;
  }

  lemma SignBefore(sign: string, rest: string)
    requires IsSign(sign) && rest != "" && rest[0] != '-' && rest[0] != '+'
    ensures SignOf(sign + rest) == sign && (sign + rest)[|sign|..] == rest
  {}

  lemma FirstIsNoSign(base: nat, mark: string, body: string)
    requires (base == 10 || base == 16) && IsMark(mark, base) && Spelled(body, base)
    ensures mark + body != "" && (mark + body)[0] != '-' && (mark + body)[0] != '+'
  {
    assert body[0] != '-' && body[0] != '+';
  }

  lemma SkipsMark(base: nat, mark: string, body: string)
    requires (base == 10 || base == 16) && IsMark(mark, base) && Spelled(body, base)
    ensures SkipPrefix(mark + body, base) == body
  {
    assert body[0] != '_' && body[0] != 'x' && body[0] != 'X';
    assert |body| > 1 ==> Stands(body, base, 1);
    hide Spelled;
  }

  /** The characters str.isspace holds of, one by one. */
  lemma IsSpaceMeans(c: char)
    ensures IsSpace(c) <==>
              c as int in {9, 10, 11, 12, 13, 28, 29, 30, 31, 32, 133, 160, 5760, 8192, 8193, 8194, 8195, 8196, 8197, 8198, 8199, 8200,
                           8201, 8202, 8232, 8233, 8239, 8287, 12288}
  {}
}
