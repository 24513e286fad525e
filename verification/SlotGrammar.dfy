/** The slot text by its grammar: which texts are read, as which items, and what the items stand for. */
module SlotGrammar {
  import opened Basics
  import opened Parsing
  import opened Numerals
  import opened SlotMapping
  import opened SlotText

  /** No bracket and no comma. */
  predicate NoMarks(s: string) { '[' !in s && ']' !in s && ',' !in s }

  predicate NoBrackets(s: string) { '[' !in s && ']' !in s }

  /** A part that ends with its bracket: anything without marks, and a pair of brackets. */
  predicate Bracketed(part: string, before: string, inside: string)
  {
    part == before + "[" + inside + "]" && NoMarks(before) && NoBrackets(inside)
  }

  /** The text is these parts in turn.  Commas stand between parts, as many as one likes; behind a part that
      ends with a bracket none is needed. */
  ghost predicate Scans(text: string, parts: seq<string>)
    decreases |text|
  {
    if text == "" then parts == []
    else if text[0] == ',' then Scans(text[1..], parts)
    else
      && parts != [] && parts[0] != "" && parts[0] <= text
      && var rest := text[|parts[0]|..];
         Scans(rest, parts[1..])
         && ((exists before, inside :: Bracketed(parts[0], before, inside))
             || (NoMarks(parts[0]) && (rest == "" || rest[0] == ',')))
  }

  // ---- the scanner follows the grammar ----

  function Start(parts: seq<string>): Scanner { Scanner(parts, "", false) }

  lemma {:induction false} FailedStays(s: string)
    ensures FeedAll(Failed, s) == Failed
  {
    if s != "" { FailedStays(s[..|s| - 1]); }
  }

  /** Feeding from the front. */
  lemma FeedFront(st: Scanner, c: char, rest: string)
    ensures FeedAll(st, [c] + rest) == FeedAll(Feed(st, c), rest)
  {
    FeedConcat(st, [c], rest);
    FeedOne(st, c);
  }

  /** How far a text goes without marks. */
  function PlainLength(s: string): (n: nat)
    ensures n <= |s| && NoMarks(s[..n])
    ensures n < |s| ==> s[n] == '[' || s[n] == ']' || s[n] == ','
  {
    if s == "" || s[0] == '[' || s[0] == ']' || s[0] == ',' then 0
    else
      var n := PlainLength(s[1..]);
      assert s[..n + 1] == [s[0]] + s[1..][..n];
      1 + n
  }

  /** How far a text goes without brackets. */
  function InsideLength(s: string): (n: nat)
    ensures n <= |s| && NoBrackets(s[..n])
    ensures n < |s| ==> s[n] == '[' || s[n] == ']'
  {
    if s == "" || s[0] == '[' || s[0] == ']' then 0
    else
      var n := InsideLength(s[1..]);
      assert s[..n + 1] == [s[0]] + s[1..][..n];
      1 + n
  }

  lemma PlainText(s: string, inBrackets: bool)
    requires if inBrackets then NoBrackets(s) else NoMarks(s)
    ensures Plain(s, inBrackets)
  {
    forall i | 0 <= i < |s| ensures s[i] != '[' && s[i] != ']' && (s[i] == ',' ==> inBrackets) { assert s[i] in s; }
  }

  /** What the scanner makes of a whole text. */
  function Read(parts: seq<string>, text: string): Result<seq<string>> { Finish(FeedAll(Start(parts), text)) }

  /** A comma with nothing before it is skipped. */
  lemma ReadComma(parts: seq<string>, text: string)
    requires text != "" && text[0] == ','
    ensures Read(parts, text) == Read(parts, text[1..])
  {
    assert text == [text[0]] + text[1..];
    FeedFront(Start(parts), ',', text[1..]);
  }

  /** A part without brackets ends at a comma or at the end of the text. */
  lemma ReadPlain(parts: seq<string>, part: string, rest: string)
    requires part != "" && NoMarks(part) && (rest == "" || rest[0] == ',')
    ensures Read(parts, part + rest) == Read(parts + [part], rest)
  {
    PlainText(part, false);
    FeedPlain(parts, "", false, part);
    assert "" + part == part;
    FeedConcat(Start(parts), part, rest);
    hide FeedAll, Plain;
    if rest == "" {
      FeedNothing(Scanner(parts, part, false));
      FeedNothing(Start(parts + [part]));
    } else {
      assert rest == [','] + rest[1..];
      FeedFront(Scanner(parts, part, false), ',', rest[1..]);
      FeedFront(Start(parts + [part]), ',', rest[1..]);
    }
  }

  lemma FeedNothing(st: Scanner)
    ensures FeedAll(st, "") == st
  {}

  /** The scanner behind an opening bracket, with what stands inside it. */
  lemma FeedOpened(parts: seq<string>, before: string, inside: string)
    requires NoMarks(before) && NoBrackets(inside)
    ensures FeedAll(Start(parts), before + "[" + inside) == Scanner(parts, before + "[" + inside, true)
  {
    PlainText(before, false);
    PlainText(inside, true);
    FeedPlain(parts, "", false, before);
    assert "" + before == before && "[" == ['['];
    FeedOne(Scanner(parts, before, false), '[');
    FeedPlain(parts, before + "[", true, inside);
    hide FeedAll;
    FeedConcat(Start(parts), before, "[");
    FeedConcat(Start(parts), before + "[", inside);
  }

  lemma ReadBracketed(parts: seq<string>, part: string, before: string, inside: string, rest: string)
    requires Bracketed(part, before, inside)
    ensures Read(parts, part + rest) == Read(parts + [part], rest)
  {
    FeedOpened(parts, before, inside);
    var open := before + "[" + inside;
    assert part + rest == open + ([']'] + rest) && open + [']'] == part;
    hide FeedAll;
    FeedConcat(Start(parts), open, [']'] + rest);
    FeedFront(Scanner(parts, open, true), ']', rest);
  }

  /** A closing bracket that was not opened is refused. */
  lemma ReadStray(parts: seq<string>, before: string, tail: string)
    requires NoMarks(before)
    ensures Read(parts, before + ([']'] + tail)) == Err
  {
    PlainText(before, false);
    FeedPlain(parts, "", false, before);
    assert "" + before == before;
    hide FeedAll;
    FeedConcat(Start(parts), before, [']'] + tail);
    FeedFront(Scanner(parts, before, false), ']', tail);
    FailedStays(tail);
  }

  /** So is an opening one inside brackets, or brackets that are not closed. */
  lemma ReadUnclosed(parts: seq<string>, before: string, inside: string, rest: string)
    requires NoMarks(before) && NoBrackets(inside) && (rest == "" || rest[0] == '[')
    ensures Read(parts, (before + "[" + inside) + rest) == Err
  {
    FeedOpened(parts, before, inside);
    var open := before + "[" + inside;
    FeedConcat(Start(parts), open, rest);
    hide FeedAll;
    if rest == "" {
      FeedNothing(Scanner(parts, open, true));
    } else {
      assert rest == ['['] + rest[1..];
      FeedFront(Scanner(parts, open, true), '[', rest[1..]);
      FailedStays(rest[1..]);
    }
  }

  lemma {:induction false} ScannedIsRead(parts: seq<string>, text: string, found: seq<string>)
    requires Scans(text, found)
    ensures Read(parts, text) == Ok(parts + found)
    decreases |text|
  {
    if text == "" {
      FeedNothing(Start(parts));
      assert parts + [] == parts;
    } else if text[0] == ',' {
      ReadComma(parts, text);
      ScannedIsRead(parts, text[1..], found);
    } else {
      var part, rest := found[0], text[|found[0]|..];
      assert text == part + rest;
      ScannedIsRead(parts + [part], rest, found[1..]);
      assert parts + found == parts + [part] + found[1..];
      hide Read, Scans;
      if before, inside :| Bracketed(part, before, inside) {
        ReadBracketed(parts, part, before, inside, rest);
      } else {
        ReadPlain(parts, part, rest);
      }
    }
  }

  lemma {:induction false} ReadIsScanned(parts: seq<string>, text: string) returns (found: seq<string>)
    requires Read(parts, text).Ok?
    ensures Scans(text, found)
    decreases |text|
  {
    if text == "" {
      found := [];
    } else if text[0] == ',' {
      ReadComma(parts, text);
      found := ReadIsScanned(parts, text[1..]);
    } else {
      var part, rest := NextPart(parts, text);
      var more := ReadIsScanned(parts + [part], rest);
      found := [part] + more;
      assert found[1..] == more && text[|part|..] == rest;
    }
  }

  /** The first part of a text that is read. */
  lemma NextPart(parts: seq<string>, text: string) returns (part: string, rest: string)
    requires text != "" && text[0] != ',' && Read(parts, text).Ok?
    ensures part != "" && text == part + rest && Read(parts, text) == Read(parts + [part], rest)
    ensures (exists before, inside :: Bracketed(part, before, inside)) || (NoMarks(part) && (rest == "" || rest[0] == ','))
  {
    hide Read;
    var n := PlainLength(text);
    var before := text[..n];
    if n == |text| || text[n] == ',' {
      part, rest := before, text[n..];
      assert text == part + rest;
      ReadPlain(parts, part, rest);
    } else if text[n] == ']' {
      assert text == before + ([']'] + text[n + 1..]);
      ReadStray(parts, before, text[n + 1..]);
      assert false;
    } else {
      part, rest := ClosedPart(parts, text, n);
    }
  }

  lemma ClosedPart(parts: seq<string>, text: string, n: nat) returns (part: string, rest: string)
    requires n < |text| && text[n] == '[' && NoMarks(text[..n]) && Read(parts, text).Ok?
    ensures part != "" && text == part + rest && Read(parts, text) == Read(parts + [part], rest)
    ensures exists before, inside :: Bracketed(part, before, inside)
  {
    hide Read;
    var before, tail := text[..n], text[n + 1..];
    var k := InsideLength(tail);
    var inside := tail[..k];
    assert text == (before + "[" + inside) + tail[k..];
    if k == |tail| || tail[k] == '[' {
      ReadUnclosed(parts, before, inside, tail[k..]);
      assert false;
    } else {
      part, rest := before + "[" + inside + "]", tail[k + 1..];
      assert tail[k..] == "]" + rest;
      assert text == part + rest;
      assert Bracketed(part, before, inside);
      ReadBracketed(parts, part, before, inside, rest);
    }
  }

  /** The scanner reads exactly the texts of the grammar, as their parts. */
  lemma ScanMeans(text: string, found: seq<string>)
    ensures Read([], text) == Ok(found) <==> Scans(text, found)
  {
    if Read([], text).Ok? {
      var parts := ReadIsScanned([], text);
      ScannedIsRead([], text, parts);
      assert [] + parts == parts;
    }
    if Scans(text, found) {
      ScannedIsRead([], text, found);
      assert [] + found == found;
    }
  }

  // ---- what a part stands for ----

  predicate RangeText(part: string, a: string, b: string)
  {
    part == "[" + a + "," + b + "]" && IsDigits(a) && IsDigits(b)
  }

  /** A part is a range of two texts of digits in brackets, in this order, or a number. */
  ghost predicate Denotes(part: string, item: Item)
  {
    match item
    case Span(start, end) => exists a, b :: RangeText(part, a, b) && start == Value(a, 10) <= end == Value(b, 10)
    case One(x) => exists sign, body :: part == sign + body && IsSign(sign) && Spelled(body, 10) && x == Signed(sign, Value(body, 10))
  }

  predicate Spaceless(s: string) { forall i :: 0 <= i < |s| ==> !IsSpace(s[i]) }

  lemma SpacelessStrips(s: string)
    requires Spaceless(s)
    ensures Strip(s) == s
  {
    StripTrimmed(s);
  }

  lemma NoMarkBetween(sign: string, body: string)
    ensures sign + "" + body == sign + body && "" + body == body
  {}

  lemma DigitsSpelled(s: string)
    requires IsDigits(s)
    ensures Spelled(s, 10) && Spaceless(s)
  {
    forall i: nat | i < |s| ensures Stands(s, 10, i) { assert IsDigit(s[i], 10); }
  }

  /** Digits read as their value. */
  lemma DigitsRead(s: string)
    requires IsDigits(s)
    ensures ParseInt(s, 10) == Some(Value(s, 10) as int)
  {
    DigitsSpelled(s);
    SpacelessStrips(s);
    NoMarkBetween("", s);
    ParseIntMeans(s, 10, Value(s, 10));
    hide Spelled, Value, Strip, ParseInt, IsDigits, Spaceless;
    assert Reads(s, 10, "", "", s) && Signed("", Value(s, 10)) == Value(s, 10);
  }

  /** The range pattern matches exactly the range texts. */
  lemma MatchMeans(part: string, a: string, b: string)
    ensures MatchRange(part) == Some((a, b)) <==> RangeText(part, a, b)
  {
    if RangeText(part, a, b) {
      assert forall i :: 0 <= i < |a| ==> a[i] != ',';
      hide MatchRange, IsDigits;
      MatchBracketed(a, b);
    }
    if MatchRange(part) == Some((a, b)) { MatchedIsRange(part, a, b); }
  }

  lemma MatchedIsRange(part: string, a: string, b: string)
    requires MatchRange(part) == Some((a, b))
    ensures RangeText(part, a, b)
  {
    var inner := part[1..|part| - 1];
    var i := IndexOf(inner, ',').value;
    IndexOfMeans(inner, ',');
    assert part[0] == '[' && part[|part| - 1] == ']' && a == inner[..i] && b == inner[i + 1..] && IsDigits(a) && IsDigits(b);
    hide *;
    assert inner == a + "," + b;
    assert part == "[" + inner + "]";
    assert "[" + (a + "," + b) + "]" == "[" + a + "," + b + "]";
    assert RangeText(part, a, b) by { RangeIs(part, a, b); }
  }

  lemma RangeIs(part: string, a: string, b: string)
    requires part == "[" + a + "," + b + "]" && IsDigits(a) && IsDigits(b)
    ensures RangeText(part, a, b)
  {}

  lemma {:induction false} IndexOfMeans(s: string, c: char)
    ensures IndexOf(s, c).Some? ==> IndexOf(s, c).value < |s| && s[IndexOf(s, c).value] == c
  {
    if s != "" { IndexOfMeans(s[1..], c); }
  }

  lemma NumberMeans(part: string, x: int)
    requires Spaceless(part)
    ensures ParseInt(part, 10) == Some(x) <==> Denotes(part, One(x))
  {
    SpacelessStrips(part);
    ParseIntMeans(part, 10, x);
    hide Strip, ParseInt, Spelled, Value, IsSign;
    if ParseInt(part, 10) == Some(x) {
      var sign, mark, body :| Reads(part, 10, sign, mark, body) && x == Signed(sign, Value(body, 10));
      NoMarkBetween(sign, body);
    }
    if Denotes(part, One(x)) {
      var sign, body :| part == sign + body && IsSign(sign) && Spelled(body, 10) && x == Signed(sign, Value(body, 10));
      NoMarkBetween(sign, body);
      assert Reads(part, 10, sign, "", body);
    }
  }

  lemma FirstOfNumber(sign: string, body: string)
    requires IsSign(sign) && Spelled(body, 10)
    ensures sign + body != "" && (sign + body)[0] != '['
  {
    assert body[0] != '[';
  }

  /** A range text is no number. */
  lemma RangeIsNoNumber(part: string, a: string, b: string, x: int)
    requires RangeText(part, a, b)
    ensures !Denotes(part, One(x))
  {
    assert part[0] == '[';
    if Denotes(part, One(x)) {
      var sign, body :| part == sign + body && IsSign(sign) && Spelled(body, 10) && x == Signed(sign, Value(body, 10));
      FirstOfNumber(sign, body);
      assert false;
    }
  }

  /** A part is read as what it stands for, and otherwise refused. */
  lemma PartMeans(part: string, item: Item)
    requires Spaceless(part)
    ensures ParsePart(part) == Ok(item) <==> Denotes(part, item)
  {
    if MatchRange(part).Some? {
      var (a, b) := MatchRange(part).value;
      MatchMeans(part, a, b);
      DigitsRead(a);
      DigitsRead(b);
      forall c, d | RangeText(part, c, d) ensures c == a && d == b { MatchMeans(part, c, d); }
      if item.One? { RangeIsNoNumber(part, a, b, item.slot); }
      hide MatchRange, ParseInt, RangeText, Value;
    } else {
      forall c, d ensures !RangeText(part, c, d) { MatchMeans(part, c, d); }
      if item.One? { NumberMeans(part, item.slot); }
      hide MatchRange, ParseInt, RangeText;
    }
  }

  // ---- whole texts ----

  ghost predicate AllDenote(parts: seq<string>, items: seq<Item>)
  {
    |parts| == |items| && forall k :: 0 <= k < |parts| ==> Denotes(parts[k], items[k])
  }

  lemma {:induction false} PartsMean(parts: seq<string>, items: seq<Item>)
    requires forall k :: 0 <= k < |parts| ==> parts[k] != "" && Spaceless(parts[k])
    ensures ParseParts(parts) == Ok(items) <==> AllDenote(parts, items)
  {
    hide Denotes, ParsePart, Spaceless;
    if parts != [] {
      var n := |parts| - 1;
      SpacelessStrips(parts[n]);
      hide Strip;
      if ParseParts(parts[..n]).Ok? { PartsMean(parts[..n], ParseParts(parts[..n]).value); }
      if |items| == |parts| {
        PartsMean(parts[..n], items[..n]);
        PartMeans(parts[n], items[n]);
        assert items == items[..n] + [items[n]];
      }
    }
  }

  /** Blanks are taken out wherever they stand. */
  lemma {:induction false} RemoveSpacesMeans(a: string, c: char, b: string)
    ensures RemoveSpaces(a + [c] + b) == RemoveSpaces(a) + (if IsSpace(c) then "" else [c]) + RemoveSpaces(b)
    ensures Spaceless(RemoveSpaces(a))
    decreases |a| + |b|
  {
    hide IsSpace;
    var s := a + [c] + b;
    if b == "" {
      assert s[..|s| - 1] == a && s[|s| - 1] == c;
      if a != "" { RemoveSpacesMeans(a[..|a| - 1], c, ""); }
    } else {
      assert s[..|s| - 1] == a + [c] + b[..|b| - 1] && s[|s| - 1] == b[|b| - 1];
      RemoveSpacesMeans(a, c, b[..|b| - 1]);
    }
  }

  /** The parts of a text without blanks have none, and none is empty. */
  lemma {:induction false} PartsAreSpaceless(text: string, parts: seq<string>)
    requires Scans(text, parts) && Spaceless(text)
    ensures forall k :: 0 <= k < |parts| ==> parts[k] != "" && Spaceless(parts[k])
    decreases |text|
  {
    hide IsSpace;
    if text == "" {
    } else if text[0] == ',' {
      PartsAreSpaceless(text[1..], parts);
    } else {
      assert text == parts[0] + text[|parts[0]|..];
      assert forall i :: 0 <= i < |parts[0]| ==> parts[0][i] == text[i];
      PartsAreSpaceless(text[|parts[0]|..], parts[1..]);
      assert forall k :: 1 <= k < |parts| ==> parts[k] == parts[1..][k - 1];
    }
  }

  /** A text stands for slots when, without its blanks, it is scanned into parts that stand for items that
      expand to them. */
  ghost predicate StandsFor(text: string, slots: seq<int>)
  {
    exists parts, items :: Scans(RemoveSpaces(text), parts) && AllDenote(parts, items) && slots == Decompress(items)
  }

  /** Exactly such texts are read, as those slots; all others raise. */
  lemma TextMeans(text: string, slots: seq<int>)
    ensures Parse(text) == Ok(slots) <==> StandsFor(text, slots)
  {
    var clean := RemoveSpaces(text);
    RemoveSpacesMeans(text, ' ', "");
    assert Spaceless(clean);
    hide RemoveSpaces, ParseParts, AllDenote, Decompress, Spaceless;
    if Parse(text) == Ok(slots) {
      var parts := Read([], clean).value;
      ScanMeans(clean, parts);
      PartsAreSpaceless(clean, parts);
      PartsMean(parts, ParseParts(parts).value);
    }
    if StandsFor(text, slots) {
      var parts, items :| Scans(clean, parts) && AllDenote(parts, items) && slots == Decompress(items);
      ScanMeans(clean, parts);
      PartsAreSpaceless(clean, parts);
      PartsMean(parts, items);
    }
  }

  /** What the items of a compressed list expand to. */
  lemma ExpandMeans(a: seq<Item>, b: seq<Item>, x: int, start: int, end: int)
    ensures Decompress([]) == [] && Decompress([One(x)]) == [x] && Decompress(a + b) == Decompress(a) + Decompress(b)
    ensures var r := Decompress([Span(start, end)]);
            |r| == (if start <= end then end - start + 1 else 0) && forall i :: 0 <= i < |r| ==> r[i] == start + i
  {
    assert [One(x)][..0] == [] && [Span(start, end)][..0] == [];
    DecompressConcat(a, b);
  }
}
