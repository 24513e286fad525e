/** The comma/bracket text form of a compressed slot list: printing it and parse_mixed_slot_mapping. */
module SlotText {
  import opened Basics
  import opened Parsing
  import opened Numerals
  import opened SlotMapping

  // ---- printing, in the documented syntax: 1,2,[9,12],17 ----

  function PrintItem(item: Item): string
  {
    match item
    case One(x) => Print(x, 10)
    case Span(a, b) => "[" + Print(a, 10) + "," + Print(b, 10) + "]"
  }

  function PrintItems(items: seq<Item>): string
  {
    if items == [] then ""
    else if |items| == 1 then PrintItem(items[0])
    else PrintItem(items[0]) + "," + PrintItems(items[1..])
  }

  // ---- splitting at commas outside brackets ----

  datatype Scanner = Scanner(parts: seq<string>, buffer: string, inBrackets: bool) | Failed

  function Feed(st: Scanner, c: char): Scanner
  {
    if st.Failed? then Failed
    else if c == '[' then
      if st.inBrackets then Failed else Scanner(st.parts, st.buffer + [c], true)
    else if c == ']' then
      if !st.inBrackets then Failed else Scanner(st.parts + [st.buffer + [c]], "", false)
    else if c == ',' && !st.inBrackets then
      if st.buffer != "" then Scanner(st.parts + [st.buffer], "", false) else st
    else Scanner(st.parts, st.buffer + [c], st.inBrackets)
  }

  function FeedAll(st: Scanner, s: string): Scanner
  {
    if s == "" then st else Feed(FeedAll(st, s[..|s| - 1]), s[|s| - 1])
  }

  function Finish(st: Scanner): Result<seq<string>>
  {
    if st.Failed? || st.inBrackets then Err
    else Ok(if st.buffer != "" then st.parts + [st.buffer] else st.parts)
  }

  // ---- one part: [start,end] or a single number ----

  function IndexOf(s: string, c: char): Option<nat>
  {
    if s == "" then None
    else if s[0] == c then Some(0)
    else match IndexOf(s[1..], c) case None => None case Some(i) => Some(i + 1)
  }

  /** The match of ^\[(\d+),(\d+)\]$, as its two groups. */
  function MatchRange(part: string): Option<(string, string)>
  {
    if |part| < 2 || part[0] != '[' || part[|part| - 1] != ']' then None
    else
      var inner := part[1..|part| - 1];
      match IndexOf(inner, ',')
      case None => None
      case Some(i) => if i < |inner| && IsDigits(inner[..i]) && IsDigits(inner[i + 1..]) then Some((inner[..i], inner[i + 1..])) else None
  }

  function ParsePart(part: string): Result<Item>
  {
    match MatchRange(part)
    case Some(groups) =>
      (match (ParseInt(groups.0, 10), ParseInt(groups.1, 10))
       case (Some(start), Some(end)) => if start > end then Err else Ok(Span(start, end))
       case _ => Err)
    case None =>
      (match ParseInt(part, 10) case None => Err case Some(num) => Ok(One(num)))
  }

  function ParseParts(parts: seq<string>): Result<seq<Item>>
  {
    if parts == [] then Ok([])
    else
      match ParseParts(parts[..|parts| - 1])
      case Err => Err
      case Ok(items) =>
        var part := Strip(parts[|parts| - 1]);
        if part == "" then Ok(items)
        else match ParsePart(part) case Err => Err case Ok(item) => Ok(items + [item])
  }

  function RemoveSpaces(s: string): string
  {
    if s == "" then "" else RemoveSpaces(s[..|s| - 1]) + if IsSpace(s[|s| - 1]) then "" else [s[|s| - 1]]
  }

  function Parse(text: string): Result<seq<int>>
  {
    match Finish(FeedAll(Scanner([], "", false), RemoveSpaces(text)))
    case Err => Err
    case Ok(parts) =>
      match ParseParts(parts) case Err => Err case Ok(items) => Ok(Decompress(items))
  }

  method ParseMixed(text: string) returns (r: Result<seq<int>>)
    ensures r == Parse(text)
  {
    var clean := RemoveSpaces(text);
    var st := Scanner([], "", false);
    for i := 0 to |clean|
      invariant st == FeedAll(Scanner([], "", false), clean[..i])
    {
      assert clean[..i + 1][..i] == clean[..i];
      st := Feed(st, clean[i]);
    }
    assert clean[..|clean|] == clean;
    var finished := Finish(st);
    if finished.Err? { return Err; }
    var parts := finished.value;
    var compressed := [];
    for k := 0 to |parts|
      invariant ParseParts(parts[..k]) == Ok(compressed)
    {
      assert parts[..k + 1][..k] == parts[..k];
      var part := Strip(parts[k]);
      if part != "" {
        var parsed := ParsePart(part);
        if parsed.Err? {
          ParsePartsFails(parts, k);
          return Err;
        }
        compressed := compressed + [parsed.value];
      }
    }
    assert parts[..|parts|] == parts;
    var slots := DecompressSlots(compressed);
    return Ok(slots);
  }

  lemma {:induction false} ParsePartsFails(parts: seq<string>, k: nat)
    requires k < |parts| && ParseParts(parts[..k + 1]) == Err
    ensures ParseParts(parts) == Err
    decreases |parts|
  {
    if k + 1 < |parts| {
      assert parts[..|parts| - 1][..k + 1] == parts[..k + 1];
      ParsePartsFails(parts[..|parts| - 1], k);
    } else {
      assert parts[..k + 1] == parts;
    }
  }

  // ---- scanning printed text ----

  lemma {:induction false} FeedConcat(st: Scanner, a: string, b: string)
    ensures FeedAll(st, a + b) == FeedAll(FeedAll(st, a), b)
  {
    if b == "" {
      assert a + b == a;
    } else {
      FeedConcat(st, a, b[..|b| - 1]);
      assert (a + b)[..|a + b| - 1] == a + b[..|b| - 1];
    }
  }

  predicate Plain(s: string, inBrackets: bool)
  {
    forall i :: 0 <= i < |s| ==> s[i] != '[' && s[i] != ']' && (s[i] == ',' ==> inBrackets)
  }

  /** Plain text is collected in the buffer. */
  lemma {:induction false} FeedPlain(parts: seq<string>, buffer: string, inBrackets: bool, s: string)
    requires Plain(s, inBrackets)
    ensures FeedAll(Scanner(parts, buffer, inBrackets), s) == Scanner(parts, buffer + s, inBrackets)
  {
    if s == "" {
      assert buffer + s == buffer;
    } else {
      FeedPlain(parts, buffer, inBrackets, s[..|s| - 1]);
      assert buffer + s == buffer + s[..|s| - 1] + [s[|s| - 1]];
    }
  }

  lemma FeedOne(st: Scanner, c: char)
    ensures FeedAll(st, [c]) == Feed(st, c)
  {
    assert [c][..0] == "";
    assert FeedAll(st, "") == st;
  }

  lemma FeedBracketed(parts: seq<string>, body: string)
    requires Plain(body, true)
    ensures FeedAll(Scanner(parts, "", false), "[" + body + "]") == Scanner(parts + ["[" + body + "]"], "", false)
  {
    var st := Scanner(parts, "", false);
    assert "[" == ['['] && "" + ['['] == "[" && "[" + body + [']'] == "[" + body + "]" && "]" == [']'];
    FeedOne(st, '[');
    FeedPlain(parts, "[", true, body);
    FeedOne(Scanner(parts, "[" + body, true), ']');
    assert Feed(st, '[') == Scanner(parts, "[", true);
    assert Feed(Scanner(parts, "[" + body, true), ']') == Scanner(parts + ["[" + body + "]"], "", false);
    hide FeedAll, Feed;
    FeedConcat(st, "[", body);
    FeedConcat(st, "[" + body, "]");
  }

  /** A number stays in the buffer; a range goes to the parts at its closing bracket. */
  lemma FeedItem(parts: seq<string>, item: Item)
    ensures FeedAll(Scanner(parts, "", false), PrintItem(item)) ==
            if item.One? then Scanner(parts, PrintItem(item), false) else Scanner(parts + [PrintItem(item)], "", false)
  {
    hide FeedAll, Print;
    match item {
      case One(x) =>
        PrintPlain(x);
        FeedPlain(parts, "", false, Print(x, 10));
        assert "" + Print(x, 10) == Print(x, 10);
      case Span(a, b) =>
        PrintPlain(a);
        PrintPlain(b);
        var body := Print(a, 10) + "," + Print(b, 10);
        FeedBracketed(parts, body);
        assert PrintItem(item) == "[" + body + "]";
    }
  }

  lemma FeedItemComma(parts: seq<string>, item: Item)
    ensures FeedAll(Scanner(parts, "", false), PrintItem(item) + ",") == Scanner(parts + [PrintItem(item)], "", false)
  {
    var st := Scanner(parts, "", false);
    FeedItem(parts, item);
    ItemNotEmpty(item);
    FeedOne(FeedAll(st, PrintItem(item)), ',');
    hide FeedAll, PrintItem;
    FeedConcat(st, PrintItem(item), ",");
  }

  lemma PrintPlain(i: int)
    ensures forall k :: 0 <= k < |Print(i, 10)| ==>
              Print(i, 10)[k] != '[' && Print(i, 10)[k] != ']' && Print(i, 10)[k] != ',' && !IsSpace(Print(i, 10)[k])
    ensures Print(i, 10) != ""
  {
    PrintChars(i, 10);
    forall k | 0 <= k < |Print(i, 10)|
      ensures Print(i, 10)[k] != '[' && Print(i, 10)[k] != ']' && Print(i, 10)[k] != ',' && !IsSpace(Print(i, 10)[k])
    {
      assert NumberChar(Print(i, 10)[k]);
    }
  }

  function Texts(items: seq<Item>): seq<string>
  {
    seq(|items|, k requires 0 <= k < |items| => PrintItem(items[k]))
  }

  lemma FeedLast(parts: seq<string>, item: Item)
    ensures Finish(FeedAll(Scanner(parts, "", false), PrintItem(item))) == Ok(parts + [PrintItem(item)])
  {
    FeedItem(parts, item);
    ItemNotEmpty(item);
    hide FeedAll, PrintItem;
  }

  lemma FeedNone(parts: seq<string>)
    ensures Finish(FeedAll(Scanner(parts, "", false), "")) == Ok(parts)
  {}

  lemma TextsCons(items: seq<Item>)
    requires items != []
    ensures Texts(items) == [PrintItem(items[0])] + Texts(items[1..])
  {
    hide PrintItem;
  }

  lemma PrintCons(items: seq<Item>)
    requires |items| > 1
    ensures PrintItems(items) == (PrintItem(items[0]) + ",") + PrintItems(items[1..])
  {
    hide PrintItem;
  }

  /** Scanning the printed list yields the printed items. */
  lemma {:induction false} FeedItems(parts: seq<string>, items: seq<Item>)
    ensures Finish(FeedAll(Scanner(parts, "", false), PrintItems(items))) == Ok(parts + Texts(items))
    decreases |items|
  {
    hide FeedAll, PrintItem, Finish;
    if items == [] {
      FeedNone(parts);
      assert parts + Texts(items) == parts;
    } else if |items| == 1 {
      FeedLast(parts, items[0]);
      assert Texts(items) == [PrintItem(items[0])];
    } else {
      hide PrintItems, Texts;
      FeedItemComma(parts, items[0]);
      PrintCons(items);
      FeedConcat(Scanner(parts, "", false), PrintItem(items[0]) + ",", PrintItems(items[1..]));
      FeedItems(parts + [PrintItem(items[0])], items[1..]);
      TextsCons(items);
      assert parts + ([PrintItem(items[0])] + Texts(items[1..])) == parts + [PrintItem(items[0])] + Texts(items[1..]);
    }
  }

  lemma ItemNotEmpty(item: Item)
    ensures PrintItem(item) != "" && forall k :: 0 <= k < |PrintItem(item)| ==> !IsSpace(PrintItem(item)[k])
  {
    match item {
      case One(x) => PrintPlain(x);
      case Span(a, b) => PrintPlain(a); PrintPlain(b);
    }
  }

  lemma {:induction false} NoSpaces(s: string)
    requires forall k :: 0 <= k < |s| ==> !IsSpace(s[k])
    ensures RemoveSpaces(s) == s
  {
    if s != "" { NoSpaces(s[..|s| - 1]); }
  }

  lemma {:induction false} PrintedHasNoSpaces(items: seq<Item>)
    ensures forall k :: 0 <= k < |PrintItems(items)| ==> !IsSpace(PrintItems(items)[k])
  {
    if items != [] {
      ItemNotEmpty(items[0]);
      if |items| > 1 { PrintedHasNoSpaces(items[1..]); }
    }
  }

  // ---- parsing printed items ----

  lemma {:induction false} IndexOfAfter(s: string, t: string, c: char)
    requires forall i :: 0 <= i < |s| ==> s[i] != c
    ensures IndexOf(s + [c] + t, c) == Some(|s|)
  {
    if s != "" {
      assert (s + [c] + t)[1..] == s[1..] + [c] + t;
      IndexOfAfter(s[1..], t, c);
    }
  }

  lemma MatchBracketed(x: string, y: string)
    requires forall i :: 0 <= i < |x| ==> x[i] != ','
    ensures MatchRange("[" + x + "," + y + "]") == if IsDigits(x) && IsDigits(y) then Some((x, y)) else None
  {
    hide IsDigits, IndexOf;
    var inner := x + "," + y;
    var part := "[" + x + "," + y + "]";
    assert part[1..|part| - 1] == inner;
    IndexOfAfter(x, y, ',');
    assert inner[..|x|] == x && inner[|x| + 1..] == y;
  }

  /** A printed item reads back as itself, unless it is a range with a negative end: those do not
      match the range pattern, and are no single number either. */
  lemma ParsePrintedItem(item: Item)
    requires item.Span? ==> item.start <= item.end
    ensures ParsePart(PrintItem(item)) == if item.One? || item.start >= 0 then Ok(item) else Err
  {
    match item {
      case One(x) =>
        PrintPlain(x);
        ParsePrinted(x, 10);
        hide ParseInt, Print;
        assert PrintItem(item)[0] != '[';
      case Span(a, b) =>
        PrintPlain(a);
        PrintChars(a, 10);
        PrintChars(b, 10);
        ParsePrinted(a, 10);
        ParsePrinted(b, 10);
        assert a < 0 ==> Print(a, 10)[0] == '-';
        hide ParseInt, Print, MatchRange;
        MatchBracketed(Print(a, 10), Print(b, 10));
        if a < 0 { NotANumber(PrintItem(item)); }
    }
  }

  lemma NotANumber(part: string)
    requires |part| >= 2 && part[0] == '[' && part[|part| - 1] == ']'
    ensures ParseInt(part, 10) == None
  {
    StripTrimmed(part);
    ParseNatRejects(part, 10, 0);
  }

  lemma {:induction false} ParseTexts(items: seq<Item>)
    requires forall k :: 0 <= k < |items| ==> items[k].Span? ==> items[k].start <= items[k].end
    ensures ParseParts(Texts(items)) ==
            if forall k :: 0 <= k < |items| ==> items[k].Span? ==> items[k].start >= 0 then Ok(items) else Err
  {
    hide PrintItem, ParsePart, Strip;
    if items != [] {
      var n := |items| - 1;
      ParseTexts(items[..n]);
      assert Texts(items)[..n] == Texts(items[..n]);
      ItemNotEmpty(items[n]);
      StripTrimmed(PrintItem(items[n]));
      ParsePrintedItem(items[n]);
      assert items == items[..n] + [items[n]];
    }
  }

  lemma {:induction false} CompressedRangesAscend(s: seq<int>)
    ensures forall k :: 0 <= k < |Compress(s)| ==> Compress(s)[k].Span? ==> Compress(s)[k].start <= Compress(s)[k].end
    decreases |s|
  {
    if s != [] {
      var n := RunLength(s);
      CompressedRangesAscend(s[n..]);
      EmitAscends(s[0], s[0] + n - 1);
      CompressStep(s);
    }
  }

  lemma EmitAscends(start: int, end: int)
    ensures forall k :: 0 <= k < |Emit(start, end)| ==> Emit(start, end)[k].Span? ==> Emit(start, end)[k].start <= Emit(start, end)[k].end
  {
    OnesAreOnes(start, end + 1);
  }

  lemma {:induction false} OnesAreOnes(lo: int, hi: int)
    ensures forall k :: 0 <= k < |Ones(lo, hi)| ==> Ones(lo, hi)[k].One?
    decreases hi - lo
  {
    if lo < hi { OnesAreOnes(lo, hi - 1); }
  }

  /** Every maximal +1 run of length three or more starts at zero or above. */
  ghost predicate RunsFromZero(s: seq<int>)
  {
    forall p: nat, q: nat :: p + 2 <= q < |s| && MaximalRun(s, p, q) ==> s[p] >= 0
  }

  ghost predicate RangesFromZero(items: seq<Item>)
  {
    forall k :: 0 <= k < |items| ==> items[k].Span? ==> items[k].start >= 0
  }

  /** The runs of the list without its first run are runs of the list. */
  lemma RunsBehind(s: seq<int>, n: nat)
    requires RunsFromZero(s) && 1 <= n <= |s| && (n < |s| ==> s[n] != s[n - 1] + 1)
    ensures RunsFromZero(s[n..])
  {
    hide MaximalRun;
    var t := s[n..];
    forall p: nat, q: nat | p + 2 <= q < |t| && MaximalRun(t, p, q) ensures t[p] >= 0 {
      ShiftRun(s, n, p + n, q + n);
      assert s[p + n] == t[p];
    }
  }

  /** And besides them there is only the first. */
  lemma RunsInFront(s: seq<int>, n: nat)
    requires s != [] && n == RunLength(s) && RunsFromZero(s[n..]) && (n >= 3 ==> s[0] >= 0) && (n < |s| ==> s[n] != s[n - 1] + 1)
    ensures RunsFromZero(s)
  {
    assert forall i :: 0 <= i < n ==> s[i] == s[0] + i;
    hide RunLength, MaximalRun;
    var t := s[n..];
    forall p: nat, q: nat | p + 2 <= q < |s| && MaximalRun(s, p, q) ensures s[p] >= 0 {
      if p == 0 {
        HeadRunMaximal(s, q);
      } else if p < n {
        StepInRun(s, n, p);
        NotMaximal(s, p, q);
      } else {
        ShiftRun(s, n, p, q);
        assert t[p - n] == s[p];
      }
    }
  }

  lemma StepInRun(s: seq<int>, n: nat, p: nat)
    requires 0 < p < n <= |s| && forall i :: 0 <= i < n ==> s[i] == s[0] + i
    ensures s[p] == s[p - 1] + 1
  {}

  lemma RunsOfRest(s: seq<int>)
    requires s != []
    ensures RunsFromZero(s) <==> (RunLength(s) >= 3 ==> s[0] >= 0) && RunsFromZero(s[RunLength(s)..])
  {
    var n := RunLength(s);
    FirstRunEnds(s);
    hide RunLength, MaximalRun;
    if RunsFromZero(s) {
      if n >= 3 {
        HeadRunMaximal(s, n - 1);
        assert MaximalRun(s, 0, n - 1);
      }
      RunsBehind(s, n);
    }
    hide RunsFromZero;
    if (n >= 3 ==> s[0] >= 0) && RunsFromZero(s[n..]) { RunsInFront(s, n); }
  }

  lemma FirstRunEnds(s: seq<int>)
    requires s != []
    ensures var n := RunLength(s); n < |s| ==> s[n] != s[n - 1] + 1
  {
    var n := RunLength(s);
    assert s[n - 1] == s[0] + (n - 1);
    hide RunLength;
  }

  lemma {:induction false} RangesAreRuns(s: seq<int>)
    ensures RangesFromZero(Compress(s)) <==> RunsFromZero(s)
    decreases |s|
  {
    hide RunLength, MaximalRun, Compress, Emit, RunsFromZero, RangesFromZero;
    if s == [] {
      NoRuns();
    } else {
      var n := RunLength(s);
      CompressStep(s);
      RunsOfRest(s);
      RangesAreRuns(s[n..]);
      EmitFromZero(s[0], n);
      RangesConcat(Emit(s[0], s[0] + n - 1), Compress(s[n..]));
    }
  }

  lemma NoRuns()
    ensures RangesFromZero(Compress([])) && RunsFromZero([])
  {}

  lemma EmitFromZero(start: int, n: nat)
    ensures RangesFromZero(Emit(start, start + n - 1)) <==> (n >= 3 ==> start >= 0)
  {
    OnesAreOnes(start, start + n);
    if n >= 3 { assert Emit(start, start + n - 1)[0] == Span(start, start + n - 1); }
  }

  lemma RangesConcat(a: seq<Item>, b: seq<Item>)
    ensures RangesFromZero(a + b) <==> RangesFromZero(a) && RangesFromZero(b)
  {
    assert forall k :: 0 <= k < |a| ==> (a + b)[k] == a[k];
    assert forall k :: 0 <= k < |b| ==> (a + b)[|a| + k] == b[k];
  }

  /** Compressing, printing and parsing returns the slots, for every list in which no run of three or
      more starts below zero; such a run becomes a range that the parser reports as an error. */
  lemma PrintParseRoundTrip(s: seq<int>)
    ensures Parse(PrintItems(Compress(s))) == if RunsFromZero(s) then Ok(s) else Err
  {
    var items := Compress(s);
    RangesAreRuns(s);
    hide Compress, Decompress, FeedAll, PrintItems, RemoveSpaces, ParseParts, Finish, RunsFromZero;
    PrintedHasNoSpaces(items);
    NoSpaces(PrintItems(items));
    FeedItems([], items);
    assert [] + Texts(items) == Texts(items);
    CompressedRangesAscend(s);
    ParseTexts(items);
    RoundTrip(s);
  }

  /** The least list that does not come back. */
  lemma NegativeRunFails()
    ensures Parse(PrintItems(Compress([-3, -2, -1]))) == Err
  {
    assert MaximalRun([-3, -2, -1], 0, 2);
    hide Compress, Parse, PrintItems;
    PrintParseRoundTrip([-3, -2, -1]);
  }

  /** In particular for every list of non-negative slots. */
  lemma NonNegativeRoundTrip(s: seq<int>)
    requires forall i :: 0 <= i < |s| ==> s[i] >= 0
    ensures Parse(PrintItems(Compress(s))) == Ok(s)
  {
    hide Compress, Parse, PrintItems, MaximalRun;
    PrintParseRoundTrip(s);
  }
}
