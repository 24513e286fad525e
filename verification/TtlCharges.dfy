/** Who pays for a failed compare-exchange: every failure of a call is charged to writes that other calls
    made during that attempt, one of them to the cell that failed to compare, and no write pays for two
    failures of one call. */
module TtlCharges {
  import opened TtlInterleaving

  /** The calls that made the writes of a run, in order; write x of the run is made by Writers(s, run)[x]. */
  function Writers(s: State, schedule: seq<nat>): seq<nat>
    requires Legal(s, schedule)
    decreases |schedule|
  {
    if schedule == [] then []
    else
      var s1 := Step(s, schedule[0]);
      (if s1.writes > s.writes then [schedule[0]] else []) + Writers(s1, schedule[1..])
  }

  /** For each failure of call i the writes made during that attempt: from the count when the attempt
      began to the count when it failed. */
  function Windows(s: State, schedule: seq<nat>, i: nat): seq<(nat, nat)>
    requires Legal(s, schedule) && i < |s.calls|
    decreases |schedule|
  {
    if schedule == [] then []
    else
      var s1 := Step(s, schedule[0]);
      (if s1.calls[i].failures > s.calls[i].failures then [(s.calls[i].since, s.writes)] else []) + Windows(s1, schedule[1..], i)
  }

  datatype Cell = Counter | Expiration

  /** The cell a call's next write or compare-exchange is aimed at. */
  function Target(c: Call): Cell
  {
    match c.pc
    case LoadCounter(e) => if c.kind.Locking? && c.kind.now >= e then Expiration else Counter
    case TryExpiration(_) => Expiration
    case StoreExpiration => Expiration
    case ClearExpiration => Expiration
    case _ => Counter
  }

  /** The cells of the writes of a run, in order. */
  function WrittenCells(s: State, schedule: seq<nat>): seq<Cell>
    requires Legal(s, schedule)
    decreases |schedule|
  {
    if schedule == [] then []
    else
      var s1 := Step(s, schedule[0]);
      (if s1.writes > s.writes then [Target(s.calls[schedule[0]])] else []) + WrittenCells(s1, schedule[1..])
  }

  /** For each failure of call i the cell that failed to compare. */
  function FailedCells(s: State, schedule: seq<nat>, i: nat): seq<Cell>
    requires Legal(s, schedule) && i < |s.calls|
    decreases |schedule|
  {
    if schedule == [] then []
    else
      var s1 := Step(s, schedule[0]);
      (if s1.calls[i].failures > s.calls[i].failures then [Target(s.calls[i])] else []) + FailedCells(s1, schedule[1..], i)
  }

  /** When the attempt in progress began, or when the next one can begin at the earliest. */
  function AttemptStart(s: State, i: nat): nat
    requires i < |s.calls|
  {
    match s.calls[i].pc
    case LoadCounter(_) => s.calls[i].since
    case TryExpiration(_) => s.calls[i].since
    case TryIncrement(_) => s.calls[i].since
    case TryDecrement(_) => s.calls[i].since
    case _ => s.writes
  }

  /** The windows follow each other from x on, and none is empty. */
  ghost predicate Follow(ws: seq<(nat, nat)>, x: nat)
  {
    (forall k :: 0 <= k < |ws| ==> x <= ws[k].0 < ws[k].1) && forall j, k :: 0 <= j < k < |ws| ==> ws[j].1 <= ws[k].0
  }

  lemma FollowCons(w: (nat, nat), ws: seq<(nat, nat)>, x: nat)
    requires x <= w.0 < w.1 && Follow(ws, w.1)
    ensures Follow([w] + ws, x)
  {}

  lemma FollowLater(ws: seq<(nat, nat)>, x: nat, y: nat)
    requires Follow(ws, y) && x <= y
    ensures Follow(ws, x)
  {}

  /** One step: a failure closes a window that is not empty, and no attempt begins before it. */
  lemma AttemptStep(s: State, j: nat, i: nat)
    requires Inv(s) && Enabled(s, j) && i < |s.calls|
    ensures |Step(s, j).calls| == |s.calls| && AttemptStart(Step(s, j), i) >= AttemptStart(s, i)
    ensures Step(s, j).calls[i].failures > s.calls[i].failures ==>
              && Step(s, j).calls[i].failures == s.calls[i].failures + 1 && Step(s, j).writes == s.writes
              && AttemptStart(s, i) == s.calls[i].since < s.writes == AttemptStart(Step(s, j), i)
    ensures Step(s, j).calls[i].failures >= s.calls[i].failures && s.writes <= Step(s, j).writes <= s.writes + 1
    ensures Retrying(Step(s, j).calls[i].pc) ==> Retrying(s.calls[i].pc) && !(i == j && Step(s, j).writes > s.writes)
  {
    assert CallOk(s, s.calls[i]);
    assert CallOk(s, s.calls[j]);
  }

  lemma {:induction false} WindowsFollow(s: State, schedule: seq<nat>, i: nat)
    requires Inv(s) && Legal(s, schedule) && i < |s.calls|
    ensures |After(s, schedule).calls| == |s.calls|
    ensures Follow(Windows(s, schedule, i), AttemptStart(s, i))
    ensures |Windows(s, schedule, i)| == After(s, schedule).calls[i].failures - s.calls[i].failures
    ensures forall k :: 0 <= k < |Windows(s, schedule, i)| ==> Windows(s, schedule, i)[k].1 <= s.writes + |Writers(s, schedule)|
    ensures Windows(s, schedule, i) != [] ==> Retrying(s.calls[i].pc)
    decreases |schedule|
  {
    hide Inv, Follow, Step, Enabled, AttemptStart;
    if schedule == [] {
      NoWindows(AttemptStart(s, i));
    } else {
      var j := schedule[0];
      var s1 := Step(s, j);
      InvStep(s, j);
      AttemptStep(s, j, i);
      var rest := Windows(s1, schedule[1..], i);
      WindowsFollow(s1, schedule[1..], i);
      if s1.calls[i].failures > s.calls[i].failures {
        FollowCons((s.calls[i].since, s.writes), rest, AttemptStart(s, i));
        FailingRetries(s, j, i);
      } else {
        assert Windows(s, schedule, i) == rest;
        FollowLater(rest, AttemptStart(s, i), AttemptStart(s1, i));
      }
    }
  }

  lemma NoWindows(x: nat)
    ensures Follow([], x)
  {}

  lemma FailingRetries(s: State, j: nat, i: nat)
    requires Enabled(s, j) && i < |s.calls| && Step(s, j).calls[i].failures > s.calls[i].failures
    ensures Retrying(s.calls[i].pc)
  {}

  /** A call writes only after its last failure. */
  lemma {:induction false} WritesComeLast(s: State, schedule: seq<nat>, i: nat, x: nat, k: nat)
    requires Inv(s) && Legal(s, schedule) && i < |s.calls|
    requires x < |Writers(s, schedule)| && Writers(s, schedule)[x] == i && k < |Windows(s, schedule, i)|
    ensures Windows(s, schedule, i)[k].1 <= s.writes + x
    decreases |schedule|
  {
    hide Inv, Step, Enabled, AttemptStart;
    var j := schedule[0];
    var s1 := Step(s, j);
    InvStep(s, j);
    AttemptStep(s, j, i);
    WindowsFollow(s1, schedule[1..], i);
    var closed := if s1.calls[i].failures > s.calls[i].failures then 1 else 0;
    var wrote := if s1.writes > s.writes then 1 else 0;
    if k >= closed {
      assert Windows(s, schedule, i)[k] == Windows(s1, schedule[1..], i)[k - closed];
      if x >= wrote {
        assert Writers(s, schedule)[x] == Writers(s1, schedule[1..])[x - wrote];
        WritesComeLast(s1, schedule[1..], i, x - wrote, k - closed);
      }
    }
  }

  // ---- the cell that was written ----

  /** Call i is bound for a compare-exchange whose expected value is already out of date. */
  predicate Stale(s: State, i: nat)
    requires i < |s.calls|
  {
    var c := s.calls[i];
    match c.pc
    case LoadCounter(e) => Target(c) == Expiration && s.expiration != e
    case TryExpiration(e) => s.expiration != e
    case TryIncrement(n) => s.counter != n
    case TryDecrement(n) => s.counter != n
    case _ => false
  }

  /** Window k holds a write to the failed cell among the writes from the x-th on, of which cells lists
      the targets. */
  ghost predicate Paid(w: (nat, nat), failed: Cell, x: nat, cells: seq<Cell>)
  {
    exists z :: 0 <= z < |cells| && cells[z] == failed && w.0 <= x + z < w.1
  }

  /** The failures of the rest of a run are paid for in it, but for the first when the call is already
      bound to fail. */
  ghost predicate PaidFor(s: State, i: nat, ws: seq<(nat, nat)>, failed: seq<Cell>, cells: seq<Cell>)
    requires i < |s.calls|
  {
    && |ws| == |failed|
    && forall k :: 0 <= k < |ws| ==>
         || Paid(ws[k], failed[k], s.writes, cells)
         || (k == 0 && Stale(s, i) && failed[0] == Target(s.calls[i]) && ws[0].0 == s.calls[i].since)
  }

  /** A step of call i: a compare-exchange fails only when it is bound to, and one that is bound to fail
      was so before or does so now. */
  lemma OwnStep(s: State, i: nat)
    requires Inv(s) && Enabled(s, i)
    ensures var s1 := Step(s, i);
            && i < |s1.calls|
            && (s1.calls[i].failures > s.calls[i].failures ==> Stale(s, i) && !Stale(s1, i))
            && (Stale(s1, i) ==> Stale(s, i) && Target(s1.calls[i]) == Target(s.calls[i]) && s1.calls[i].since == s.calls[i].since)
  {
    assert CallOk(s, s.calls[i]);
  }

  /** A step of another call: what was up to date goes out of date only by a write to that very cell. */
  lemma OtherStep(s: State, j: nat, i: nat)
    requires Inv(s) && Enabled(s, j) && i < |s.calls| && i != j
    ensures var s1 := Step(s, j);
            && |s1.calls| == |s.calls| && s1.calls[i] == s.calls[i]
            && (Stale(s1, i) && !Stale(s, i) ==>
                  s1.writes == s.writes + 1 && Target(s.calls[j]) == Target(s.calls[i]) && s.calls[i].since <= s.writes)
  {
    assert CallOk(s, s.calls[i]);
  }

  lemma PaidLater(w: (nat, nat), failed: Cell, x: nat, head: seq<Cell>, cells: seq<Cell>)
    requires Paid(w, failed, x + |head|, cells)
    ensures Paid(w, failed, x, head + cells)
  {
    var z :| 0 <= z < |cells| && cells[z] == failed && w.0 <= x + |head| + z < w.1;
    assert (head + cells)[|head| + z] == failed;
  }

  lemma {:induction false} CellsFollow(s: State, schedule: seq<nat>, i: nat)
    requires Inv(s) && Legal(s, schedule) && i < |s.calls|
    ensures PaidFor(s, i, Windows(s, schedule, i), FailedCells(s, schedule, i), WrittenCells(s, schedule))
    decreases |schedule|
  {
    hide Inv, Step, Stale, Target, Paid, AttemptStart;
    if schedule != [] {
      var j := schedule[0];
      var s1 := Step(s, j);
      assert j < |s.calls|;
      hide Enabled;
      InvStep(s, j);
      AttemptStep(s, j, i);
      if i == j { OwnStep(s, i); } else { OtherStep(s, j, i); }
      CellsFollow(s1, schedule[1..], i);
      var ws, failed, cells := Windows(s, schedule, i), FailedCells(s, schedule, i), WrittenCells(s, schedule);
      var ws1, failed1, cells1 := Windows(s1, schedule[1..], i), FailedCells(s1, schedule[1..], i), WrittenCells(s1, schedule[1..]);
      var head := if s1.writes > s.writes then [Target(s.calls[j])] else [];
      var closed := if s1.calls[i].failures > s.calls[i].failures then 1 else 0;
      WindowsEndLater(s1, schedule[1..], i);
      assert |ws| == closed + |ws1| && |failed| == closed + |failed1| && cells == head + cells1;
      assert forall k :: closed <= k < |ws| ==> ws[k] == ws1[k - closed] && failed[k] == failed1[k - closed];
      assert closed == 1 ==> ws[0].0 == s.calls[i].since && failed[0] == Target(s.calls[i]);
      hide Windows, FailedCells, WrittenCells, Legal;
      forall k | 0 <= k < |ws|
        ensures Paid(ws[k], failed[k], s.writes, cells)
             || (k == 0 && Stale(s, i) && failed[0] == Target(s.calls[i]) && ws[0].0 == s.calls[i].since)
      {
        if k >= closed {
          assert ws[k] == ws1[k - closed] && failed[k] == failed1[k - closed];
          if Paid(ws1[k - closed], failed1[k - closed], s1.writes, cells1) {
            PaidLater(ws[k], failed[k], s.writes, head, cells1);
          } else if !Stale(s, i) {
            PaidNow(ws[k], failed[k], s.writes, cells);
          }
        }
      }
    }
  }

  lemma PaidNow(w: (nat, nat), failed: Cell, x: nat, cells: seq<Cell>)
    requires w.0 <= x < w.1 && cells != [] && cells[0] == failed
    ensures Paid(w, failed, x, cells)
  {
    assert cells[0] == failed && w.0 <= x + 0 < w.1;
  }

  lemma {:induction false} WindowsEndLater(s: State, schedule: seq<nat>, i: nat)
    requires Inv(s) && Legal(s, schedule) && i < |s.calls|
    ensures forall k :: 0 <= k < |Windows(s, schedule, i)| ==> Windows(s, schedule, i)[k].1 >= s.writes
    decreases |schedule|
  {
    hide Inv, Step, Enabled, AttemptStart;
    if schedule != [] {
      InvStep(s, schedule[0]);
      AttemptStep(s, schedule[0], i);
      WindowsEndLater(Step(s, schedule[0]), schedule[1..], i);
    }
  }

  /** In any run, whatever the lock held before, the failures of a call are charged to disjoint,
      non-empty stretches of writes, each made during the attempt that failed, none by the call itself,
      and at least one to the cell that failed to compare.  So every failure has a write of its own. */
  lemma FailuresAreCharged(s0: State, schedule: seq<nat>, i: nat)
    requires Init(s0) && Legal(s0, schedule) && i < |s0.calls|
    ensures var s, ws, authors := After(s0, schedule), Windows(s0, schedule, i), Writers(s0, schedule);
            && |s.calls| == |s0.calls| && |authors| == s.writes
            && |ws| == s.calls[i].failures
            && (forall k :: 0 <= k < |ws| ==> ws[k].0 < ws[k].1 <= |authors|)
            && (forall j, k :: 0 <= j < k < |ws| ==> ws[j].1 <= ws[k].0)
            && (forall k, x :: 0 <= k < |ws| && ws[k].0 <= x < ws[k].1 ==> authors[x] != i)
    ensures var ws, failed, cells := Windows(s0, schedule, i), FailedCells(s0, schedule, i), WrittenCells(s0, schedule);
            && |failed| == |ws| && |cells| == |Writers(s0, schedule)|
            && (forall k :: 0 <= k < |ws| ==> Paid(ws[k], failed[k], 0, cells))
  {
    NothingYet(s0.calls);
    assert s0.calls[i] == Begin(s0.calls[i].kind);
    WindowsFollow(s0, schedule, i);
    WritersCount(s0, schedule);
    CellsFollow(s0, schedule, i);
    var ws, authors := Windows(s0, schedule, i), Writers(s0, schedule);
    hide Legal, After, Windows, Writers, FailedCells, WrittenCells, Inv, Paid;
    forall k, x | 0 <= k < |ws| && ws[k].0 <= x < ws[k].1 ensures authors[x] != i {
      if authors[x] == i { WritesComeLast(s0, schedule, i, x, k); }
    }
  }

  lemma {:induction false} WritersCount(s: State, schedule: seq<nat>)
    requires Inv(s) && Legal(s, schedule)
    ensures s.writes + |Writers(s, schedule)| == After(s, schedule).writes && |WrittenCells(s, schedule)| == |Writers(s, schedule)|
    decreases |schedule|
  {
    hide Inv;
    if schedule != [] {
      InvStep(s, schedule[0]);
      WritersCount(Step(s, schedule[0]), schedule[1..]);
    }
  }
}
