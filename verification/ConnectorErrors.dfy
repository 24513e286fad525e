/** Exceptions against the run itself: what was thrown, recorded and swallowed is read off the actions of a
    run, not off the recorded history. */
module ConnectorErrors {
  import opened Basics
  import opened Tiling
  import opened Connector
  import opened ConnectorInvariants
  import opened ConnectorCompletions
  import opened ConnectorOutcomes
  import opened ConnectorTheorems
  import opened ConnectorRuns

  // ---- what a run does ----

  predicate WorksOn(s: State, w: nat, b: nat)
  {
    w < |s.workers| && Holds(s.workers[w]) && s.workers[w].req.batch == b
  }

  predicate Throws(s: State, a: Action, b: nat) { a.Throw? && WorksOn(s, a.w, b) }

  /** The exceptions thrown by workers on batch b. */
  function Thrown(s: State, run: seq<Action>, b: nat): seq<string>
    requires Legal(s, run)
    decreases |run|
  {
    if run == [] then []
    else (if Throws(s, run[0], b) then [run[0].what] else []) + Thrown(Step(s, run[0]), run[1..], b)
  }

  /** What each worker threw last. */
  type LastThrown = map<nat, string>

  function NextLast(last: LastThrown, a: Action): LastThrown
  {
    if a.Throw? then last[a.w := a.what] else last
  }

  function WhatOf(last: LastThrown, w: nat): string
  {
    if w in last then last[w] else ""
  }

  predicate Records(s: State, a: Action, b: nat) { a.RecordError? && WorksOn(s, a.w, b) }

  /** The worker reads stop_ as set after an exception on batch b. */
  predicate Swallows(s: State, a: Action, b: nat) { a.CheckStop? && s.stop && WorksOn(s, a.w, b) }

  /** The exceptions that went through the error section of batch b, in that order. */
  function Recorded(s: State, run: seq<Action>, b: nat, last: LastThrown): seq<string>
    requires Legal(s, run)
    decreases |run|
  {
    if run == [] then []
    else
      (if Records(s, run[0], b) then [WhatOf(last, run[0].w)] else [])
      + Recorded(Step(s, run[0]), run[1..], b, NextLast(last, run[0]))
  }

  /** The exceptions on batch b that a shutdown swallowed. */
  function Swallowed(s: State, run: seq<Action>, b: nat, last: LastThrown): seq<string>
    requires Legal(s, run)
    decreases |run|
  {
    if run == [] then []
    else
      (if Swallows(s, run[0], b) then [WhatOf(last, run[0].w)] else [])
      + Swallowed(Step(s, run[0]), run[1..], b, NextLast(last, run[0]))
  }

  // ---- in flight ----

  /** Whether a worker on batch b carries the exception e to the error section. */
  function Carried(pc: Worker, b: nat, e: string): nat
  {
    if Carries(pc) && pc.req.batch == b && pc.error == e then 1 else 0
  }

  function Pending(workers: seq<Worker>, b: nat, e: string): nat
  {
    if workers == [] then 0 else Carried(workers[0], b, e) + Pending(workers[1..], b, e)
  }

  lemma {:induction false} PendingUpdate(workers: seq<Worker>, w: nat, pc: Worker, b: nat, e: string)
    requires w < |workers|
    ensures Pending(workers[w := pc], b, e) + Carried(workers[w], b, e) == Pending(workers, b, e) + Carried(pc, b, e)
  {
    hide Carried;
    if w == 0 {
      assert workers[0 := pc][1..] == workers[1..];
    } else {
      assert workers[w := pc][1..] == workers[1..][w - 1 := pc];
      PendingUpdate(workers[1..], w - 1, pc, b, e);
    }
  }

  lemma {:induction false} NonePending(workers: seq<Worker>, b: nat, e: string)
    requires forall w :: 0 <= w < |workers| ==> Carried(workers[w], b, e) == 0
    ensures Pending(workers, b, e) == 0
  {
    if workers != [] { NonePending(workers[1..], b, e); }
  }

  /** Every exception in flight is the last one its worker threw. */
  ghost predicate LastOk(s: State, last: LastThrown)
  {
    forall w :: 0 <= w < |s.workers| && Carries(s.workers[w]) ==>
      w in last && last[w] == s.workers[w].error
  }

  predicate Carries(pc: Worker) { pc.Caught? || pc.Failed? || pc.Recording? }

  /** Where a worker gets the exception it carries, and where it leaves it. */
  lemma CarrierStep(s: State, a: Action)
    requires Enabled(s, a) && OnWorker(a)
    ensures a.w < |s.workers| && |Step(s, a).workers| == |s.workers|
    ensures var pc, pc' := s.workers[a.w], Step(s, a).workers[a.w];
            && (Carries(pc') ==>
                  || (a.Throw? && Holds(pc) && !Carries(pc) && pc'.error == a.what && pc'.req == pc.req)
                  || (!a.Throw? && !a.RecordError? && Carries(pc) && pc'.error == pc.error && pc'.req == pc.req))
            && (Carries(pc') && a.CheckStop? ==> !s.stop)
            && (Carries(pc) && !Carries(pc') ==> a.RecordError? || (a.CheckStop? && s.stop))
            && (a.RecordError? || a.CheckStop? ==> Carries(pc)) && (a.Throw? ==> Carries(pc'))
  {
    hide Put, MakeRequest;
  }

  predicate OnWorker(a: Action) { !(a.Submit? || a.Enqueue? || a.Close? || a.StartDrain? || a.ReadFd? || a.Pop?) }

  lemma LastStep(s: State, a: Action, last: LastThrown)
    requires LastOk(s, last) && Enabled(s, a)
    ensures LastOk(Step(s, a), NextLast(last, a))
  {
    if OnWorker(a) {
      CarrierStep(s, a);
      OneWorkerMoves(s, a);
    } else {
      SameWorkers(s, a);
    }
    hide Step, Enabled;
  }

  function One(c: bool): nat { if c then 1 else 0 }

  /** What comes in with a throw goes out through the error section or in a shutdown. */
  lemma PendingStep(s: State, a: Action, b: nat, last: LastThrown, e: string)
    requires LastOk(s, last) && Enabled(s, a)
    ensures Pending(Step(s, a).workers, b, e)
            + One(Records(s, a, b) && WhatOf(last, a.w) == e) + One(Swallows(s, a, b) && WhatOf(last, a.w) == e)
            == Pending(s.workers, b, e) + One(Throws(s, a, b) && a.what == e)
  {
    var s' := Step(s, a);
    if !OnWorker(a) {
      SameWorkers(s, a);
    } else {
      OneWorkerMoves(s, a);
      PendingUpdate(s.workers, a.w, s'.workers[a.w], b, e);
      CarriedStep(s, a, b, last, e);
      hide Pending, Carried, Step, Enabled, LastOk;
    }
  }

  lemma SameWorkers(s: State, a: Action)
    requires Enabled(s, a) && !OnWorker(a)
    ensures Step(s, a).workers == s.workers
  {
    hide NewBatch, NewHistory, MakeRequest;
  }

  lemma OneWorkerMoves(s: State, a: Action)
    requires Enabled(s, a) && OnWorker(a)
    ensures a.w < |s.workers| && |Step(s, a).workers| == |s.workers|
    ensures Step(s, a).workers == s.workers[a.w := Step(s, a).workers[a.w]]
  {
    hide Put;
  }

  lemma CarriedStep(s: State, a: Action, b: nat, last: LastThrown, e: string)
    requires LastOk(s, last) && Enabled(s, a) && OnWorker(a)
    requires a.w < |s.workers| == |Step(s, a).workers|
    ensures Carried(Step(s, a).workers[a.w], b, e)
            + One(Records(s, a, b) && WhatOf(last, a.w) == e) + One(Swallows(s, a, b) && WhatOf(last, a.w) == e)
            == Carried(s.workers[a.w], b, e) + One(Throws(s, a, b) && a.what == e)
  {
    CarrierStep(s, a);
    hide Step, Enabled;
  }

  lemma {:induction false} ThrownRun(s: State, run: seq<Action>, b: nat, last: LastThrown, e: string)
    requires LastOk(s, last) && Legal(s, run)
    ensures Pending(After(s, run).workers, b, e) + Count(Recorded(s, run, b, last), e) + Count(Swallowed(s, run, b, last), e)
            == Pending(s.workers, b, e) + Count(Thrown(s, run, b), e)
    decreases |run|
  {
    hide LastOk, Pending, Step, Enabled, WhatOf, Count;
    if run == [] {
      CountNone(e);
    } else {
      var a, s1 := run[0], Step(s, run[0]);
      LastStep(s, a, last);
      PendingStep(s, a, b, last, e);
      ThrownRun(s1, run[1..], b, NextLast(last, a), e);
      var recorded, swallowed := Recorded(s1, run[1..], b, NextLast(last, a)), Swallowed(s1, run[1..], b, NextLast(last, a));
      var thrown := Thrown(s1, run[1..], b);
      if Records(s, a, b) { CountCons(WhatOf(last, a.w), recorded, e); } else { assert [] + recorded == recorded; }
      if Swallows(s, a, b) { CountCons(WhatOf(last, a.w), swallowed, e); } else { assert [] + swallowed == swallowed; }
      if Throws(s, a, b) { CountCons(a.what, thrown, e); } else { assert [] + thrown == thrown; }
    }
  }

  function Count(texts: seq<string>, e: string): nat { multiset(texts)[e] }

  lemma CountNone(e: string)
    ensures Count([], e) == 0
  {}

  lemma CountCons(text: string, texts: seq<string>, e: string)
    ensures Count([text] + texts, e) == Count(texts, e) + One(text == e)
  {}

  // ---- the error section ----

  function Texts(h: History): seq<string>
  {
    seq(|h.recorded|, i requires 0 <= i < |h.recorded| => if h.recorded[i] in h.errors then h.errors[h.recorded[i]] else "")
  }

  /** The texts of the recorded errors of batch b, in order. */
  function RecordedTexts(s: State, b: nat): seq<string>
  {
    if b < |s.hist| then Texts(s.hist[b]) else []
  }

  lemma TextsAppend(h: History, t: nat)
    requires t in h.errors
    ensures Texts(h.(recorded := h.recorded + [t])) == Texts(h) + [h.errors[t]]
  {}

  lemma TextsKept(h: History, t: nat, e: string)
    requires t !in h.recorded
    ensures Texts(h.(errors := h.errors[t := e])) == Texts(h)
  {
    assert forall i :: 0 <= i < |h.recorded| ==> h.recorded[i] in h.recorded;
  }

  lemma RecordedAtError(s: State, w: nat, b: nat, last: LastThrown)
    requires Inv(s) && LastOk(s, last) && Enabled(s, RecordError(w))
    ensures RecordedTexts(DoRecordError(s, w), b)
         == RecordedTexts(s, b) + if Records(s, RecordError(w), b) then [WhatOf(last, w)] else []
  {
    HeldFacts(s, w);
    var req := s.workers[w].req;
    assert req.tile in s.hist[req.batch].errors && s.hist[req.batch].errors[req.tile] == s.workers[w].error;
    hide Inv, Texts, BatchOk, TileRan, BytesOk, WorkerAt;
    TextsAppend(s.hist[req.batch], req.tile);
  }

  lemma RecordedAtStop(s: State, w: nat, b: nat)
    requires Inv(s) && Enabled(s, CheckStop(w))
    ensures RecordedTexts(DoCheckStop(s, w), b) == RecordedTexts(s, b)
  {
    HeldFacts(s, w);
    var req := s.workers[w].req;
    assert req.tile !in s.hist[req.batch].errors;
    assert req.tile !in s.hist[req.batch].recorded;
    hide Inv, Texts, BatchOk, TileRan, BytesOk, WorkerAt;
    TextsKept(s.hist[req.batch], req.tile, s.workers[w].error);
    TextsOfMove(s.hist[req.batch], s.hist[req.batch].places[req.tile := Lost]);
  }

  lemma TextsOfMove(h: History, places: seq<Place>)
    ensures Texts(h.(places := places)) == Texts(h)
  {}

  lemma RunKeyErrors(s: State, w: nat, answer: bool)
    requires Enabled(s, RunKey(w, answer)) && |s.batches| == |s.hist|
    ensures var s' := DoRunKey(s, w, answer);
            && |s'.hist| == |s.hist|
            && forall c :: 0 <= c < |s.hist| ==> s'.hist[c].errors == s.hist[c].errors && s'.hist[c].recorded == s.hist[c].recorded
  {}

  lemma RecordedElse(s: State, a: Action, b: nat)
    requires Inv(s) && Enabled(s, a) && !a.RecordError? && !a.CheckStop?
    ensures RecordedTexts(Step(s, a), b) == RecordedTexts(s, b)
  {
    assert |s.batches| == |s.hist|;
    hide Inv;
    if a.Submit? {
      assert Texts(NewHistory(NewBatch(|s.workers|, a.op, a.keys).tiles)) == [];
      hide NewBatch, NewHistory, Texts;
    } else {
      hide Enabled, DoRunKey;
      if a.RunKey? { RunKeyErrors(s, a.w, a.answer); } else { RecordsKept(s, a); hide Step; }
    }
  }

  lemma RecordedStep(s: State, a: Action, b: nat, last: LastThrown)
    requires Inv(s) && LastOk(s, last) && Enabled(s, a)
    ensures RecordedTexts(Step(s, a), b)
         == RecordedTexts(s, b) + if Records(s, a, b) then [WhatOf(last, a.w)] else []
  {
    hide Inv, LastOk, RecordedTexts, DoRecordError, DoCheckStop, WhatOf;
    match a {
      case RecordError(w) => RecordedAtError(s, w, b, last);
      case CheckStop(w) => RecordedAtStop(s, w, b);
      case _ => RecordedElse(s, a, b);
    }
  }

  lemma {:induction false} RecordedRun(s: State, run: seq<Action>, b: nat, last: LastThrown)
    requires Inv(s) && LastOk(s, last) && Legal(s, run)
    ensures RecordedTexts(After(s, run), b) == RecordedTexts(s, b) + Recorded(s, run, b, last)
    decreases |run|
  {
    hide Inv, LastOk, RecordedTexts, Step, Enabled, WhatOf;
    if run != [] {
      InvStep(s, run[0]);
      LastStep(s, run[0], last);
      RecordedStep(s, run[0], b, last);
      RecordedRun(Step(s, run[0]), run[1..], b, NextLast(last, run[0]));
    }
  }

  // ---- lost tiles ----

  predicate LostAt(s: State, b: nat, t: nat)
  {
    b < |s.hist| && t < |s.hist[b].places| && s.hist[b].places[t] == Lost
  }

  /** A tile of batch b was lost to a shutdown. */
  ghost predicate HasLost(s: State, b: nat) { exists t: nat :: LostAt(s, b, t) }

  /** A lost tile stays lost, and a worker that swallows an exception loses its tile. */
  lemma LostStep(s: State, a: Action, b: nat)
    requires Inv(s) && Enabled(s, a) && (HasLost(s, b) || Swallows(s, a, b))
    ensures HasLost(Step(s, a), b)
  {
    hide Inv;
    if Swallows(s, a, b) {
      HeldFacts(s, a.w);
      hide BatchOk, TileRan, BytesOk, WorkerAt;
      assert LostAt(Step(s, a), b, s.workers[a.w].req.tile);
    } else {
      var t: nat :| LostAt(s, b, t);
      StaysLost(s, a, b, t);
    }
  }

  lemma StaysLost(s: State, a: Action, b: nat, t: nat)
    requires Inv(s) && Enabled(s, a) && LostAt(s, b, t)
    ensures LostAt(Step(s, a), b, t)
  {
    assert |s.batches| == |s.hist| && Located(s);
    hide Inv;
    match a {
      case Enqueue(c) => LostAtEnqueue(s, c, b, t);
      case Take(w) => LostAtTake(s, w, b, t);
      case CheckStop(w) => LostAtHeld(s, a, b, t);
      case CountDown(w) => LostAtHeld(s, a, b, t);
      case _ => PlacesKept(s, a, b);
    }
  }

  lemma LostAtEnqueue(s: State, c: nat, b: nat, t: nat)
    requires Located(s) && Enabled(s, Enqueue(c)) && LostAt(s, b, t)
    ensures LostAt(DoEnqueue(s, c), b, t)
  {
    EnqueueShape(s, c);
    hide Located, MakeRequest;
  }

  lemma LostAtTake(s: State, w: nat, b: nat, t: nat)
    requires Located(s) && Enabled(s, Take(w)) && LostAt(s, b, t)
    ensures LostAt(DoTake(s, w), b, t)
  {
    assert RequestAt(s, s.queue[0], Queued);
    hide Located, MakeRequest;
  }

  lemma LostAtHeld(s: State, a: Action, b: nat, t: nat)
    requires Inv(s) && Enabled(s, a) && (a.CheckStop? || a.CountDown?) && LostAt(s, b, t)
    ensures LostAt(Step(s, a), b, t)
  {
    HeldFacts(s, a.w);
    hide Inv, BatchOk, TileRan, BytesOk, WorkerAt, MakeRequest;
  }

  lemma PlacesKept(s: State, a: Action, b: nat)
    requires Enabled(s, a) && |s.batches| == |s.hist| && b < |s.hist|
    requires !a.Enqueue? && !a.Take? && !a.CheckStop? && !a.CountDown?
    ensures b < |Step(s, a).hist| && Step(s, a).hist[b].places == s.hist[b].places
  {
    hide NewBatch, NewHistory, Put;
  }

  lemma {:induction false} LostRun(s: State, run: seq<Action>, b: nat, last: LastThrown)
    requires Inv(s) && Legal(s, run) && (HasLost(s, b) || Swallowed(s, run, b, last) != [])
    ensures HasLost(After(s, run), b)
    decreases |run|
  {
    hide Inv, HasLost, Step, Enabled, Swallows;
    if run != [] {
      InvStep(s, run[0]);
      if HasLost(s, b) || Swallows(s, run[0], b) { LostStep(s, run[0], b); }
      LostRun(Step(s, run[0]), run[1..], b, NextLast(last, run[0]));
    }
  }

  // ---- completions ----

  /** e is the first text that is not empty, or empty when all are. */
  ghost predicate FirstText(texts: seq<string>, e: string)
  {
    if e == "" then forall k :: 0 <= k < |texts| ==> texts[k] == ""
    else exists k :: 0 <= k < |texts| && texts[k] == e && forall m :: 0 <= m < k ==> texts[m] == ""
  }

  /** In any run, a completion is ok exactly when no worker threw on its batch.  All that was thrown on the
      batch then went through its error section, nothing was swallowed by a shutdown, and the completion
      carries the first text recorded there that is not empty. */
  lemma ErrorsAreReported(n: nat, run: seq<Action>, i: nat)
    requires Legal(Init(n), run) && i < |After(Init(n), run).completions|
    ensures var comp := After(Init(n), run).completions[i];
            && comp.id >= 1
            && var b := comp.id - 1; var recorded := Recorded(Init(n), run, b, map[]);
               && (comp.ok <==> Thrown(Init(n), run, b) == [])
               && Swallowed(Init(n), run, b, map[]) == []
               && multiset(recorded) == multiset(Thrown(Init(n), run, b))
               && FirstText(recorded, comp.error)
  {
    hide Inv, Woken, Reachable, After, Legal, Recorded, Swallowed, Thrown, Init, Pending, FirstText, RecordedTexts, HasLost;
    var s := After(Init(n), run);
    RunEnds(n, run);
    CompletionTexts(s, i);
    var b := s.completions[i].id - 1;
    FromStart(n, run, b);
    assert Swallowed(Init(n), run, b, map[]) == [];
    forall e ensures multiset(RecordedTexts(s, b))[e] == multiset(Thrown(Init(n), run, b))[e] {
      FinishedBatch(s, i, e);
      ThrownFromStart(n, run, b, e);
      assert Count([], e) == 0;
    }
    assert multiset(RecordedTexts(s, b)) == multiset(Thrown(Init(n), run, b));
    assert |multiset(RecordedTexts(s, b))| == |multiset(Thrown(Init(n), run, b))|;
  }

  lemma FromStart(n: nat, run: seq<Action>, b: nat)
    requires Legal(Init(n), run)
    ensures RecordedTexts(After(Init(n), run), b) == Recorded(Init(n), run, b, map[])
    ensures Swallowed(Init(n), run, b, map[]) != [] ==> HasLost(After(Init(n), run), b)
  {
    InitInv(n);
    assert LastOk(Init(n), map[]) && RecordedTexts(Init(n), b) == [];
    hide Inv, LastOk, RecordedTexts, HasLost;
    RecordedRun(Init(n), run, b, map[]);
    if Swallowed(Init(n), run, b, map[]) != [] { LostRun(Init(n), run, b, map[]); }
  }

  lemma ThrownFromStart(n: nat, run: seq<Action>, b: nat, e: string)
    requires Legal(Init(n), run)
    ensures Pending(After(Init(n), run).workers, b, e)
            + Count(Recorded(Init(n), run, b, map[]), e) + Count(Swallowed(Init(n), run, b, map[]), e)
            == Count(Thrown(Init(n), run, b), e)
  {
    NonePending(Init(n).workers, b, e);
    assert LastOk(Init(n), map[]);
    ThrownRun(Init(n), run, b, map[], e);
  }

  /** A completion against the errors its batch has on record. */
  lemma CompletionTexts(s: State, i: nat)
    requires Inv(s) && Reachable(s) && i < |s.completions|
    ensures 1 <= s.completions[i].id <= |s.hist|
    ensures var comp, texts := s.completions[i], RecordedTexts(s, s.completions[i].id - 1);
            (comp.ok <==> texts == []) && FirstText(texts, comp.error) && !HasLost(s, comp.id - 1)
  {
    CompletionTellsOutcome(s, i);
    CompletedBatch(s, i);
    hide Inv, Reachable, BatchShape, RanOk, BytesOk, FirstText, FirstError;
    var b := s.completions[i].id - 1;
    FirstErrorText(s, b, s.completions[i].error);
    var h := s.hist[b];
    if h.errors != map[] {
      var t :| t in h.errors;
      assert t in h.recorded;
    }
    if h.recorded != [] { assert h.recorded[0] in h.recorded; }
  }

  /** Once a batch is reported nobody carries an exception on it. */
  lemma FinishedBatch(s: State, i: nat, e: string)
    requires Inv(s) && i < |s.completions| && 1 <= s.completions[i].id <= |s.hist|
    ensures Pending(s.workers, s.completions[i].id - 1, e) == 0
  {
    var b := s.completions[i].id - 1;
    assert Located(s) && Reported(s) && ReporterOk(s, b);
    hide Inv, Located;
    forall w | 0 <= w < |s.workers| ensures Carried(s.workers[w], b, e) == 0 {
      if Holds(s.workers[w]) { HeldIsCounting(s, w); }
    }
    NonePending(s.workers, b, e);
  }

  lemma FirstErrorText(s: State, b: nat, e: string)
    requires b < |s.hist| && (forall t :: t in s.hist[b].recorded ==> t in s.hist[b].errors)
    requires FirstError(s.hist[b].recorded, s.hist[b].errors, e)
    ensures FirstText(RecordedTexts(s, b), e)
  {
    var h, texts := s.hist[b], RecordedTexts(s, b);
    forall k | 0 <= k < |h.recorded| ensures texts[k] == h.errors[h.recorded[k]] { assert h.recorded[k] in h.recorded; }
    if e == "" {
      forall k | 0 <= k < |texts| ensures texts[k] == "" { assert h.recorded[k] in h.recorded; }
    } else {
      var k :| 0 <= k < |h.recorded| && h.errors[h.recorded[k]] == e && (forall m :: 0 <= m < k ==> h.errors[h.recorded[m]] == "");
      assert texts[k] == e;
    }
  }

  /** A batch one of whose exceptions a shutdown swallowed is never reported. */
  lemma SwallowedIsNotReported(n: nat, run: seq<Action>, b: nat, i: nat)
    requires Legal(Init(n), run) && Swallowed(Init(n), run, b, map[]) != [] && i < |After(Init(n), run).completions|
    ensures After(Init(n), run).completions[i].id != b + 1
  {
    hide Legal, After, Init, Swallowed, Thrown, Recorded, FirstText;
    ErrorsAreReported(n, run, i);
  }
}
