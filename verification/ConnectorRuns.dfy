/** Completions against the run itself: which keys were submitted, asked for and answered how is read off
    the actions of a run, not off the recorded history. */
module ConnectorRuns {
  import opened Basics
  import opened Tiling
  import opened Connector
  import opened ConnectorInvariants
  import opened ConnectorCompletions
  import opened ConnectorOutcomes
  import opened ConnectorTheorems

  // ---- what a run does ----

  /** The batches submitted, in order; batch b gets future id b + 1. */
  function Submitted(run: seq<Action>): seq<(Op, seq<string>)>
  {
    if run == [] then [] else (if run[0].Submit? then [(run[0].op, run[0].keys)] else []) + Submitted(run[1..])
  }

  /** The action asks for item k of batch b. */
  predicate Asks(s: State, a: Action, b: nat, k: nat)
  {
    && a.RunKey? && a.w < |s.workers| && s.workers[a.w].Running?
    && s.workers[a.w].req.batch == b && s.workers[a.w].req.start + s.workers[a.w].next == k
  }

  /** The answers given for item k of batch b. */
  function Answers(s: State, run: seq<Action>, b: nat, k: nat): seq<bool>
    requires Legal(s, run)
    decreases |run|
  {
    if run == [] then []
    else (if Asks(s, run[0], b, k) then [run[0].answer] else []) + Answers(Step(s, run[0]), run[1..], b, k)
  }

  // ---- submissions ----

  function Submissions(s: State): seq<(Op, seq<string>)>
  {
    seq(|s.batches|, b requires 0 <= b < |s.batches| => (s.batches[b].op, s.batches[b].keys))
  }

  lemma SubmittedStep(s: State, a: Action)
    requires Enabled(s, a)
    ensures Submissions(Step(s, a)) == Submissions(s) + if a.Submit? then [(a.op, a.keys)] else []
  {
    if a.Submit? {
      hide NumTiles, TileSize, NewHistory;
    } else {
      hide MakeRequest;
      SubmissionsKept(s, a);
    }
  }

  lemma SubmissionsKept(s: State, a: Action)
    requires Enabled(s, a) && !a.Submit?
    ensures Submissions(Step(s, a)) == Submissions(s)
  {
    hide MakeRequest, Put, DoCountDown, DoCheckStop, DoPush, DoRunKey, DoEnqueue, DoTake, DoMarkFailed, DoRecordError;
    match a {
      case CountDown(w) => CountDownSubmissions(s, w);
      case CheckStop(w) => CheckStopSubmissions(s, w);
      case Push(w) => PushSubmissions(s, w);
      case RunKey(w, answer) => RunKeySubmissions(s, w, answer);
      case Enqueue(b) => QueueSubmissions(s, a);
      case Take(w) => QueueSubmissions(s, a);
      case MarkFailed(w) => FailSubmissions(s, a);
      case RecordError(w) => FailSubmissions(s, a);
      case _ =>
    }
  }

  lemma QueueSubmissions(s: State, a: Action)
    requires Enabled(s, a) && (a.Enqueue? || a.Take?)
    ensures Submissions(Step(s, a)) == Submissions(s)
  {
    hide MakeRequest;
  }

  lemma FailSubmissions(s: State, a: Action)
    requires Enabled(s, a) && (a.MarkFailed? || a.RecordError?)
    ensures Submissions(Step(s, a)) == Submissions(s)
  {}

  lemma CountDownSubmissions(s: State, w: nat)
    requires Enabled(s, CountDown(w))
    ensures Submissions(DoCountDown(s, w)) == Submissions(s)
  {}

  lemma CheckStopSubmissions(s: State, w: nat)
    requires Enabled(s, CheckStop(w))
    ensures Submissions(DoCheckStop(s, w)) == Submissions(s)
  {}

  lemma PushSubmissions(s: State, w: nat)
    requires Enabled(s, Push(w))
    ensures Submissions(DoPush(s, w)) == Submissions(s)
  {}

  lemma RunKeySubmissions(s: State, w: nat, answer: bool)
    requires Enabled(s, RunKey(w, answer))
    ensures Submissions(DoRunKey(s, w, answer)) == Submissions(s)
  {}

  lemma {:induction false} SubmittedRun(s: State, run: seq<Action>)
    requires Legal(s, run)
    ensures Submissions(After(s, run)) == Submissions(s) + Submitted(run)
    decreases |run|
  {
    hide Submissions, Step, Enabled;
    if run != [] {
      SubmittedStep(s, run[0]);
      SubmittedRun(Step(s, run[0]), run[1..]);
    }
  }

  /** The worker that asks for item k of batch b asks the key that was submitted there. */
  lemma AskedKeyIsSubmitted(n: nat, run: seq<Action>, w: nat, b: nat, k: nat)
    requires Legal(Init(n), run)
    requires var s := After(Init(n), run); Enabled(s, RunKey(w, true)) && Asks(s, RunKey(w, true), b, k)
    ensures b < |Submitted(run)| && k < |Submitted(run)[b].1|
    ensures var s := After(Init(n), run); s.workers[w].req.keys[s.workers[w].next] == Submitted(run)[b].1[k]
  {
    var s := After(Init(n), run);
    InitInv(n);
    InvRun(Init(n), run);
    SubmittedRun(Init(n), run);
    assert Submissions(Init(n)) == [];
    assert Submissions(s)[b] == (s.batches[b].op, s.batches[b].keys);
    assert RequestAt(s, s.workers[w].req, Held(w));
    hide Inv, Woken, After, Legal, Submitted, Submissions, Init;
  }

  // ---- answers ----

  /** What was answered for item k, by the tiles' records. */
  function AnswerAt(ran: seq<seq<(string, bool)>>, size: nat, k: nat): seq<bool>
  {
    if size >= 1 && k / size < |ran| && k % size < |ran[k / size]| then [ran[k / size][k % size].1] else []
  }

  function StoredAnswer(s: State, b: nat, k: nat): seq<bool>
  {
    if b < |s.batches| && b < |s.hist| then AnswerAt(s.hist[b].ran, s.batches[b].tileSize, k) else []
  }

  lemma AnswerAppend(ran: seq<seq<(string, bool)>>, size: nat, t: nat, entry: (string, bool), k: nat)
    requires t < |ran| && |ran[t]| < size
    ensures AnswerAt(ran[t := ran[t] + [entry]], size, k)
         == AnswerAt(ran, size, k) + if t * size + |ran[t]| == k then [entry.1] else []
  {
    var i := |ran[t]|;
    assert k == k / size * size + k % size;
    if t * size + i == k { TilePositionsUnique(size, t, i, k / size, k % size); }
  }

  lemma AnswerRunKey(s: State, w: nat, answer: bool, b: nat, k: nat)
    requires Inv(s) && Enabled(s, RunKey(w, answer))
    ensures StoredAnswer(DoRunKey(s, w, answer), b, k)
         == StoredAnswer(s, b, k) + if Asks(s, RunKey(w, answer), b, k) then [answer] else []
  {
    hide Inv, AnswerAt, MakeRequest, WorkerAt, BatchOk, BytesOk, TileRan;
    RunsNext(s, w);
    var req := s.workers[w].req;
    AnswerAppend(s.hist[req.batch].ran, s.batches[req.batch].tileSize, req.tile, (req.keys[s.workers[w].next], answer), k);
  }

  /** A running worker stands behind the keys its tile has processed. */
  lemma RunsNext(s: State, w: nat)
    requires Inv(s) && w < |s.workers| && s.workers[w].Running? && s.workers[w].next < |s.workers[w].req.keys|
    ensures var req := s.workers[w].req;
            && Known(s, req.batch, req.tile) && s.workers[w].next == |s.hist[req.batch].ran[req.tile]| < s.batches[req.batch].tileSize
            && req.start == req.tile * s.batches[req.batch].tileSize
  {
    HeldFacts(s, w);
    hide Inv, BatchOk, BytesOk, TileRan;
    ItemsBounded(s.batches[s.workers[w].req.batch], s.workers[w].req.tile);
  }

  /** Batches, tilings and the records of answers and errors stay as they are. */
  ghost predicate SameRecords(s: State, s': State)
  {
    && |s'.batches| == |s.batches| == |s.hist| == |s'.hist|
    && forall c :: 0 <= c < |s.hist| ==>
         && s'.batches[c].tileSize == s.batches[c].tileSize && s'.hist[c].ran == s.hist[c].ran
         && s'.hist[c].errors == s.hist[c].errors && s'.hist[c].recorded == s.hist[c].recorded
  }

  lemma EnqueueRecords(s: State, b: nat)
    requires Enabled(s, Enqueue(b)) && |s.batches| == |s.hist|
    ensures SameRecords(s, DoEnqueue(s, b))
  {
    hide MakeRequest;
  }

  lemma TakeRecords(s: State, w: nat)
    requires Enabled(s, Take(w)) && |s.batches| == |s.hist|
    ensures SameRecords(s, DoTake(s, w))
  {}

  lemma CountDownRecords(s: State, w: nat)
    requires Enabled(s, CountDown(w)) && |s.batches| == |s.hist|
    ensures SameRecords(s, DoCountDown(s, w))
  {}

  lemma PushRecords(s: State, w: nat)
    requires Enabled(s, Push(w)) && |s.batches| == |s.hist|
    ensures SameRecords(s, DoPush(s, w))
  {}

  lemma ReportRecords(s: State, a: Action)
    requires Enabled(s, a) && |s.batches| == |s.hist| && (a.MarkFailed? || a.LoadFailed? || a.ReadError?)
    ensures SameRecords(s, Step(s, a))
  {}

  /** The steps other than Submit, RunKey, CheckStop and RecordError leave the records alone. */
  lemma RecordsKept(s: State, a: Action)
    requires Enabled(s, a) && |s.batches| == |s.hist| && !a.Submit? && !a.RunKey? && !a.CheckStop? && !a.RecordError?
    ensures SameRecords(s, Step(s, a))
  {
    hide MakeRequest, DoEnqueue, DoTake, DoCountDown, DoPush, DoMarkFailed, DoLoadFailed, DoReadError, Report;
    match a {
      case Enqueue(b) => EnqueueRecords(s, b);
      case Take(w) => TakeRecords(s, w);
      case CountDown(w) => CountDownRecords(s, w);
      case Push(w) => PushRecords(s, w);
      case MarkFailed(w) => ReportRecords(s, a);
      case LoadFailed(w) => ReportRecords(s, a);
      case ReadError(w) => ReportRecords(s, a);
      case _ =>
    }
  }

  lemma ErrorAnswers(s: State, a: Action)
    requires Enabled(s, a) && |s.batches| == |s.hist| && (a.CheckStop? || a.RecordError?)
    ensures var s' := Step(s, a);
            && |s'.batches| == |s.batches| && |s'.hist| == |s.hist|
            && forall c :: 0 <= c < |s.hist| ==> s'.batches[c].tileSize == s.batches[c].tileSize && s'.hist[c].ran == s.hist[c].ran
  {}

  lemma AnswerElse(s: State, a: Action, b: nat, k: nat)
    requires Inv(s) && Enabled(s, a) && !a.RunKey?
    ensures StoredAnswer(Step(s, a), b, k) == StoredAnswer(s, b, k)
  {
    assert |s.batches| == |s.hist|;
    hide Inv;
    if a.Submit? {
      NothingAnswered(|s.workers|, a.op, a.keys, k);
      hide AnswerAt, NewBatch, NewHistory;
    } else {
      hide AnswerAt, Step, Enabled;
      if a.CheckStop? || a.RecordError? { ErrorAnswers(s, a); } else { RecordsKept(s, a); }
    }
  }

  lemma NothingAnswered(n: nat, op: Op, keys: seq<string>, k: nat)
    requires 1 <= n && keys != []
    ensures var batch := NewBatch(n, op, keys); AnswerAt(NewHistory(batch.tiles).ran, batch.tileSize, k) == []
  {
    hide NumTiles, TileSize;
  }

  lemma {:induction false} AnswersRun(s: State, run: seq<Action>, b: nat, k: nat)
    requires Inv(s) && Legal(s, run)
    ensures StoredAnswer(After(s, run), b, k) == StoredAnswer(s, b, k) + Answers(s, run, b, k)
    decreases |run|
  {
    hide Inv, StoredAnswer, Step, Enabled, Asks;
    if run != [] {
      InvStep(s, run[0]);
      AnswersRun(Step(s, run[0]), run[1..], b, k);
      if run[0].RunKey? {
        AnswerRunKey(s, run[0].w, run[0].answer, b, k);
        RunKeyStep(s, run[0]);
      } else {
        AnswerElse(s, run[0], b, k);
        NotAsking(s, run[0], b, k);
      }
    }
  }

  lemma RunKeyStep(s: State, a: Action)
    requires Enabled(s, a) && a.RunKey?
    ensures Step(s, a) == DoRunKey(s, a.w, a.answer) && a == RunKey(a.w, a.answer)
  {
    hide DoRunKey;
  }

  lemma NotAsking(s: State, a: Action, b: nat, k: nat)
    requires !a.RunKey?
    ensures !Asks(s, a, b, k)
  {}

  /** What is known of the state a run ends in. */
  lemma RunEnds(n: nat, run: seq<Action>)
    requires Legal(Init(n), run)
    ensures var s := After(Init(n), run); Inv(s) && Woken(s) && Reachable(s) && Submissions(s) == Submitted(run)
  {
    assert Submissions(Init(n)) == [];
    hide Inv, Woken, Submissions, Submitted, Init;
    InitInv(n);
    InvRun(Init(n), run);
    SubmittedRun(Init(n), run);
    hide After, Legal;
  }

  /** In any run, a completion of an EXISTS batch has one byte for each key submitted, and that byte is one
      exactly when the run asked for the key and the answer was yes; of other batches it has no bytes.
      No item is asked for twice, and in an ok completion every one is asked for. */
  lemma AnswersAreReported(n: nat, run: seq<Action>, i: nat, k: nat)
    requires Legal(Init(n), run) && i < |After(Init(n), run).completions|
    ensures var comp := After(Init(n), run).completions[i];
            && 1 <= comp.id <= |Submitted(run)|
            && var (op, keys) := Submitted(run)[comp.id - 1];
               && |comp.bytes| == (if op == BatchExists then |keys| else 0)
               && (k < |keys| ==> |Answers(Init(n), run, comp.id - 1, k)| <= 1)
               && (k < |keys| && comp.ok ==> |Answers(Init(n), run, comp.id - 1, k)| == 1)
               && (k < |comp.bytes| ==> comp.bytes[k] == if Answers(Init(n), run, comp.id - 1, k) == [true] then 1 else 0)
  {
    hide Inv, Woken, Reachable, After, Legal, Submitted, Answers, StoredAnswer, Init;
    var s := After(Init(n), run);
    RunEnds(n, run);
    StoredAreReported(s, i, k);
    var b := s.completions[i].id - 1;
    assert Submissions(s)[b] == (s.batches[b].op, s.batches[b].keys);
    AnswersFromStart(n, run, b, k);
  }

  lemma AnswersFromStart(n: nat, run: seq<Action>, b: nat, k: nat)
    requires Legal(Init(n), run)
    ensures StoredAnswer(After(Init(n), run), b, k) == Answers(Init(n), run, b, k)
  {
    InitInv(n);
    AnswersRun(Init(n), run, b, k);
    assert StoredAnswer(Init(n), b, k) == [];
    hide Inv, Woken, After, Legal, Answers, StoredAnswer, Init;
  }

  /** A completion against the answers its batch has on record. */
  lemma StoredAreReported(s: State, i: nat, k: nat)
    requires Inv(s) && Reachable(s) && i < |s.completions|
    ensures var comp := s.completions[i];
            && 1 <= comp.id <= |s.batches|
            && var batch, stored := s.batches[comp.id - 1], StoredAnswer(s, comp.id - 1, k);
               && |comp.bytes| == (if batch.op == BatchExists then |batch.keys| else 0)
               && (k < |batch.keys| ==> |stored| <= 1)
               && (k < |batch.keys| && comp.ok ==> |stored| == 1)
               && (k < |comp.bytes| ==> comp.bytes[k] == if stored == [true] then 1 else 0)
  {
    CompletedBatch(s, i);
    hide Inv, Reachable, Outcome, BatchShape, StoredAnswer, Answered;
    if k < |s.batches[s.completions[i].id - 1].keys| {
      ExistsAnswersMatchKeys(s, i, k);
      AnsweredIsStored(s, i, k);
    }
  }

  lemma CompletedBatch(s: State, i: nat)
    requires Inv(s) && i < |s.completions|
    ensures 1 <= s.completions[i].id <= |s.batches| == |s.hist|
    ensures var b := s.completions[i].id - 1;
            && Outcome(s.batches[b], s.hist[b], s.completions[i]) && BatchShape(|s.workers|, s.batches[b], s.hist[b])
            && s.batches[b].tileSize >= 1 && |s.batches[b].keys| <= s.batches[b].tiles * s.batches[b].tileSize
            && |s.completions[i].bytes| == if s.batches[b].op == BatchExists then |s.batches[b].keys| else 0
  {
    var b := s.completions[i].id - 1;
    assert ReporterOk(s, b) && BatchOk(s, b);
    assert BatchShape(|s.workers|, s.batches[b], s.hist[b]);
    TilesCover(|s.workers|, |s.batches[b].keys|);
  }

  lemma AnsweredIsStored(s: State, i: nat, k: nat)
    requires Inv(s) && i < |s.completions| && 1 <= s.completions[i].id <= |s.batches| == |s.hist|
    requires var b := s.completions[i].id - 1; k < |s.batches[b].keys| && s.batches[b].tileSize >= 1
    ensures var b := s.completions[i].id - 1; var a := Answered(s.batches[b], s.hist[b], k);
            && StoredAnswer(s, b, k) == (if a == [] then [] else [a[0].1]) && |a| <= 1
            && (a != [] ==> a[0].0 == s.batches[b].keys[k])
  {
    CompletedBatch(s, i);
    hide Inv, BatchOk;
    var b := s.completions[i].id - 1;
    var batch, h := s.batches[b], s.hist[b];
    PositionInTile(batch, k);
    assert TileRan(batch, h, k / batch.tileSize);
  }

  /** A yes in the answers is a step of the run: the worker held a request of the batch and stood at the item. */
  lemma {:induction false} AnswersHave(s: State, run: seq<Action>, b: nat, k: nat, answer: bool)
    requires Legal(s, run)
    ensures answer in Answers(s, run, b, k) <==>
            AnsweredIn(s, run, b, k, answer)
    decreases |run|
  {
    hide Enabled, Step;
    if run != [] {
      var rest := run[1..];
      var s1 := Step(s, run[0]);
      AnswersHave(s1, rest, b, k, answer);
      if Asks(s, run[0], b, k) && run[0].answer == answer {
        FirstAsks(s, run, b, k);
        assert AskedAt(s, run, 0, run[0].w, answer, b, k);
      } else if m: nat, w: nat :| m < |rest| && AskedAt(s1, rest, m, w, answer, b, k) {
        LaterAt(s, run, m);
        assert AskedAt(s, run, m + 1, w, answer, b, k);
      }
      if m: nat, w: nat :| m < |run| && AskedAt(s, run, m, w, answer, b, k) {
        if m > 0 {
          LaterAt(s, run, m - 1);
          assert AskedAt(s1, rest, m - 1, w, answer, b, k);
        } else {
          assert run[..0] == [];
        }
      }
    }
  }

  /** At some step of the run some worker at the item gets the answer. */
  ghost predicate AnsweredIn(s: State, run: seq<Action>, b: nat, k: nat, answer: bool)
  {
    exists m: nat, w: nat :: m < |run| && AskedAt(s, run, m, w, answer, b, k)
  }

  lemma FirstAsks(s: State, run: seq<Action>, b: nat, k: nat)
    requires Legal(s, run) && run != [] && Asks(s, run[0], b, k)
    ensures run[0] == RunKey(run[0].w, run[0].answer) && Legal(s, run[..0]) && After(s, run[..0]) == s
  {}

  /** Step m of the run is RunKey(w, answer), and w then asks for item k of batch b. */
  ghost predicate AskedAt(s: State, run: seq<Action>, m: nat, w: nat, answer: bool, b: nat, k: nat)
    requires m < |run|
  {
    run[m] == RunKey(w, answer) && Legal(s, run[..m]) && Asks(After(s, run[..m]), run[m], b, k)
  }

  lemma LaterAt(s: State, run: seq<Action>, m: nat)
    requires Legal(s, run) && m < |run| - 1
    ensures run[m + 1] == run[1..][m]
    ensures Legal(s, run[..m + 1]) <==> Legal(Step(s, run[0]), run[1..][..m])
    ensures Legal(s, run[..m + 1]) ==> After(s, run[..m + 1]) == After(Step(s, run[0]), run[1..][..m])
  {
    assert run[..m + 1][0] == run[0] && run[..m + 1][1..] == run[1..][..m];
    hide Enabled, Step;
  }

  /** So the byte of key k of an EXISTS completion is one exactly when some step of the run is RunKey(w, true)
      taken while worker w held a request of the batch and stood at item k. */
  lemma ByteIsAnAnswer(n: nat, run: seq<Action>, i: nat, k: nat)
    requires Legal(Init(n), run) && i < |After(Init(n), run).completions| && k < |After(Init(n), run).completions[i].bytes|
    ensures var comp := After(Init(n), run).completions[i];
            && comp.id >= 1
            && (comp.bytes[k] == 1 <==>
                  AnsweredIn(Init(n), run, comp.id - 1, k, true))
  {
    AnswersAreReported(n, run, i, k);
    var comp := After(Init(n), run).completions[i];
    AnswersHave(Init(n), run, comp.id - 1, k, true);
    hide Answers, AnsweredIn, Legal, After, Submitted;
  }
}
