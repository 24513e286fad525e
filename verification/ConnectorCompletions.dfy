/** Who reports each batch, what the completion says, and the eventfd protocol. */
module ConnectorCompletions {
  import opened Tiling
  import opened Connector
  import opened ConnectorInvariants

  // ---- one reporter per batch ----

  ghost predicate ReporterOk(s: State, b: nat)
    requires |s.hist| == |s.batches| && b < |s.batches|
  {
    match s.hist[b].reporter
    case Counting => s.batches[b].remaining > 0
    case ReportedBy(w) =>
      s.batches[b].remaining == 0 && w < |s.workers| && Reports(s.workers[w]) && s.workers[w].batch == b
    case Published(i) =>
      s.batches[b].remaining == 0 && i < |s.completions| && s.completions[i].id == b + 1
  }

  ghost predicate Reported(s: State)
  {
    && |s.hist| == |s.batches|
    && s.taken <= |s.completions|
    && (forall b :: 0 <= b < |s.batches| ==> ReporterOk(s, b))
    && (forall w :: 0 <= w < |s.workers| && Reports(s.workers[w]) ==>
          s.workers[w].batch < |s.hist| && s.hist[s.workers[w].batch].reporter == ReportedBy(w))
    && (forall w :: 0 <= w < |s.workers| && s.workers[w].Emitting? ==> s.workers[w].comp.id == s.workers[w].batch + 1)
    && (forall i :: 0 <= i < |s.completions| ==>
          1 <= s.completions[i].id <= |s.hist| && s.hist[s.completions[i].id - 1].reporter == Published(i))
  }

  /** The steps that neither count a tile down nor push a completion. */
  lemma ReportedStay(s: State, s': State)
    requires Reported(s)
    requires |s'.workers| == |s.workers| && s'.completions == s.completions && s.taken <= s'.taken <= |s.completions|
    requires |s.hist| == |s'.hist| == |s'.batches|
    requires forall b :: 0 <= b < |s.batches| ==> s'.hist[b].reporter == s.hist[b].reporter && s'.batches[b].remaining == s.batches[b].remaining
    requires forall w :: 0 <= w < |s.workers| ==>
               && (Reports(s'.workers[w]) <==> Reports(s.workers[w]))
               && (Reports(s.workers[w]) ==> s'.workers[w].batch == s.workers[w].batch)
               && (s'.workers[w].Emitting? ==> s'.workers[w].comp.id == s'.workers[w].batch + 1)
    ensures Reported(s')
  {
    forall b | 0 <= b < |s'.batches| ensures ReporterOk(s', b) { assert ReporterOk(s, b); }
  }

  /** A batch with a tile still held by a worker is not yet reported. */
  lemma HeldIsCounting(s: State, w: nat)
    requires Located(s) && Reported(s) && w < |s.workers| && Holds(s.workers[w])
    ensures Known(s, s.workers[w].req.batch, s.workers[w].req.tile)
    ensures s.batches[s.workers[w].req.batch].remaining > 0 && s.hist[s.workers[w].req.batch].reporter == Counting
  {
    var req := s.workers[w].req;
    assert RequestAt(s, req, Held(w));
    assert BatchShape(|s.workers|, s.batches[req.batch], s.hist[req.batch]);
    NotDoneAll(s.hist[req.batch].places);
    assert ReporterOk(s, req.batch);
  }

  lemma CountDownKeepsReporter(s: State, w: nat, b: nat)
    requires Reported(s) && Enabled(s, CountDown(w)) && b < |s.batches|
    requires s.batches[s.workers[w].req.batch].remaining > 0
    ensures ReporterOk(DoCountDown(s, w), b)
  {
    assert ReporterOk(s, b);
  }

  lemma ReportedCountDown(s: State, w: nat)
    requires Located(s) && Reported(s) && Enabled(s, CountDown(w))
    ensures Reported(DoCountDown(s, w))
  {
    HeldIsCounting(s, w);
    var s' := DoCountDown(s, w);
    forall b | 0 <= b < |s'.batches| ensures ReporterOk(s', b) { CountDownKeepsReporter(s, w, b); }
    CountDownLinks(s, w);
  }

  lemma CountDownLinks(s: State, w: nat)
    requires Reported(s) && Enabled(s, CountDown(w))
    requires s.hist[s.workers[w].req.batch].reporter == Counting
    ensures var s' := DoCountDown(s, w);
            && (forall v :: 0 <= v < |s'.workers| && Reports(s'.workers[v]) ==>
                  s'.workers[v].batch < |s'.hist| && s'.hist[s'.workers[v].batch].reporter == ReportedBy(v))
            && (forall i :: 0 <= i < |s'.completions| ==>
                  1 <= s'.completions[i].id <= |s'.hist| && s'.hist[s'.completions[i].id - 1].reporter == Published(i))
  {}

  lemma PushKeepsReporter(s: State, w: nat, b: nat)
    requires Reported(s) && Enabled(s, Push(w)) && b < |s.batches|
    ensures ReporterOk(DoPush(s, w), b)
  {
    assert ReporterOk(s, b);
  }

  lemma ReportedPush(s: State, w: nat)
    requires Reported(s) && Enabled(s, Push(w))
    ensures Reported(DoPush(s, w))
  {
    forall b | 0 <= b < |s.batches| ensures ReporterOk(DoPush(s, w), b) { PushKeepsReporter(s, w, b); }
    PushLinks(s, w);
    hide ReporterOk;
  }

  /** The pushed batch was reported by w alone, so no other link is to it. */
  lemma PushLinks(s: State, w: nat)
    requires Reported(s) && Enabled(s, Push(w))
    ensures var s' := DoPush(s, w);
            && (forall v :: 0 <= v < |s'.workers| && Reports(s'.workers[v]) ==>
                  s'.workers[v].batch < |s'.hist| && s'.hist[s'.workers[v].batch].reporter == ReportedBy(v))
            && (forall i :: 0 <= i < |s'.completions| ==>
                  1 <= s'.completions[i].id <= |s'.hist| && s'.hist[s'.completions[i].id - 1].reporter == Published(i))
  {
    hide ReporterOk;
  }

  lemma ReportedSubmit(s: State, op: Op, keys: seq<string>)
    requires Reported(s) && Enabled(s, Submit(op, keys))
    ensures Reported(DoSubmit(s, op, keys))
  {
    var s' := DoSubmit(s, op, keys);
    TilesCover(|s.workers|, |keys|);
    forall b | 0 <= b < |s'.batches| ensures ReporterOk(s', b) { if b < |s.batches| { assert ReporterOk(s, b); } }
  }

  lemma ReportedEnqueue(s: State, b: nat)
    requires Reported(s) && Enabled(s, Enqueue(b))
    ensures Reported(DoEnqueue(s, b))
  {
    ReportedStay(s, DoEnqueue(s, b));
  }

  lemma ReportedTake(s: State, w: nat)
    requires Reported(s) && Enabled(s, Take(w))
    ensures Reported(DoTake(s, w))
  {
    ReportedStay(s, DoTake(s, w));
  }

  lemma ReportedRunKey(s: State, w: nat, answer: bool)
    requires Reported(s) && Enabled(s, RunKey(w, answer))
    ensures Reported(DoRunKey(s, w, answer))
  {
    ReportedStay(s, DoRunKey(s, w, answer));
  }

  lemma ReportedCheckStop(s: State, w: nat)
    requires Reported(s) && Enabled(s, CheckStop(w))
    ensures Reported(DoCheckStop(s, w))
  {
    ReportedStay(s, DoCheckStop(s, w));
  }

  lemma ReportedMarkFailed(s: State, w: nat)
    requires Reported(s) && Enabled(s, MarkFailed(w))
    ensures Reported(DoMarkFailed(s, w))
  {
    ReportedStay(s, DoMarkFailed(s, w));
  }

  lemma ReportedRecordError(s: State, w: nat)
    requires Reported(s) && Enabled(s, RecordError(w))
    ensures Reported(DoRecordError(s, w))
  {
    ReportedStay(s, DoRecordError(s, w));
  }

  lemma ReportedLoadFailed(s: State, w: nat)
    requires Reported(s) && Enabled(s, LoadFailed(w))
    ensures Reported(DoLoadFailed(s, w))
  {
    ReportedStay(s, DoLoadFailed(s, w));
  }

  lemma ReportedReadError(s: State, w: nat)
    requires Reported(s) && Enabled(s, ReadError(w))
    ensures Reported(DoReadError(s, w))
  {
    ReportedStay(s, DoReadError(s, w));
  }

  lemma ReportedPcOnly(s: State, a: Action)
    requires Reported(s) && Enabled(s, a) && PcOnly(a)
    ensures Reported(Step(s, a))
  {
    ReportedStay(s, Step(s, a));
  }

  lemma ReportedElse(s: State, a: Action)
    requires Reported(s) && Enabled(s, a) && (a.Close? || a.StartDrain? || a.ReadFd? || a.Pop?)
    ensures Reported(Step(s, a))
  {
    ReportedStay(s, Step(s, a));
  }

  lemma ReportedTile(s: State, a: Action)
    requires Located(s) && Reported(s) && Enabled(s, a)
    requires a.RunKey? || a.CheckStop? || a.MarkFailed? || a.RecordError? || a.CountDown?
    ensures Reported(Step(s, a))
  {
    hide Located, Reported, Enabled, DoSubmit, DoEnqueue, DoTake, DoRunKey, DoCheckStop, DoMarkFailed, DoRecordError,
         DoCountDown, DoLoadFailed, DoReadError, DoPush, DoExchange, DoWriteFd, DoReadFd, DoPop, Goto;
    match a {
      case RunKey(w, answer) => ReportedRunKey(s, w, answer);
      case CheckStop(w) => ReportedCheckStop(s, w);
      case MarkFailed(w) => ReportedMarkFailed(s, w);
      case RecordError(w) => ReportedRecordError(s, w);
      case CountDown(w) => ReportedCountDown(s, w);
    }
  }

  lemma ReportedReport(s: State, a: Action)
    requires Located(s) && Reported(s) && Enabled(s, a) && (a.LoadFailed? || a.ReadError? || a.Push?)
    ensures Reported(Step(s, a))
  {
    hide Located, Reported, Enabled, DoSubmit, DoEnqueue, DoTake, DoRunKey, DoCheckStop, DoMarkFailed, DoRecordError,
         DoCountDown, DoLoadFailed, DoReadError, DoPush, DoExchange, DoWriteFd, DoReadFd, DoPop, Goto;
    match a {
      case LoadFailed(w) => ReportedLoadFailed(s, w);
      case ReadError(w) => ReportedReadError(s, w);
      case Push(w) => ReportedPush(s, w);
    }
  }

  lemma ReportedStep(s: State, a: Action)
    requires Located(s) && Reported(s) && Enabled(s, a)
    ensures Reported(Step(s, a))
  {
    if PcOnly(a) {
      ReportedPcOnly(s, a);
    } else if a.RunKey? || a.CheckStop? || a.MarkFailed? || a.RecordError? || a.CountDown? {
      ReportedTile(s, a);
    } else if a.LoadFailed? || a.ReadError? || a.Push? {
      ReportedReport(s, a);
    } else {
      hide Located, Reported, Enabled, DoSubmit, DoEnqueue, DoTake, DoRunKey, DoCheckStop, DoMarkFailed, DoRecordError,
           DoCountDown, DoLoadFailed, DoReadError, DoPush, DoExchange, DoWriteFd, DoReadFd, DoPop, Goto;
      match a {
        case Submit(op, keys) => ReportedSubmit(s, op, keys);
        case Enqueue(b) => ReportedEnqueue(s, b);
        case Take(w) => ReportedTake(s, w);
        case _ => ReportedElse(s, a);
      }
    }
  }

  // ---- the wakeup protocol ----

  ghost predicate AnyAt(s: State, pc: Worker)
  {
    exists w :: 0 <= w < |s.workers| && s.workers[w] == pc
  }

  /** A queued completion is covered by the signaled_ flag or by a producer about to set it, and a
      set flag by a readable eventfd, a drain in progress or a producer about to write. */
  ghost predicate Woken(s: State)
  {
    && (s.taken < |s.completions| ==> s.signaled || AnyAt(s, Pushed))
    && (s.signaled ==> s.eventfd > 0 || s.consumer != Outside || AnyAt(s, Won))
  }

  lemma StaysAt(s: State, s': State, w: nat, at: Worker)
    requires w < |s.workers| && AnyAt(s, at) && s.workers[w] != at
    requires |s'.workers| == |s.workers| && s'.workers == s.workers[w := s'.workers[w]]
    ensures AnyAt(s', at)
  {
    var v :| 0 <= v < |s.workers| && s.workers[v] == at;
    assert s'.workers[v] == at;
  }

  /** The producer's side: push, then exchange, then write. */
  lemma WokenProducer(s: State, a: Action)
    requires Woken(s) && s.taken <= |s.completions| && Enabled(s, a)
    requires a.Push? || a.Exchange? || a.WriteFd?
    ensures Woken(Step(s, a))
  {
    var s' := Step(s, a);
    if AnyAt(s, Pushed) && !a.Exchange? { StaysAt(s, s', a.w, Pushed); }
    if AnyAt(s, Won) && !a.WriteFd? { StaysAt(s, s', a.w, Won); }
    match a {
      case Push(w) => assert s'.workers[w] == Pushed;
      case Exchange(w) => if !s.signaled { assert s'.workers[w] == Won; }
      case WriteFd(w) =>
    }
  }

  /** Steps of workers that are neither at Pushed nor at Won, and the submitters' steps. */
  lemma WokenFrame(s: State, s': State)
    requires Woken(s) && s.taken <= |s.completions|
    requires s'.completions == s.completions && s'.taken == s.taken && s'.signaled == s.signaled
    requires s'.eventfd == s.eventfd && s'.consumer == s.consumer && |s'.workers| == |s.workers|
    requires forall w :: 0 <= w < |s.workers| && (s.workers[w] == Pushed || s.workers[w] == Won) ==> s'.workers[w] == s.workers[w]
    ensures Woken(s')
  {
    if AnyAt(s, Pushed) {
      var v :| 0 <= v < |s.workers| && s.workers[v] == Pushed;
      assert s'.workers[v] == Pushed;
    }
    if AnyAt(s, Won) {
      var v :| 0 <= v < |s.workers| && s.workers[v] == Won;
      assert s'.workers[v] == Won;
    }
  }

  lemma WokenConsumer(s: State, a: Action)
    requires Woken(s) && s.taken <= |s.completions| && Enabled(s, a)
    requires a.StartDrain? || a.ReadFd? || a.Pop?
    ensures Woken(Step(s, a))
  {
    var s' := Step(s, a);
    assert AnyAt(s', Pushed) == AnyAt(s, Pushed) && AnyAt(s', Won) == AnyAt(s, Won);
  }

  lemma WokenStep(s: State, a: Action)
    requires Woken(s) && s.taken <= |s.completions| && Enabled(s, a)
    ensures Woken(Step(s, a))
  {
    hide Woken;
    if a.Push? || a.Exchange? || a.WriteFd? {
      WokenProducer(s, a);
    } else if a.StartDrain? || a.ReadFd? || a.Pop? {
      WokenConsumer(s, a);
    } else {
      WokenFrame(s, Step(s, a));
    }
  }
}
