/** Progress of the batch connector: no worker is ever stuck in the middle of a request, work runs
    out after boundedly many steps, and it runs out only when every batch has been reported. */
module ConnectorProgress {
  import opened Tiling
  import opened Connector
  import opened ConnectorInvariants
  import opened ConnectorCompletions
  import opened ConnectorOutcomes
  import opened ConnectorTheorems

  /** The next step of a worker that is past the submission queue. */
  function NextOf(pc: Worker, w: nat): Action
    requires !pc.Starting? && !pc.Waiting? && !pc.Stopped?
  {
    match pc
    case Running(req, i) => if i < |req.keys| then RunKey(w, true) else Complete(w)
    case Caught(_, _) => CheckStop(w)
    case Failed(_, _) => MarkFailed(w)
    case Recording(_, _) => RecordError(w)
    case Finishing(_) => CountDown(w)
    case LastOne(_) => LoadFailed(w)
    case LastFailed(_) => ReadError(w)
    case Emitting(_, _) => Push(w)
    case Pushed => Exchange(w)
    case Won => WriteFd(w)
  }

  /** A worker past the queue can always take its next step. */
  lemma WorkerNotStuck(s: State, w: nat)
    requires Inv(s) && w < |s.workers|
    requires !s.workers[w].Starting? && !s.workers[w].Waiting? && !s.workers[w].Stopped?
    ensures Enabled(s, NextOf(s.workers[w], w))
  {
    var pc := s.workers[w];
    if Holds(pc) {
      HeldFacts(s, w);
    } else if Reports(pc) {
      assert ReporterOk(s, pc.batch);
      assert BatchShape(|s.workers|, s.batches[pc.batch], s.hist[pc.batch]);
      TilesCover(|s.workers|, |s.batches[pc.batch].keys|);
    }
  }

  /** New input from outside: a submission, a drain or the shutdown request. */
  predicate External(a: Action) { a.Submit? || a.StartDrain? || a.Close? }

  /** Nothing left to take or run, and no step to enqueue: every batch has been reported. */
  lemma IdleMeansReported(s: State, b: nat)
    requires Reachable(s) && !s.stop && s.queue == [] && b < |s.batches|
    requires forall w :: 0 <= w < |s.workers| ==> s.workers[w].Starting? || s.workers[w].Waiting? || s.workers[w].Stopped?
    requires forall c :: 0 <= c < |s.batches| ==> s.batches[c].sent >= s.batches[c].tiles
    ensures exists i :: 0 <= i < |s.completions| && s.completions[i].id == b + 1
  {
    InvReachable(s);
    forall c | 0 <= c < |s.batches| ensures s.batches[c].sent == s.batches[c].tiles {
      assert BatchShape(|s.workers|, s.batches[c], s.hist[c]);
    }
    assert Quiet(s);
    ExactlyOneCompletion(s, b);
  }

  /** A tile not yet put in the queue can be put there. */
  lemma CanEnqueue(s: State, c: nat)
    requires Inv(s) && c < |s.batches| && s.batches[c].sent < s.batches[c].tiles
    ensures Enabled(s, Enqueue(c))
  {
    assert BatchShape(|s.workers|, s.batches[c], s.hist[c]);
  }

  /** While some worker is alive and no shutdown was requested, an unreported batch means that
      some step other than new input can be taken. */
  lemma NoDeadlock(s: State, b: nat, v: nat)
    requires Reachable(s) && !s.stop && v < |s.workers| && !s.workers[v].Stopped?
    requires b < |s.batches| && forall i :: 0 <= i < |s.completions| ==> s.completions[i].id != b + 1
    ensures exists a :: !External(a) && Enabled(s, a)
  {
    InvReachable(s);
    hide Inv, Reachable, Woken;
    if w: nat :| w < |s.workers| && !s.workers[w].Starting? && !s.workers[w].Waiting? && !s.workers[w].Stopped? {
      WorkerNotStuck(s, w);
      assert !External(NextOf(s.workers[w], w));
    } else if c: nat :| c < |s.batches| && s.batches[c].sent < s.batches[c].tiles {
      CanEnqueue(s, c);
      assert !External(Enqueue(c));
    } else if s.workers[v].Starting? {
      assert !External(Connect(v, true)) && Enabled(s, Connect(v, true));
    } else {
      if s.queue == [] { IdleMeansReported(s, b); }
      CanTake(s, v);
      assert !External(Take(v));
    }
  }

  lemma CanTake(s: State, v: nat)
    requires Inv(s) && !s.stop && v < |s.workers| && s.workers[v].Waiting? && s.queue != []
    ensures Enabled(s, Take(v))
  {
    assert RequestAt(s, s.queue[0], Queued);
  }

  // ---- a bound on the work left ----

  function WorkerWork(pc: Worker): nat
  {
    match pc
    case Starting => 2
    case Waiting => 1
    case Running(req, i) => (if i < |req.keys| then |req.keys| - i else 0) + 14
    case Caught(_, _) => 13
    case Failed(_, _) => 12
    case Recording(_, _) => 11
    case Finishing(_) => 10
    case LastOne(_) => 9
    case LastFailed(_) => 8
    case Emitting(_, _) => 7
    case Pushed => 4
    case Won => 3
    case Stopped => 0
  }

  function WorkersWork(workers: seq<Worker>): nat
  {
    if workers == [] then 0 else WorkerWork(workers[0]) + WorkersWork(workers[1..])
  }

  function QueueWork(queue: seq<Request>): nat
  {
    if queue == [] then 0 else |queue[0].keys| + 14 + QueueWork(queue[1..])
  }

  function UnsentWork(batch: Batch, from: nat): nat
    decreases batch.tiles - from
  {
    if from >= batch.tiles then 0 else |Items(batch, from)| + 15 + UnsentWork(batch, from + 1)
  }

  function BatchesWork(batches: seq<Batch>): nat
  {
    if batches == [] then 0 else UnsentWork(batches[0], batches[0].sent) + BatchesWork(batches[1..])
  }

  function ConsumerWork(s: State): nat
    requires s.taken <= |s.completions|
  {
    s.eventfd + (|s.completions| - s.taken) + match s.consumer case Outside => 0 case Reading => 2 case Popping => 1
  }

  /** An upper bound on the steps that can be taken without new input. */
  function Work(s: State): nat
    requires s.taken <= |s.completions|
  {
    WorkersWork(s.workers) + QueueWork(s.queue) + BatchesWork(s.batches) + ConsumerWork(s)
  }

  lemma {:induction false} WorkersWorkUpdate(workers: seq<Worker>, w: nat, pc: Worker)
    requires w < |workers|
    ensures WorkersWork(workers[w := pc]) == WorkersWork(workers) + WorkerWork(pc) - WorkerWork(workers[w])
  {
    if w > 0 {
      assert workers[w := pc][1..] == workers[1..][w - 1 := pc];
      WorkersWorkUpdate(workers[1..], w - 1, pc);
    }
  }

  lemma {:induction false} QueueWorkAppend(queue: seq<Request>, req: Request)
    ensures QueueWork(queue + [req]) == QueueWork(queue) + |req.keys| + 14
  {
    if queue != [] {
      assert (queue + [req])[1..] == queue[1..] + [req];
      QueueWorkAppend(queue[1..], req);
    }
  }

  lemma {:induction false} BatchesWorkUpdate(batches: seq<Batch>, b: nat, batch: Batch)
    requires b < |batches|
    ensures BatchesWork(batches[b := batch]) ==
            BatchesWork(batches) + UnsentWork(batch, batch.sent) - UnsentWork(batches[b], batches[b].sent)
  {
    if b > 0 {
      assert batches[b := batch][1..] == batches[1..][b - 1 := batch];
      BatchesWorkUpdate(batches[1..], b - 1, batch);
    }
  }

  lemma {:induction false} UnsentWorkSame(x: Batch, y: Batch, from: nat)
    requires x.tiles == y.tiles && x.keys == y.keys && x.tileSize == y.tileSize
    ensures UnsentWork(x, from) == UnsentWork(y, from)
    decreases x.tiles - from
  {
    if from < x.tiles { UnsentWorkSame(x, y, from + 1); }
  }

  lemma EnqueueEffect(s: State, b: nat)
    requires Enabled(s, Enqueue(b))
    ensures var s' := DoEnqueue(s, b); var batch := s.batches[b];
            && s'.batches == s.batches[b := batch.(sent := batch.sent + 1)]
            && s'.queue == s.queue + [MakeRequest(batch, b, batch.sent)]
            && s'.workers == s.workers && s'.taken == s.taken && s'.completions == s.completions
            && s'.eventfd == s.eventfd && s'.consumer == s.consumer
  {}

  lemma WorkEnqueue(s: State, b: nat)
    requires s.taken <= |s.completions| && Enabled(s, Enqueue(b))
    ensures Work(DoEnqueue(s, b)) < Work(s)
  {
    var batch := s.batches[b];
    var req := MakeRequest(batch, b, batch.sent);
    assert req.keys == Items(batch, batch.sent);
    EnqueueEffect(s, b);
    WorkAfterEnqueue(s, DoEnqueue(s, b), b, req);
  }

  lemma WorkAfterEnqueue(s: State, s': State, b: nat, req: Request)
    requires s.taken <= |s.completions| && b < |s.batches|
    requires var batch := s.batches[b];
             && s'.batches == s.batches[b := batch.(sent := batch.sent + 1)] && batch.sent < batch.tiles
             && s'.queue == s.queue + [req] && req.keys == Items(batch, batch.sent)
             && s'.workers == s.workers && s'.taken == s.taken && s'.completions == s.completions
             && s'.eventfd == s.eventfd && s'.consumer == s.consumer
    ensures Work(s') < Work(s)
  {
    var batch := s.batches[b];
    QueueWorkAppend(s.queue, req);
    BatchesWorkUpdate(s.batches, b, batch.(sent := batch.sent + 1));
    UnsentWorkSame(batch, batch.(sent := batch.sent + 1), batch.sent + 1);
  }

  /** The steps of one worker that leave the queue alone. */
  lemma WorkLocal(s: State, s': State, w: nat, b: nat)
    requires w < |s.workers| == |s'.workers| && s'.workers == s.workers[w := s'.workers[w]] && s'.queue == s.queue
    requires s'.batches == s.batches
          || (b < |s.batches| == |s'.batches| && s'.batches == s.batches[b := s'.batches[b]]
              && s'.batches[b].tiles == s.batches[b].tiles && s'.batches[b].sent == s.batches[b].sent
              && s'.batches[b].keys == s.batches[b].keys && s'.batches[b].tileSize == s.batches[b].tileSize)
    requires s.taken <= |s.completions| && s'.taken <= |s'.completions|
    ensures Work(s') == Work(s) + WorkerWork(s'.workers[w]) - WorkerWork(s.workers[w]) + ConsumerWork(s') - ConsumerWork(s)
  {
    WorkersWorkUpdate(s.workers, w, s'.workers[w]);
    if s'.batches != s.batches {
      BatchesWorkUpdate(s.batches, b, s'.batches[b]);
      UnsentWorkSame(s.batches[b], s'.batches[b], s.batches[b].sent);
    }
  }

  lemma WorkRunKey(s: State, w: nat, answer: bool)
    requires s.taken <= |s.completions| && Enabled(s, RunKey(w, answer))
    ensures Work(DoRunKey(s, w, answer)) < Work(s)
  {
    WorkLocal(s, DoRunKey(s, w, answer), w, s.workers[w].req.batch);
  }

  lemma WorkCheckStop(s: State, w: nat)
    requires s.taken <= |s.completions| && Enabled(s, CheckStop(w))
    ensures Work(DoCheckStop(s, w)) < Work(s)
  {
    WorkLocal(s, DoCheckStop(s, w), w, s.workers[w].req.batch);
  }

  lemma WorkMarkFailed(s: State, w: nat)
    requires s.taken <= |s.completions| && Enabled(s, MarkFailed(w))
    ensures Work(DoMarkFailed(s, w)) < Work(s)
  {
    WorkLocal(s, DoMarkFailed(s, w), w, s.workers[w].req.batch);
  }

  lemma WorkRecordError(s: State, w: nat)
    requires s.taken <= |s.completions| && Enabled(s, RecordError(w))
    ensures Work(DoRecordError(s, w)) < Work(s)
  {
    WorkLocal(s, DoRecordError(s, w), w, s.workers[w].req.batch);
  }

  lemma WorkCountDown(s: State, w: nat)
    requires s.taken <= |s.completions| && Enabled(s, CountDown(w))
    ensures Work(DoCountDown(s, w)) < Work(s)
  {
    WorkLocal(s, DoCountDown(s, w), w, s.workers[w].req.batch);
  }

  lemma WorkLoadFailed(s: State, w: nat)
    requires s.taken <= |s.completions| && Enabled(s, LoadFailed(w))
    ensures Work(DoLoadFailed(s, w)) < Work(s)
  {
    WorkLocal(s, DoLoadFailed(s, w), w, s.workers[w].batch);
  }

  lemma WorkReadError(s: State, w: nat)
    requires s.taken <= |s.completions| && Enabled(s, ReadError(w))
    ensures Work(DoReadError(s, w)) < Work(s)
  {
    WorkLocal(s, DoReadError(s, w), w, s.workers[w].batch);
  }

  lemma WorkPush(s: State, w: nat)
    requires s.taken <= |s.completions| && Enabled(s, Push(w))
    ensures Work(DoPush(s, w)) < Work(s)
  {
    WorkLocal(s, DoPush(s, w), w, 0);
  }

  lemma WorkPcOnly(s: State, a: Action)
    requires s.taken <= |s.completions| && Enabled(s, a) && PcOnly(a)
    ensures Work(Step(s, a)) < Work(s)
  {
    WorkLocal(s, Step(s, a), a.w, 0);
  }

  lemma WorkTake(s: State, w: nat)
    requires s.taken <= |s.completions| && Enabled(s, Take(w))
    ensures Work(DoTake(s, w)) < Work(s)
  {
    WorkersWorkUpdate(s.workers, w, Running(s.queue[0], 0));
  }

  lemma WorkConsumer(s: State, a: Action)
    requires s.taken <= |s.completions| && Enabled(s, a) && (a.ReadFd? || a.Pop?)
    ensures Step(s, a).taken <= |s.completions| == |Step(s, a).completions|
    ensures Work(Step(s, a)) < Work(s)
  {}

  lemma TakenStays(s: State, a: Action)
    requires s.taken <= |s.completions| && Enabled(s, a)
    ensures Step(s, a).taken <= |Step(s, a).completions|
  {}

  lemma WorkTile(s: State, a: Action)
    requires s.taken <= |s.completions| && Enabled(s, a)
    requires a.RunKey? || a.CheckStop? || a.MarkFailed? || a.RecordError? || a.CountDown?
    ensures Work(Step(s, a)) < Work(s)
  {
    hide Work, Enabled, DoSubmit, DoEnqueue, DoTake, DoRunKey, DoCheckStop, DoMarkFailed, DoRecordError,
         DoCountDown, DoLoadFailed, DoReadError, DoPush, DoExchange, DoWriteFd, DoReadFd, DoPop, Goto;
    match a {
      case RunKey(w, answer) => WorkRunKey(s, w, answer);
      case CheckStop(w) => WorkCheckStop(s, w);
      case MarkFailed(w) => WorkMarkFailed(s, w);
      case RecordError(w) => WorkRecordError(s, w);
      case CountDown(w) => WorkCountDown(s, w);
    }
  }

  /** Every step other than new input uses up work. */
  lemma WorkDecreases(s: State, a: Action)
    requires s.taken <= |s.completions| && Enabled(s, a) && !External(a)
    ensures Step(s, a).taken <= |Step(s, a).completions|
    ensures Work(Step(s, a)) < Work(s)
  {
    TakenStays(s, a);
    if PcOnly(a) {
      WorkPcOnly(s, a);
    } else if a.RunKey? || a.CheckStop? || a.MarkFailed? || a.RecordError? || a.CountDown? {
      WorkTile(s, a);
    } else {
      hide Work, Enabled, DoSubmit, DoEnqueue, DoTake, DoRunKey, DoCheckStop, DoMarkFailed, DoRecordError,
           DoCountDown, DoLoadFailed, DoReadError, DoPush, DoExchange, DoWriteFd, DoReadFd, DoPop, Goto;
      match a {
        case Enqueue(b) => WorkEnqueue(s, b);
        case Take(w) => WorkTake(s, w);
        case LoadFailed(w) => WorkLoadFailed(s, w);
        case ReadError(w) => WorkReadError(s, w);
        case Push(w) => WorkPush(s, w);
        case _ => WorkConsumer(s, a);
      }
    }
  }

  /** Without new input a run from s has at most Work(s) steps. */
  lemma {:induction false} RunsAreBounded(s: State, run: seq<Action>)
    requires s.taken <= |s.completions| && Legal(s, run)
    requires forall i :: 0 <= i < |run| ==> !External(run[i])
    ensures |run| <= Work(s)
    decreases |run|
  {
    if run != [] {
      WorkDecreases(s, run[0]);
      RunsAreBounded(Step(s, run[0]), run[1..]);
    }
  }
}
