/** What holds of the batch connector in every reachable state, whatever the interleaving. */
module ConnectorTheorems {
  import opened Basics
  import opened Tiling
  import opened Connector
  import opened ConnectorInvariants
  import opened ConnectorCompletions
  import opened ConnectorOutcomes

  ghost predicate Reachable(s: State)
  {
    exists n: nat, run: seq<Action> :: Legal(Init(n), run) && s == After(Init(n), run)
  }

  lemma {:induction false} InvRun(s: State, run: seq<Action>)
    requires Inv(s) && Woken(s) && Legal(s, run)
    ensures Inv(After(s, run)) && Woken(After(s, run))
    decreases |run|
  {
    if run != [] {
      InvStep(s, run[0]);
      WokenStep(s, run[0]);
      InvRun(Step(s, run[0]), run[1..]);
    }
  }

  lemma InvReachable(s: State)
    requires Reachable(s)
    ensures Inv(s) && Woken(s)
  {
    var n: nat, run: seq<Action> :| Legal(Init(n), run) && s == After(Init(n), run);
    InitInv(n);
    hide Inv, Woken, Init;
    InvRun(Init(n), run);
  }

  lemma InitInv(n: nat)
    ensures Inv(Init(n)) && Woken(Init(n))
  {
    LocatedInit(n);
  }

  /** No lost wakeup: with the consumer outside a drain and no producer between its push and its
      eventfd write, a queued completion means a readable eventfd. */
  lemma NoLostWakeup(s: State)
    requires Reachable(s) && s.consumer == Outside
    requires forall w :: 0 <= w < |s.workers| ==> s.workers[w] != Pushed && s.workers[w] != Won
    requires s.taken < |s.completions|
    ensures s.eventfd > 0
  {
    InvReachable(s);
  }

  // ---- remaining_tiles ----

  function QueuedTiles(queue: seq<Request>, b: nat): nat
  {
    if queue == [] then 0 else (if queue[0].batch == b then 1 else 0) + QueuedTiles(queue[1..], b)
  }

  function Works(pc: Worker, b: nat): nat
  {
    if Holds(pc) && pc.req.batch == b then 1 else 0
  }

  function HeldTiles(workers: seq<Worker>, b: nat): nat
  {
    if workers == [] then 0 else Works(workers[0], b) + HeldTiles(workers[1..], b)
  }

  /** The batch's tiles not yet enqueued, in the queue, or at a worker that has not counted them down. */
  function Outstanding(s: State, b: nat): int
    requires b < |s.batches|
  {
    s.batches[b].tiles - s.batches[b].sent + QueuedTiles(s.queue, b) + HeldTiles(s.workers, b)
  }

  /** The tiles whose worker died in a shutdown before it counted them down. */
  function LostTiles(places: seq<Place>): nat
  {
    if places == [] then 0 else LostTiles(places[..|places| - 1]) + if places[|places| - 1] == Lost then 1 else 0
  }

  lemma {:induction false} LostUpdate(places: seq<Place>, t: nat, p: Place)
    requires t < |places|
    ensures LostTiles(places[t := p]) == LostTiles(places) + (if p == Lost then 1 else 0) - (if places[t] == Lost then 1 else 0)
  {
    var n := |places| - 1;
    if t == n {
      assert places[t := p][..n] == places[..n];
    } else {
      assert places[t := p][..n] == places[..n][t := p];
      LostUpdate(places[..n], t, p);
    }
  }

  lemma {:induction false} NoneLost(places: seq<Place>)
    requires forall t :: 0 <= t < |places| ==> places[t] != Lost
    ensures LostTiles(places) == 0
  {
    if places != [] { NoneLost(places[..|places| - 1]); }
  }

  ghost predicate Counted(s: State)
  {
    |s.hist| == |s.batches| && forall b :: 0 <= b < |s.batches| ==> CountedBatch(s, b)
  }

  ghost predicate CountedBatch(s: State, b: nat)
    requires b < |s.batches| == |s.hist|
  {
    s.batches[b].remaining == Outstanding(s, b) + LostTiles(s.hist[b].places)
  }

  lemma {:induction false} QueuedAppend(queue: seq<Request>, req: Request, b: nat)
    ensures QueuedTiles(queue + [req], b) == QueuedTiles(queue, b) + if req.batch == b then 1 else 0
  {
    if queue != [] {
      assert (queue + [req])[1..] == queue[1..] + [req];
      QueuedAppend(queue[1..], req, b);
    }
  }

  lemma {:induction false} HeldUpdate(workers: seq<Worker>, w: nat, pc: Worker, b: nat)
    requires w < |workers|
    ensures HeldTiles(workers[w := pc], b) == HeldTiles(workers, b) + Works(pc, b) - Works(workers[w], b)
  {
    if w > 0 {
      assert workers[w := pc][1..] == workers[1..][w - 1 := pc];
      HeldUpdate(workers[1..], w - 1, pc, b);
    }
  }

  lemma {:induction false} NoneQueued(queue: seq<Request>, b: nat)
    requires forall q :: 0 <= q < |queue| ==> queue[q].batch != b
    ensures QueuedTiles(queue, b) == 0
  {
    if queue != [] { NoneQueued(queue[1..], b); }
  }

  lemma {:induction false} NoneHeld(workers: seq<Worker>, b: nat)
    requires forall w :: 0 <= w < |workers| ==> Holds(workers[w]) ==> workers[w].req.batch != b
    ensures HeldTiles(workers, b) == 0
  {
    if workers != [] { NoneHeld(workers[1..], b); }
  }

  lemma CountedSubmit(s: State, op: Op, keys: seq<string>)
    requires Inv(s) && Counted(s) && Enabled(s, Submit(op, keys))
    ensures Counted(DoSubmit(s, op, keys))
  {
    var s' := DoSubmit(s, op, keys);
    var n := |s.batches|;
    forall q | 0 <= q < |s.queue| ensures s.queue[q].batch != n { assert RequestAt(s, s.queue[q], Queued); }
    forall w | 0 <= w < |s.workers| && Holds(s.workers[w]) ensures s.workers[w].req.batch != n {
      assert RequestAt(s, s.workers[w].req, Held(w));
    }
    NoneQueued(s.queue, n);
    NoneHeld(s.workers, n);
    NoneLost(s'.hist[n].places);
    forall b | 0 <= b < |s'.batches| ensures CountedBatch(s', b) {
      if b < n { assert CountedBatch(s, b); }
    }
  }

  lemma CountedEnqueue(s: State, c: nat)
    requires Located(s) && Counted(s) && Enabled(s, Enqueue(c))
    ensures Counted(DoEnqueue(s, c))
  {
    var s' := DoEnqueue(s, c);
    assert BatchShape(|s.workers|, s.batches[c], s.hist[c]);
    LostUpdate(s.hist[c].places, s.batches[c].sent, Queued);
    forall b | 0 <= b < |s'.batches| ensures CountedBatch(s', b) {
      assert CountedBatch(s, b);
      QueuedAppend(s.queue, s'.queue[|s.queue|], b);
    }
  }

  lemma CountedTake(s: State, w: nat)
    requires Located(s) && Counted(s) && Enabled(s, Take(w))
    ensures Counted(DoTake(s, w))
  {
    var s', req := DoTake(s, w), s.queue[0];
    assert RequestAt(s, req, Queued);
    LostUpdate(s.hist[req.batch].places, req.tile, Held(w));
    forall b | 0 <= b < |s'.batches| ensures CountedBatch(s', b) {
      assert CountedBatch(s, b);
      HeldUpdate(s.workers, w, s'.workers[w], b);
    }
  }

  /** The steps of one worker w on batch b that leave the queue alone. */
  lemma CountedLocal(s: State, s': State, w: nat, b: nat)
    requires Counted(s) && |s'.hist| == |s.hist| && |s'.batches| == |s.batches|
    requires w < |s.workers| == |s'.workers| && s'.workers == s.workers[w := s'.workers[w]] && s'.queue == s.queue
    requires forall c :: 0 <= c < |s.batches| && c != b ==>
               s'.batches[c] == s.batches[c] && s'.hist[c] == s.hist[c] && Works(s'.workers[w], c) == Works(s.workers[w], c)
    requires b < |s.batches| ==>
               && s'.batches[b].tiles == s.batches[b].tiles && s'.batches[b].sent == s.batches[b].sent
               && s'.batches[b].remaining - s.batches[b].remaining
                  == Works(s'.workers[w], b) - Works(s.workers[w], b) + LostTiles(s'.hist[b].places) - LostTiles(s.hist[b].places)
    ensures Counted(s')
  {
    forall c | 0 <= c < |s'.batches| ensures CountedBatch(s', c) {
      assert CountedBatch(s, c);
      HeldUpdate(s.workers, w, s'.workers[w], c);
    }
  }

  lemma CountedCheckStop(s: State, w: nat)
    requires Located(s) && Counted(s) && Enabled(s, CheckStop(w))
    ensures Counted(DoCheckStop(s, w))
  {
    var req := s.workers[w].req;
    assert RequestAt(s, req, Held(w));
    LostUpdate(s.hist[req.batch].places, req.tile, Lost);
    CountedLocal(s, DoCheckStop(s, w), w, req.batch);
  }

  lemma CountedCountDown(s: State, w: nat)
    requires Located(s) && Counted(s) && Enabled(s, CountDown(w))
    ensures Counted(DoCountDown(s, w))
  {
    var req := s.workers[w].req;
    assert RequestAt(s, req, Held(w));
    LostUpdate(s.hist[req.batch].places, req.tile, Done);
    CountedLocal(s, DoCountDown(s, w), w, req.batch);
  }

  /** The steps that neither move a tile nor count one down. */
  lemma CountedHold(s: State, a: Action)
    requires Counted(s) && Enabled(s, a)
    requires a.RunKey? || a.MarkFailed? || a.RecordError?
    ensures Counted(Step(s, a))
  {
    CountedLocal(s, Step(s, a), a.w, s.workers[a.w].req.batch);
  }

  lemma CountedLoadFailed(s: State, w: nat)
    requires Counted(s) && Enabled(s, LoadFailed(w))
    ensures Counted(DoLoadFailed(s, w))
  {
    hide Counted, LostTiles;
    CountedLocal(s, DoLoadFailed(s, w), w, s.workers[w].batch);
  }

  lemma CountedReadError(s: State, w: nat)
    requires Counted(s) && Enabled(s, ReadError(w))
    ensures Counted(DoReadError(s, w))
  {
    hide Counted, LostTiles;
    CountedLocal(s, DoReadError(s, w), w, s.workers[w].batch);
  }

  lemma CountedPush(s: State, w: nat)
    requires Counted(s) && Enabled(s, Push(w))
    ensures Counted(DoPush(s, w))
  {
    CountedLocal(s, DoPush(s, w), w, s.workers[w].batch);
  }

  lemma CountedPcOnly(s: State, a: Action)
    requires Counted(s) && Enabled(s, a) && PcOnly(a)
    ensures Counted(Step(s, a))
  {
    CountedLocal(s, Step(s, a), a.w, |s.batches|);
  }

  lemma CountedElse(s: State, a: Action)
    requires Counted(s) && Enabled(s, a) && (a.Close? || a.StartDrain? || a.ReadFd? || a.Pop?)
    ensures Counted(Step(s, a))
  {
    var s' := Step(s, a);
    forall b | 0 <= b < |s'.batches| ensures CountedBatch(s', b) {
      assert CountedBatch(s, b);
      assert Outstanding(s', b) == Outstanding(s, b);
    }
  }

  lemma CountedStep(s: State, a: Action)
    requires Inv(s) && Counted(s) && Enabled(s, a)
    ensures Counted(Step(s, a))
  {
    assert Located(s);
    hide Inv, Located, Counted, Enabled, DoSubmit, DoEnqueue, DoTake, DoRunKey, DoCheckStop, DoMarkFailed, DoRecordError,
         DoCountDown, DoLoadFailed, DoReadError, DoPush, DoExchange, DoWriteFd, DoReadFd, DoPop, Goto;
    match a {
      case Submit(op, keys) => CountedSubmit(s, op, keys);
      case Enqueue(b) => CountedEnqueue(s, b);
      case Take(w) => CountedTake(s, w);
      case CheckStop(w) => CountedCheckStop(s, w);
      case CountDown(w) => CountedCountDown(s, w);
      case RunKey(_, _) => CountedHold(s, a);
      case MarkFailed(_) => CountedHold(s, a);
      case RecordError(_) => CountedHold(s, a);
      case LoadFailed(w) => CountedLoadFailed(s, w);
      case ReadError(w) => CountedReadError(s, w);
      case Push(w) => CountedPush(s, w);
      case _ => if PcOnly(a) { CountedPcOnly(s, a); } else { CountedElse(s, a); }
    }
  }

  lemma {:induction false} CountedRun(s: State, run: seq<Action>)
    requires Inv(s) && Counted(s) && Legal(s, run)
    ensures Counted(After(s, run))
    decreases |run|
  {
    if run != [] {
      InvStep(s, run[0]);
      CountedStep(s, run[0]);
      CountedRun(Step(s, run[0]), run[1..]);
    }
  }

  /** remaining_tiles is the number of outstanding tiles plus those whose worker died in a shutdown;
      without a shutdown there are none of the latter. */
  lemma RemainingIsOutstanding(s: State, b: nat)
    requires Reachable(s) && b < |s.batches|
    ensures |s.hist| == |s.batches| && Outstanding(s, b) >= 0
    ensures s.batches[b].remaining == Outstanding(s, b) + LostTiles(s.hist[b].places)
    ensures !s.stop ==> LostTiles(s.hist[b].places) == 0
  {
    var n: nat, run: seq<Action> :| Legal(Init(n), run) && s == After(Init(n), run);
    InitInv(n);
    CountedRun(Init(n), run);
    InvRun(Init(n), run);
    assert BatchShape(|s.workers|, s.batches[b], s.hist[b]);
    assert CountedBatch(s, b);
    if !s.stop {
      forall t | 0 <= t < |s.hist[b].places| ensures s.hist[b].places[t] != Lost { assert PlaceOk(s, b, t); }
      NoneLost(s.hist[b].places);
    }
  }

  // ---- completions ----

  /** At most one completion is ever pushed for a batch, and only after all of its tiles were
      counted down; its future id is that of a submitted batch. */
  lemma AtMostOneCompletion(s: State, i: nat)
    requires Reachable(s) && i < |s.completions|
    ensures 1 <= s.completions[i].id <= |s.batches|
    ensures s.batches[s.completions[i].id - 1].remaining == 0
    ensures forall j :: 0 <= j < |s.completions| && s.completions[j].id == s.completions[i].id ==> j == i
  {
    InvReachable(s);
    assert ReporterOk(s, s.completions[i].id - 1);
  }

  /** Nobody is submitting, no tile is queued or held, nobody is about to push. */
  ghost predicate Quiet(s: State)
  {
    && s.queue == []
    && (forall b :: 0 <= b < |s.batches| ==> s.batches[b].sent == s.batches[b].tiles)
    && (forall w :: 0 <= w < |s.workers| ==> !Holds(s.workers[w]) && !Reports(s.workers[w]))
  }

  /** Without a shutdown, once all tiles are handled every batch has exactly one completion. */
  lemma ExactlyOneCompletion(s: State, b: nat)
    requires Reachable(s) && !s.stop && Quiet(s) && b < |s.batches|
    ensures exists i :: 0 <= i < |s.completions| && s.completions[i].id == b + 1
              && forall j :: 0 <= j < |s.completions| && s.completions[j].id == b + 1 ==> j == i
  {
    InvReachable(s);
    forall t: nat | t < |s.hist[b].places| ensures s.hist[b].places[t] == Done {
      assert BatchShape(|s.workers|, s.batches[b], s.hist[b]);
      assert PlaceOk(s, b, t);
    }
    NotDoneAll(s.hist[b].places);
    assert BatchShape(|s.workers|, s.batches[b], s.hist[b]);
    assert ReporterOk(s, b);
    var i := s.hist[b].reporter.index;
    assert s.completions[i].id == b + 1;
    AtMostOneCompletion(s, i);
  }

  /** A completion is ok exactly when no tile of its batch failed; otherwise it carries the first
      non-empty error among the failed tiles' errors, in the order they reached the error section. */
  lemma CompletionTellsOutcome(s: State, i: nat)
    requires Reachable(s) && i < |s.completions|
    ensures 1 <= s.completions[i].id <= |s.hist|
    ensures var comp, h := s.completions[i], s.hist[s.completions[i].id - 1];
            && (comp.ok <==> h.errors == map[])
            && NoDup(h.recorded) && (forall t :: t in h.recorded <==> t in h.errors)
            && FirstError(h.recorded, h.errors, comp.error)
  {
    InvReachable(s);
    var b := s.completions[i].id - 1;
    assert ReporterOk(s, b) && BatchOk(s, b);
    var h := s.hist[b];
    FirstNonEmptyIsFirst(h.recorded, h.errors);
    assert forall k :: 0 <= k < |h.recorded| ==> h.recorded[k] in h.recorded;
  }

  /** e is the first non-empty error in recording order, or empty when all of them are. */
  ghost predicate FirstError(recorded: seq<nat>, errors: map<nat, string>, e: string)
    requires forall t :: t in recorded ==> t in errors
  {
    if e == "" then forall t :: t in recorded ==> errors[t] == ""
    else exists k :: 0 <= k < |recorded| && errors[recorded[k]] == e && (forall m :: 0 <= m < k ==> errors[recorded[m]] == "")
  }

  lemma {:induction false} FirstNonEmptyIsFirst(recorded: seq<nat>, errors: map<nat, string>)
    requires forall t :: t in recorded ==> t in errors
    ensures FirstError(recorded, errors, FirstNonEmpty(recorded, errors))
  {
    if recorded != [] {
      var n := |recorded| - 1;
      var front := recorded[..n];
      assert forall t :: t in front ==> t in recorded;
      FirstNonEmptyIsFirst(front, errors);
      var e := FirstNonEmpty(front, errors);
      if e == "" {
        assert forall m :: 0 <= m < n ==> recorded[m] == front[m] && front[m] in front;
        assert recorded[n] in recorded;
        assert recorded == front + [recorded[n]];
      } else {
        var k :| 0 <= k < n && errors[front[k]] == e && (forall m :: 0 <= m < k ==> errors[front[m]] == "");
        assert forall m :: 0 <= m < n ==> recorded[m] == front[m];
        assert errors[recorded[k]] == e;
      }
    }
  }

  /** What was recorded for item k of a batch: nothing, or its key and answer. */
  function Answered(batch: Batch, h: History, k: nat): seq<(string, bool)>
    requires batch.tileSize >= 1
  {
    var t, j := k / batch.tileSize, k % batch.tileSize;
    if t < |h.ran| && j < |h.ran[t]| then [h.ran[t][j]] else []
  }

  /** In a finished batch item k's byte is one exactly when key k was asked and the answer was
      yes (EXISTS only), and in an ok completion every key of the batch was processed. */
  ghost predicate ItemAnswered(batch: Batch, h: History, comp: Completion, k: nat)
    requires k < |batch.keys| && batch.tileSize >= 1
  {
    && (batch.op == BatchExists ==>
          && |comp.bytes| == |batch.keys|
          && (comp.bytes[k] == 0 || comp.bytes[k] == 1)
          && (comp.bytes[k] == 1 <==> Answered(batch, h, k) == [(batch.keys[k], true)]))
    && (batch.op != BatchExists ==> comp.bytes == [])
    && (comp.ok ==> |Answered(batch, h, k)| == 1 && Answered(batch, h, k)[0].0 == batch.keys[k])
  }

  lemma ExistsAnswersMatchKeys(s: State, i: nat, k: nat)
    requires Reachable(s) && i < |s.completions|
    requires 1 <= s.completions[i].id <= |s.batches| && k < |s.batches[s.completions[i].id - 1].keys|
    ensures |s.hist| == |s.batches| && s.batches[s.completions[i].id - 1].tileSize >= 1
    ensures ItemAnswered(s.batches[s.completions[i].id - 1], s.hist[s.completions[i].id - 1], s.completions[i], k)
  {
    InvReachable(s);
    var b := s.completions[i].id - 1;
    assert ReporterOk(s, b) && BatchOk(s, b);
    assert BatchShape(|s.workers|, s.batches[b], s.hist[b]);
    TilesCover(|s.workers|, |s.batches[b].keys|);
    OutcomeAnswers(s.batches[b], s.hist[b], s.completions[i], k);
  }

  lemma OutcomeAnswers(batch: Batch, h: History, comp: Completion, k: nat)
    requires Outcome(batch, h, comp) && |h.places| == |h.ran| == batch.tiles
    requires batch.tileSize >= 1 && k < |batch.keys| <= batch.tiles * batch.tileSize
    ensures ItemAnswered(batch, h, comp, k)
  {
    var t, j := k / batch.tileSize, k % batch.tileSize;
    PositionInTile(batch, k);
    assert TileRan(batch, h, t);
    if batch.op == BatchExists { assert ByteOk(batch, h.ran[t], comp.bytes, t, j); }
  }

  lemma PositionInTile(batch: Batch, k: nat)
    requires batch.tileSize >= 1 && k < |batch.keys| <= batch.tiles * batch.tileSize
    ensures var t, j := k / batch.tileSize, k % batch.tileSize;
            && t < batch.tiles && j < |Items(batch, t)| && Items(batch, t)[j] == batch.keys[k]
            && TileStart(batch.tileSize, t) + j == k
  {
    var t := k / batch.tileSize;
    assert k == t * batch.tileSize + k % batch.tileSize;
    if batch.tiles <= t { MulMono(batch.tiles, t, batch.tileSize); }
  }

  /** Writing an EXISTS answer never leaves the result vector, and two workers about to write
      answers of the same batch write different elements. */
  lemma ExistsWritesDisjoint(s: State, w: nat, v: nat)
    requires Reachable(s) && w < |s.workers|
    requires s.workers[w].Running? && s.workers[w].next < |s.workers[w].req.keys|
    ensures s.workers[w].req.batch < |s.batches|
    ensures s.batches[s.workers[w].req.batch].op == BatchExists ==>
              s.workers[w].req.start + s.workers[w].next < |s.batches[s.workers[w].req.batch].bytes|
    ensures v < |s.workers| && v != w && s.workers[v].Running? && s.workers[v].next < |s.workers[v].req.keys|
            && s.workers[v].req.batch == s.workers[w].req.batch ==>
              s.workers[w].req.start + s.workers[w].next != s.workers[v].req.start + s.workers[v].next
  {
    InvReachable(s);
    HeldFacts(s, w);
    hide Inv, Woken, Reachable, WorkerAt, TileRan;
    var req := s.workers[w].req;
    var b := req.batch;
    if s.batches[b].op == BatchExists {
      assert ByteOk(s.batches[b], s.hist[b].ran[req.tile], s.batches[b].bytes, req.tile, s.workers[w].next);
    }
    if v < |s.workers| && v != w && s.workers[v].Running? && s.workers[v].next < |s.workers[v].req.keys| && s.workers[v].req.batch == b {
      HeldFacts(s, v);
      OneHolder(s, v, w);
      if req.start + s.workers[w].next == s.workers[v].req.start + s.workers[v].next {
        TilePositionsUnique(s.batches[b].tileSize, req.tile, s.workers[w].next, s.workers[v].req.tile, s.workers[v].next);
      }
    }
  }
}
