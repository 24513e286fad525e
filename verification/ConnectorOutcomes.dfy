/** What a completion says about its batch: success or the recorded error, and the EXISTS answers. */
module ConnectorOutcomes {
  import opened Tiling
  import opened Connector
  import opened ConnectorInvariants
  import opened ConnectorCompletions

  /** The error the err_mu sections leave in first_error: the first recorded one that is not empty. */
  function FirstNonEmpty(recorded: seq<nat>, errors: map<nat, string>): string
  {
    if recorded == [] then ""
    else
      var e := FirstNonEmpty(recorded[..|recorded| - 1], errors);
      var t := recorded[|recorded| - 1];
      if e == "" && t in errors then errors[t] else e
  }

  ghost predicate NoDup(xs: seq<nat>)
  {
    forall i, j :: 0 <= i < j < |xs| ==> xs[i] != xs[j]
  }

  function Items(batch: Batch, t: nat): seq<string>
  {
    TileItems(batch.keys, batch.tileSize, t)
  }

  ghost predicate ErrorsOk(batch: Batch, h: History)
  {
    && (forall t :: t in h.errors ==> t < |h.places| && (h.places[t].Held? || h.places[t] == Done))
    && (forall t :: 0 <= t < |h.places| && h.places[t] == Done && t in h.errors ==> t in h.recorded)
    && NoDup(h.recorded)
    && (forall t :: t in h.recorded ==> t in h.errors)
    && (batch.anyFailed ==> h.errors != map[])
    && (h.recorded != [] ==> batch.anyFailed)
    && batch.firstError == FirstNonEmpty(h.recorded, h.errors)
  }

  /** Tile t has processed a prefix of its keys, in order; all of them unless it failed or is still at work. */
  ghost predicate TileRan(batch: Batch, h: History, t: nat)
    requires t < |h.places| == |h.ran|
  {
    var ran, items := h.ran[t], Items(batch, t);
    && |ran| <= |items|
    && (forall j :: 0 <= j < |ran| ==> ran[j].0 == items[j])
    && (h.places[t] == Unsent || h.places[t] == Queued ==> ran == [])
    && (h.places[t] == Done && t !in h.errors ==> |ran| == |items|)
    && (t in h.errors ==> |ran| < |items|)
  }

  ghost predicate RanOk(batch: Batch, h: History)
  {
    |h.places| == |h.ran| && forall t :: 0 <= t < |h.places| ==> TileRan(batch, h, t)
  }

  /** The byte of the j-th key of tile t: its answer once asked, zero before. */
  ghost predicate ByteOk(batch: Batch, ran: seq<(string, bool)>, bytes: seq<nat>, t: nat, j: nat)
  {
    && TileStart(batch.tileSize, t) + j < |bytes|
    && bytes[TileStart(batch.tileSize, t) + j] == if j < |ran| && ran[j].1 then 1 else 0
  }

  ghost predicate BytesOk(batch: Batch, h: History, bytes: seq<nat>)
  {
    if batch.op == BatchExists then
      && |bytes| == |batch.keys|
      && forall t, j :: 0 <= t < |h.ran| && 0 <= j < |Items(batch, t)| ==> ByteOk(batch, h.ran[t], bytes, t, j)
    else bytes == []
  }

  ghost predicate Outcome(batch: Batch, h: History, comp: Completion)
  {
    && (comp.ok <==> h.errors == map[])
    && comp.error == FirstNonEmpty(h.recorded, h.errors)
    && (forall t :: t in h.errors <==> t in h.recorded)
    && NoDup(h.recorded)
    && (forall t :: 0 <= t < |h.places| ==> h.places[t] == Done)
    && RanOk(batch, h)
    && BytesOk(batch, h, comp.bytes)
  }

  ghost predicate WorkerOk(pc: Worker, batch: Batch, h: History)
    requires Holds(pc) ==> pc.req.tile < |h.ran|
  {
    match pc
    case Running(req, i) => req.tile !in h.errors && i == |h.ran[req.tile]|
    case Caught(req, _) => req.tile !in h.errors && |h.ran[req.tile]| < |req.keys|
    case Failed(req, e) => req.tile in h.errors && h.errors[req.tile] == e && req.tile !in h.recorded
    case Recording(req, e) => req.tile in h.errors && h.errors[req.tile] == e && req.tile !in h.recorded && batch.anyFailed
    case Finishing(req) =>
      && (req.tile in h.errors ==> req.tile in h.recorded)
      && (req.tile !in h.errors ==> |h.ran[req.tile]| == |req.keys|)
    case LastFailed(_) => batch.anyFailed
    case Emitting(_, comp) => Outcome(batch, h, comp)
    case _ => true
  }

  function BatchOf(pc: Worker): nat
    requires Holds(pc) || Reports(pc)
  {
    if Holds(pc) then pc.req.batch else pc.batch
  }

  ghost predicate Moved(s: State, h: History)
  {
    h.reporter.Published? || (h.reporter.ReportedBy? && h.reporter.worker < |s.workers| && s.workers[h.reporter.worker].Emitting?)
  }

  ghost predicate BatchOk(s: State, b: nat)
    requires b < |s.batches| == |s.hist|
  {
    var batch, h := s.batches[b], s.hist[b];
    && ErrorsOk(batch, h) && RanOk(batch, h)
    && (!Moved(s, h) ==> BytesOk(batch, h, batch.bytes))
    && (h.reporter.Published? && h.reporter.index < |s.completions| ==> Outcome(batch, h, s.completions[h.reporter.index]))
  }

  ghost predicate WorkerAt(s: State, w: nat)
    requires w < |s.workers| && |s.batches| == |s.hist|
  {
    var pc := s.workers[w];
    Holds(pc) || Reports(pc) ==>
      && BatchOf(pc) < |s.batches|
      && (Holds(pc) ==> pc.req.tile < |s.hist[pc.req.batch].ran|)
      && WorkerOk(pc, s.batches[BatchOf(pc)], s.hist[BatchOf(pc)])
  }

  ghost predicate Outcomes(s: State)
  {
    && |s.batches| == |s.hist|
    && (forall b :: 0 <= b < |s.batches| ==> BatchOk(s, b))
    && (forall w :: 0 <= w < |s.workers| ==> WorkerAt(s, w))
  }

  ghost predicate Inv(s: State)
  {
    Located(s) && Reported(s) && Outcomes(s)
  }

  // ---- framing ----

  /** Worker w works on tile t of batch b; nothing else changes. */
  ghost predicate Local(s: State, s': State, w: nat, b: nat, t: nat)
  {
    && w < |s.workers| == |s'.workers|
    && (forall v :: 0 <= v < |s.workers| && v != w ==> s'.workers[v] == s.workers[v])
    && s'.completions == s.completions
    && |s.batches| == |s.hist| == |s'.batches| == |s'.hist|
    && (forall c :: 0 <= c < |s.batches| && c != b ==> s'.batches[c] == s.batches[c] && s'.hist[c] == s.hist[c])
    && b < |s.batches|
    && s'.batches[b].keys == s.batches[b].keys && s'.batches[b].tileSize == s.batches[b].tileSize
    && s'.batches[b].op == s.batches[b].op
    && (s.batches[b].anyFailed ==> s'.batches[b].anyFailed)
    && |s'.hist[b].ran| == |s.hist[b].ran|
    && (forall u :: 0 <= u < |s.hist[b].ran| && u != t ==> s'.hist[b].ran[u] == s.hist[b].ran[u])
    && (forall u :: u != t ==> (u in s'.hist[b].errors <==> u in s.hist[b].errors))
    && (forall u :: u != t && u in s.hist[b].errors ==> s'.hist[b].errors[u] == s.hist[b].errors[u])
    && (forall u :: u != t ==> (u in s'.hist[b].recorded <==> u in s.hist[b].recorded))
    && s.hist[b].reporter == Counting
  }

  lemma OtherWorker(s: State, s': State, w: nat, b: nat, t: nat, v: nat)
    requires Inv(s) && Local(s, s', w, b, t) && v < |s.workers| && v != w
    requires Holds(s.workers[v]) && s.workers[v].req.batch == b ==> s.workers[v].req.tile != t
    ensures WorkerAt(s', v)
  {
    assert WorkerAt(s, v);
    if Reports(s.workers[v]) { assert s.hist[s.workers[v].batch].reporter == ReportedBy(v); }
  }

  lemma OtherBatch(s: State, s': State, w: nat, b: nat, t: nat, c: nat)
    requires Inv(s) && Local(s, s', w, b, t) && c < |s.batches| && c != b
    requires Reports(s.workers[w]) ==> s.workers[w].batch == b
    requires Reports(s'.workers[w]) ==> s'.workers[w].batch == b
    ensures BatchOk(s', c)
  {
    assert BatchOk(s, c);
    assert ReporterOk(s, c);
  }

  /** A tile belongs to one worker only. */
  lemma OneHolder(s: State, v: nat, w: nat)
    requires Located(s) && v < |s.workers| && w < |s.workers| && v != w
    requires Holds(s.workers[v]) && Holds(s.workers[w])
    ensures s.workers[v].req.batch != s.workers[w].req.batch || s.workers[v].req.tile != s.workers[w].req.tile
  {
    assert RequestAt(s, s.workers[v].req, Held(v));
    assert RequestAt(s, s.workers[w].req, Held(w));
  }

  lemma OutcomesLocal(s: State, s': State, w: nat, b: nat, t: nat)
    requires Inv(s) && Local(s, s', w, b, t)
    requires !Reports(s.workers[w])
    requires Reports(s'.workers[w]) ==> s'.workers[w].batch == b
    requires forall v :: 0 <= v < |s.workers| && v != w && Holds(s.workers[v]) && s.workers[v].req.batch == b
               ==> s.workers[v].req.tile != t
    requires BatchOk(s', b) && WorkerAt(s', w)
    ensures Outcomes(s')
  {
    forall c | 0 <= c < |s'.batches| ensures BatchOk(s', c) {
      if c != b { OtherBatch(s, s', w, b, t, c); }
    }
    forall v | 0 <= v < |s'.workers| ensures WorkerAt(s', v) {
      if v != w { OtherWorker(s, s', w, b, t, v); }
    }
  }

  /** The shape shared by every step of a worker on the tile it holds. */
  lemma OutcomesHeld(s: State, s': State, w: nat)
    requires Inv(s) && w < |s.workers| && Holds(s.workers[w])
    requires Local(s, s', w, s.workers[w].req.batch, s.workers[w].req.tile)
    requires Reports(s'.workers[w]) ==> s'.workers[w].batch == s.workers[w].req.batch
    requires BatchOk(s', s.workers[w].req.batch) && WorkerAt(s', w)
    ensures Outcomes(s')
  {
    forall v | 0 <= v < |s.workers| && v != w && Holds(s.workers[v]) && s.workers[v].req.batch == s.workers[w].req.batch
      ensures s.workers[v].req.tile != s.workers[w].req.tile
    {
      OneHolder(s, v, w);
    }
    OutcomesLocal(s, s', w, s.workers[w].req.batch, s.workers[w].req.tile);
  }

  /** The facts a worker has about the tile it holds. */
  lemma HeldFacts(s: State, w: nat)
    requires Inv(s) && w < |s.workers| && Holds(s.workers[w])
    ensures var req := s.workers[w].req;
            && Known(s, req.batch, req.tile)
            && s.hist[req.batch].reporter == Counting
            && s.hist[req.batch].places[req.tile] == Held(w)
            && req == MakeRequest(s.batches[req.batch], req.batch, req.tile)
            && BatchOk(s, req.batch) && WorkerAt(s, w)
            && |s.hist[req.batch].places| == |s.hist[req.batch].ran|
            && TileRan(s.batches[req.batch], s.hist[req.batch], req.tile)
            && BytesOk(s.batches[req.batch], s.hist[req.batch], s.batches[req.batch].bytes)
  {
    HeldIsCounting(s, w);
    assert RequestAt(s, s.workers[w].req, Held(w));
    assert BatchOk(s, s.workers[w].req.batch);
  }

  // ---- one lemma per step that touches a batch ----

  lemma OutcomesThrow(s: State, a: Action)
    requires Inv(s) && Enabled(s, a) && (a.Throw? || a.Complete?)
    ensures Outcomes(Step(s, a))
  {
    hide Inv, Outcomes;
    HeldFacts(s, a.w);
    var s' := Step(s, a);
    OutcomesHeld(s, s', a.w);
  }

  /** Writing one byte at the position of key i of tile t touches no other position. */
  lemma BytesAfterRun(batch: Batch, h: History, t: nat, i: nat, answer: bool, h': History)
    requires BytesOk(batch, h, batch.bytes) && batch.op == BatchExists
    requires t < |h.ran| == |h'.ran| && i == |h.ran[t]| < |Items(batch, t)|
    requires h'.ran == h.ran[t := h.ran[t] + [(Items(batch, t)[i], answer)]]
    ensures TileStart(batch.tileSize, t) + i < |batch.bytes|
    ensures BytesOk(batch, h', Put(batch.bytes, TileStart(batch.tileSize, t) + i, answer))
  {
    var p := TileStart(batch.tileSize, t) + i;
    assert ByteOk(batch, h.ran[t], batch.bytes, t, i);
    forall u, j | 0 <= u < |h'.ran| && 0 <= j < |Items(batch, u)|
      ensures ByteOk(batch, h'.ran[u], Put(batch.bytes, p, answer), u, j)
    {
      assert ByteOk(batch, h.ran[u], batch.bytes, u, j);
      if u != t || j != i {
        ItemsBounded(batch, u);
        ItemsBounded(batch, t);
        if TileStart(batch.tileSize, u) + j == p { TilePositionsUnique(batch.tileSize, u, j, t, i); }
      }
    }
  }

  lemma ItemsBounded(batch: Batch, t: nat)
    ensures |Items(batch, t)| <= batch.tileSize
  {}

  lemma RanAfterRun(batch: Batch, batch': Batch, h: History, h': History, t: nat, answer: bool)
    requires RanOk(batch, h) && batch'.keys == batch.keys && batch'.tileSize == batch.tileSize
    requires t < |h.ran| && |h.ran[t]| < |Items(batch, t)| && h.places[t].Held? && t !in h.errors
    requires h' == h.(ran := h.ran[t := h.ran[t] + [(Items(batch, t)[|h.ran[t]|], answer)]])
    ensures RanOk(batch', h')
  {
    forall u | 0 <= u < |h'.places| ensures TileRan(batch', h', u) {
      assert TileRan(batch, h, u);
    }
  }

  lemma RunKeyLocal(s: State, w: nat, answer: bool)
    requires Enabled(s, RunKey(w, answer)) && s.hist[s.workers[w].req.batch].reporter == Counting
    ensures Local(s, DoRunKey(s, w, answer), w, s.workers[w].req.batch, s.workers[w].req.tile)
  {}

  lemma RunKeyBatch(s: State, w: nat, answer: bool)
    requires Enabled(s, RunKey(w, answer))
    requires var req := s.workers[w].req;
             && s.hist[req.batch].reporter == Counting && s.hist[req.batch].places[req.tile].Held?
             && req == MakeRequest(s.batches[req.batch], req.batch, req.tile)
             && ErrorsOk(s.batches[req.batch], s.hist[req.batch]) && RanOk(s.batches[req.batch], s.hist[req.batch])
             && BytesOk(s.batches[req.batch], s.hist[req.batch], s.batches[req.batch].bytes)
             && req.tile !in s.hist[req.batch].errors && s.workers[w].next == |s.hist[req.batch].ran[req.tile]|
    ensures BatchOk(DoRunKey(s, w, answer), s.workers[w].req.batch)
  {
    var s' := DoRunKey(s, w, answer);
    var b, t := s.workers[w].req.batch, s.workers[w].req.tile;
    RanAfterRun(s.batches[b], s'.batches[b], s.hist[b], s'.hist[b], t, answer);
    if s.batches[b].op == BatchExists {
      BytesAfterRun(s.batches[b], s.hist[b], t, |s.hist[b].ran[t]|, answer, s'.hist[b]);
      SameBytes(s.batches[b], s'.batches[b], s'.hist[b], s'.hist[b], s'.batches[b].bytes);
    }
  }

  lemma OutcomesRunKey(s: State, w: nat, answer: bool)
    requires Inv(s) && Enabled(s, RunKey(w, answer))
    ensures Outcomes(DoRunKey(s, w, answer))
  {
    hide Inv, Outcomes;
    HeldFacts(s, w);
    RunKeyLocal(s, w, answer);
    RunKeyBatch(s, w, answer);
    OutcomesHeld(s, DoRunKey(s, w, answer), w);
  }

  lemma SameBytes(batch: Batch, batch': Batch, h: History, h': History, bytes: seq<nat>)
    requires BytesOk(batch, h, bytes) && batch'.op == batch.op && batch'.keys == batch.keys && batch'.tileSize == batch.tileSize
    requires h'.ran == h.ran
    ensures BytesOk(batch', h', bytes)
  {
    if batch.op == BatchExists {
      forall t, j | 0 <= t < |h'.ran| && 0 <= j < |Items(batch', t)| ensures ByteOk(batch', h'.ran[t], bytes, t, j) {
        assert ByteOk(batch, h.ran[t], bytes, t, j);
      }
    }
  }

  lemma SameRan(batch: Batch, batch': Batch, h: History, h': History)
    requires RanOk(batch, h) && batch'.keys == batch.keys && batch'.tileSize == batch.tileSize
    requires h'.ran == h.ran && h'.errors == h.errors && |h'.places| == |h.places|
    requires forall t :: 0 <= t < |h.places| && h'.places[t] != h.places[t] ==>
               h'.places[t] == Done && (t !in h.errors ==> |h.ran[t]| == |Items(batch, t)|)
    ensures RanOk(batch', h')
  {
    forall t | 0 <= t < |h'.places| ensures TileRan(batch', h', t) {
      assert TileRan(batch, h, t);
    }
  }

  /** Errors of other tiles do not change which recorded error comes first. */
  lemma {:induction false} FirstNonEmptyAgrees(recorded: seq<nat>, e1: map<nat, string>, e2: map<nat, string>)
    requires forall t :: t in recorded ==> t in e1 && t in e2 && e1[t] == e2[t]
    ensures FirstNonEmpty(recorded, e1) == FirstNonEmpty(recorded, e2)
  {
    if recorded != [] {
      var front := recorded[..|recorded| - 1];
      assert forall t :: t in front ==> t in recorded;
      assert recorded[|recorded| - 1] in recorded;
      FirstNonEmptyAgrees(front, e1, e2);
    }
  }

  lemma OutcomesCheckStop(s: State, w: nat)
    requires Inv(s) && Enabled(s, CheckStop(w))
    ensures Outcomes(DoCheckStop(s, w))
  {
    hide Inv, Outcomes;
    HeldFacts(s, w);
    var s' := DoCheckStop(s, w);
    var b, t := s.workers[w].req.batch, s.workers[w].req.tile;
    FirstNonEmptyAgrees(s.hist[b].recorded, s.hist[b].errors, s'.hist[b].errors);
    forall u | 0 <= u < |s'.hist[b].places| ensures TileRan(s'.batches[b], s'.hist[b], u) {
      assert TileRan(s.batches[b], s.hist[b], u);
    }
    if !s.stop { assert t in s'.hist[b].errors; }
    OutcomesHeld(s, s', w);
  }

  lemma OutcomesMarkFailed(s: State, w: nat)
    requires Inv(s) && Enabled(s, MarkFailed(w))
    ensures Outcomes(DoMarkFailed(s, w))
  {
    hide Inv, Outcomes;
    HeldFacts(s, w);
    var s' := DoMarkFailed(s, w);
    var b := s.workers[w].req.batch;
    SameRan(s.batches[b], s'.batches[b], s.hist[b], s'.hist[b]);
    SameBytes(s.batches[b], s'.batches[b], s.hist[b], s'.hist[b], s.batches[b].bytes);
    assert Local(s, s', w, b, s.workers[w].req.tile);
    OutcomesHeld(s, s', w);
  }

  lemma ErrorsAfterRecord(batch: Batch, batch': Batch, h: History, h': History, t: nat)
    requires ErrorsOk(batch, h) && t in h.errors && t !in h.recorded && batch.anyFailed && batch'.anyFailed
    requires batch'.firstError == if batch.firstError == "" then h.errors[t] else batch.firstError
    requires h' == h.(recorded := h.recorded + [t])
    ensures ErrorsOk(batch', h')
  {
    assert h'.recorded[..|h'.recorded| - 1] == h.recorded;
  }

  lemma RecordErrorLocal(s: State, w: nat)
    requires Enabled(s, RecordError(w)) && s.hist[s.workers[w].req.batch].reporter == Counting
    ensures Local(s, DoRecordError(s, w), w, s.workers[w].req.batch, s.workers[w].req.tile)
  {}

  lemma OutcomesRecordError(s: State, w: nat)
    requires Inv(s) && Enabled(s, RecordError(w))
    ensures Outcomes(DoRecordError(s, w))
  {
    hide Inv, Outcomes;
    HeldFacts(s, w);
    var s' := DoRecordError(s, w);
    var b, t := s.workers[w].req.batch, s.workers[w].req.tile;
    RecordErrorLocal(s, w);
    ErrorsAfterRecord(s.batches[b], s'.batches[b], s.hist[b], s'.hist[b], t);
    SameRan(s.batches[b], s'.batches[b], s.hist[b], s'.hist[b]);
    SameBytes(s.batches[b], s'.batches[b], s.hist[b], s'.hist[b], s.batches[b].bytes);
    OutcomesHeld(s, s', w);
  }

  lemma CountDownLocal(s: State, w: nat)
    requires Enabled(s, CountDown(w)) && s.hist[s.workers[w].req.batch].reporter == Counting
    ensures Local(s, DoCountDown(s, w), w, s.workers[w].req.batch, s.workers[w].req.tile)
  {}

  lemma CountDownBatch(s: State, w: nat)
    requires Enabled(s, CountDown(w))
    requires var req := s.workers[w].req; var batch, h := s.batches[req.batch], s.hist[req.batch];
             && h.reporter == Counting && ErrorsOk(batch, h) && RanOk(batch, h) && BytesOk(batch, h, batch.bytes)
             && req.keys == Items(batch, req.tile)
             && (req.tile in h.errors ==> req.tile in h.recorded)
             && (req.tile !in h.errors ==> |h.ran[req.tile]| == |req.keys|)
    ensures BatchOk(DoCountDown(s, w), s.workers[w].req.batch)
  {
    var s' := DoCountDown(s, w);
    var b := s.workers[w].req.batch;
    SameRan(s.batches[b], s'.batches[b], s.hist[b], s'.hist[b]);
    SameBytes(s.batches[b], s'.batches[b], s.hist[b], s'.hist[b], s.batches[b].bytes);
  }

  lemma OutcomesCountDown(s: State, w: nat)
    requires Inv(s) && Enabled(s, CountDown(w))
    ensures Outcomes(DoCountDown(s, w))
  {
    hide Inv, Outcomes;
    HeldFacts(s, w);
    CountDownLocal(s, w);
    CountDownBatch(s, w);
    OutcomesHeld(s, DoCountDown(s, w), w);
  }

  // ---- reporting a finished batch ----

  /** When the last tile is counted down every tile is done, so the shared state is final. */
  lemma FinishedOutcome(s: State, w: nat, ok: bool, error: string, bytes: seq<nat>)
    requires Inv(s) && w < |s.workers| && (s.workers[w].LastOne? || s.workers[w].LastFailed?)
    requires var b := s.workers[w].batch;
             b < |s.batches| ==>
               && ok == !s.batches[b].anyFailed
               && error == (if ok then "" else s.batches[b].firstError)
               && bytes == if s.batches[b].op == BatchExists then s.batches[b].bytes else []
    ensures var b := s.workers[w].batch;
            b < |s.batches| && Outcome(s.batches[b], s.hist[b], Completion(b + 1, ok, error, bytes))
  {
    var b := s.workers[w].batch;
    assert ReporterOk(s, b) && BatchOk(s, b);
    assert BatchShape(|s.workers|, s.batches[b], s.hist[b]);
    NotDoneAll(s.hist[b].places);
    var h := s.hist[b];
    assert forall t :: t in h.errors ==> t in h.recorded;
    if !s.batches[b].anyFailed {
      assert h.recorded == [];
      assert h.errors == map[];
    }
  }

  /** The completion a reporter builds tells the batch's outcome. */
  lemma OutcomesReported(s: State, w: nat, ok: bool)
    requires Inv(s) && w < |s.workers| && (s.workers[w].LastOne? || s.workers[w].LastFailed?)
    requires s.workers[w].batch < |s.batches| && ok == !s.batches[s.workers[w].batch].anyFailed
    ensures var b := s.workers[w].batch;
            Outcomes(Report(s, w, b, ok, if ok then "" else s.batches[b].firstError))
  {
    assert |s.batches| == |s.hist|;
    hide Inv, Outcomes;
    var b := s.workers[w].batch;
    var s' := Report(s, w, b, ok, if ok then "" else s.batches[b].firstError);
    var comp := s'.workers[w].comp;
    FinishedOutcome(s, w, comp.ok, comp.error, comp.bytes);
    OutcomeKept(s.batches[b], s'.batches[b], s.hist[b], s'.hist[b], comp);
    ReportFrame(s, s', w);
  }

  lemma OutcomesLoadFailed(s: State, w: nat)
    requires Inv(s) && Enabled(s, LoadFailed(w))
    ensures Outcomes(DoLoadFailed(s, w))
  {
    hide Inv, Outcomes, Report;
    if s.batches[s.workers[w].batch].anyFailed { ReportFrame(s, DoLoadFailed(s, w), w); } else { OutcomesReported(s, w, true); }
  }

  lemma OutcomesReadError(s: State, w: nat)
    requires Inv(s) && Enabled(s, ReadError(w))
    ensures Outcomes(DoReadError(s, w))
  {
    assert WorkerAt(s, w);
    hide Inv, Outcomes, Report;
    OutcomesReported(s, w, false);
  }

  /** Moving the result bytes out of the batch changes neither its history nor its keys. */
  lemma OutcomeKept(batch: Batch, batch': Batch, h: History, h': History, comp: Completion)
    requires Outcome(batch, h, comp)
    requires batch'.op == batch.op && batch'.keys == batch.keys && batch'.tileSize == batch.tileSize
    requires h' == h.(reporter := h'.reporter)
    ensures Outcome(batch', h', comp)
  {
    SameRan(batch, batch', h, h');
    SameBytes(batch, batch', h, h', comp.bytes);
  }

  lemma ReportFrame(s: State, s': State, w: nat)
    requires Inv(s) && w < |s.workers| == |s'.workers| && (s.workers[w].LastOne? || s.workers[w].LastFailed?)
    requires forall v :: 0 <= v < |s.workers| && v != w ==> s'.workers[v] == s.workers[v]
    requires s'.hist == s.hist && s'.completions == s.completions && |s'.batches| == |s.batches|
    requires var b := s.workers[w].batch;
             && b < |s.batches|
             && (forall c :: 0 <= c < |s.batches| && c != b ==> s'.batches[c] == s.batches[c])
             && (s'.batches[b] == s.batches[b] || (s'.workers[w].Emitting? && s'.batches[b] == s.batches[b].(bytes := s'.batches[b].bytes)))
             && (s'.workers[w] == LastFailed(b) || s'.workers[w].Emitting?)
             && s'.workers[w].batch == b
             && WorkerOk(s'.workers[w], s'.batches[b], s'.hist[b])
    ensures Outcomes(s')
  {
    var b := s.workers[w].batch;
    forall c | 0 <= c < |s'.batches| ensures BatchOk(s', c) {
      assert BatchOk(s, c) && ReporterOk(s, c);
      if c == b { SameRan(s.batches[b], s'.batches[b], s.hist[b], s'.hist[b]); }
    }
    forall v | 0 <= v < |s'.workers| ensures WorkerAt(s', v) {
      assert WorkerAt(s, v);
      if v != w {
        if Holds(s.workers[v]) { HeldIsCounting(s, v); }
      }
    }
  }

  /** Publishing batch b's completion leaves every other worker's batch alone. */
  lemma PushFrame(s: State, w: nat, v: nat)
    requires Inv(s) && Enabled(s, Push(w)) && v < |s.workers| && v != w
    ensures WorkerAt(DoPush(s, w), v)
  {
    assert WorkerAt(s, v);
    assert ReporterOk(s, s.workers[w].batch);
    if Holds(s.workers[v]) { HeldIsCounting(s, v); }
  }

  lemma PushSelf(s: State, w: nat)
    requires Enabled(s, Push(w))
    requires var b := s.workers[w].batch;
             && ErrorsOk(s.batches[b], s.hist[b]) && RanOk(s.batches[b], s.hist[b])
             && Outcome(s.batches[b], s.hist[b], s.workers[w].comp)
    ensures BatchOk(DoPush(s, w), s.workers[w].batch)
  {
    var s' := DoPush(s, w);
    var b := s.workers[w].batch;
    OutcomeKept(s.batches[b], s'.batches[b], s.hist[b], s'.hist[b], s.workers[w].comp);
    SameRan(s.batches[b], s'.batches[b], s.hist[b], s'.hist[b]);
  }

  lemma PushOther(s: State, w: nat, c: nat)
    requires Enabled(s, Push(w)) && c < |s.batches| && c != s.workers[w].batch
    requires BatchOk(s, c) && ReporterOk(s, c)
    ensures BatchOk(DoPush(s, w), c)
  {}

  lemma OutcomesPush(s: State, w: nat)
    requires Inv(s) && Enabled(s, Push(w))
    ensures Outcomes(DoPush(s, w))
  {
    var s' := DoPush(s, w);
    forall c | 0 <= c < |s'.batches| ensures BatchOk(s', c) {
      assert BatchOk(s, c) && ReporterOk(s, c) && WorkerAt(s, w);
      if c == s.workers[w].batch { PushSelf(s, w); } else { PushOther(s, w, c); }
    }
    forall v | 0 <= v < |s'.workers| ensures WorkerAt(s', v) {
      if v != w { PushFrame(s, w, v); }
    }
  }

  // ---- submitting and taking ----

  lemma OutcomesSubmit(s: State, op: Op, keys: seq<string>)
    requires Inv(s) && Enabled(s, Submit(op, keys))
    ensures Outcomes(DoSubmit(s, op, keys))
  {
    var s' := DoSubmit(s, op, keys);
    var n := |s.batches|;
    FreshBatch(|s.workers|, op, keys);
    forall c | 0 <= c < |s'.batches| ensures BatchOk(s', c) {
      if c < n { assert BatchOk(s, c); }
    }
    forall v | 0 <= v < |s'.workers| ensures WorkerAt(s', v) {
      assert WorkerAt(s, v);
    }
  }

  lemma FreshBatch(n: nat, op: Op, keys: seq<string>)
    requires 1 <= n && keys != []
    ensures var batch := NewBatch(n, op, keys); var h := NewHistory(batch.tiles);
            ErrorsOk(batch, h) && RanOk(batch, h) && BytesOk(batch, h, batch.bytes)
  {
    var batch := NewBatch(n, op, keys);
    var h := NewHistory(batch.tiles);
    forall t, j | 0 <= t < |h.ran| && 0 <= j < |Items(batch, t)| && op == BatchExists
      ensures ByteOk(batch, h.ran[t], batch.bytes, t, j)
    {
      assert TileStart(batch.tileSize, t) + j < TileEnd(batch.tileSize, t, |keys|);
    }
  }

  lemma OutcomesEnqueue(s: State, b: nat)
    requires Inv(s) && Enabled(s, Enqueue(b))
    ensures Outcomes(DoEnqueue(s, b))
  {
    var s' := DoEnqueue(s, b);
    assert BatchOk(s, b);
    EnqueueShape(s, b);
    forall u | 0 <= u < |s'.hist[b].places| ensures TileRan(s'.batches[b], s'.hist[b], u) {
      assert TileRan(s.batches[b], s.hist[b], u);
    }
    UnfinishedMoves(s, s', b, s.batches[b].sent);
  }

  lemma TakeBatch(s: State, w: nat)
    requires Enabled(s, Take(w)) && RequestAt(s, s.queue[0], Queued)
    requires ErrorsOk(s.batches[s.queue[0].batch], s.hist[s.queue[0].batch])
    requires RanOk(s.batches[s.queue[0].batch], s.hist[s.queue[0].batch])
    ensures var s' := DoTake(s, w); var req := s.queue[0]; var b := req.batch;
            && req.tile < |s'.hist[b].ran|
            && ErrorsOk(s'.batches[b], s'.hist[b]) && RanOk(s'.batches[b], s'.hist[b])
            && WorkerOk(s'.workers[w], s'.batches[b], s'.hist[b])
  {
    var s' := DoTake(s, w);
    var b, t := s.queue[0].batch, s.queue[0].tile;
    assert TileRan(s.batches[b], s.hist[b], t);
    forall u | 0 <= u < |s'.hist[b].places| ensures TileRan(s'.batches[b], s'.hist[b], u) {
      assert TileRan(s.batches[b], s.hist[b], u);
    }
  }

  lemma OutcomesTake(s: State, w: nat)
    requires Inv(s) && Enabled(s, Take(w))
    ensures Outcomes(DoTake(s, w))
  {
    assert RequestAt(s, s.queue[0], Queued);
    assert BatchOk(s, s.queue[0].batch);
    TakeBatch(s, w);
    UnfinishedMoves(s, DoTake(s, w), s.queue[0].batch, s.queue[0].tile);
  }

  /** A tile moves on before any of its keys has run; workers at other tiles are not affected. */
  lemma UnfinishedMoves(s: State, s': State, b: nat, t: nat)
    requires Inv(s) && Known(s, b, t) && |s'.workers| == |s.workers|
    requires s'.completions == s.completions && |s'.batches| == |s.batches| == |s'.hist|
    requires forall c :: 0 <= c < |s.batches| && c != b ==> s'.batches[c] == s.batches[c] && s'.hist[c] == s.hist[c]
    requires s.hist[b].places[t] != Done
    requires s'.batches[b] == s.batches[b].(sent := s'.batches[b].sent)
    requires s'.hist[b] == s.hist[b].(places := s'.hist[b].places)
    requires ErrorsOk(s'.batches[b], s'.hist[b]) && RanOk(s'.batches[b], s'.hist[b])
    requires forall v :: 0 <= v < |s.workers| && s'.workers[v] != s.workers[v] ==>
               && s.workers[v] == Waiting && s'.workers[v].Running? && s'.workers[v].req.batch == b
               && s'.workers[v].req.tile < |s'.hist[b].ran|
               && WorkerOk(s'.workers[v], s'.batches[b], s'.hist[b])
    ensures Outcomes(s')
  {
    assert BatchShape(|s.workers|, s.batches[b], s.hist[b]);
    NotDoneAll(s.hist[b].places);
    forall c | 0 <= c < |s'.batches| ensures BatchOk(s', c) {
      assert BatchOk(s, c) && ReporterOk(s, c);
      if c == b { SameBytes(s.batches[b], s'.batches[b], s.hist[b], s'.hist[b], s.batches[b].bytes); }
    }
    forall v | 0 <= v < |s'.workers| ensures WorkerAt(s', v) {
      assert WorkerAt(s, v);
      assert ReporterOk(s, b);
    }
  }

  lemma OutcomesSame(s: State, s': State)
    requires Inv(s) && s'.batches == s.batches && s'.hist == s.hist && s'.completions == s.completions
    requires |s'.workers| == |s.workers|
    requires forall v :: 0 <= v < |s.workers| ==>
               s'.workers[v] == s.workers[v] || (!Holds(s'.workers[v]) && !Reports(s'.workers[v]) && !Reports(s.workers[v]))
    ensures Outcomes(s')
  {
    forall c | 0 <= c < |s'.batches| ensures BatchOk(s', c) {
      assert BatchOk(s, c) && ReporterOk(s, c);
    }
    forall v | 0 <= v < |s'.workers| ensures WorkerAt(s', v) {
      assert WorkerAt(s, v);
    }
  }

  lemma OutcomesRest(s: State, a: Action)
    requires Inv(s) && Enabled(s, a)
    requires a.Close? || a.Connect? || a.Quit? || a.Exchange? || a.WriteFd? || a.StartDrain? || a.ReadFd? || a.Pop?
    ensures Outcomes(Step(s, a))
  {
    OutcomesSame(s, Step(s, a));
  }

  lemma OutcomesStep(s: State, a: Action)
    requires Inv(s) && Enabled(s, a)
    ensures Outcomes(Step(s, a))
  {
    hide Inv, Outcomes, Enabled, DoSubmit, DoEnqueue, DoTake, DoRunKey, DoCheckStop, DoMarkFailed, DoRecordError,
         DoCountDown, DoLoadFailed, DoReadError, DoPush, DoExchange, DoWriteFd, DoReadFd, DoPop, Goto;
    match a {
      case Submit(op, keys) => OutcomesSubmit(s, op, keys);
      case Enqueue(b) => OutcomesEnqueue(s, b);
      case Take(w) => OutcomesTake(s, w);
      case RunKey(w, answer) => OutcomesRunKey(s, w, answer);
      case Throw(w, what) => OutcomesThrow(s, a);
      case Complete(w) => OutcomesThrow(s, a);
      case CheckStop(w) => OutcomesCheckStop(s, w);
      case MarkFailed(w) => OutcomesMarkFailed(s, w);
      case RecordError(w) => OutcomesRecordError(s, w);
      case CountDown(w) => OutcomesCountDown(s, w);
      case LoadFailed(w) => OutcomesLoadFailed(s, w);
      case ReadError(w) => OutcomesReadError(s, w);
      case Push(w) => OutcomesPush(s, w);
      case _ => OutcomesRest(s, a);
    }
  }

  lemma InvStep(s: State, a: Action)
    requires Inv(s) && Enabled(s, a)
    ensures Inv(Step(s, a))
  {
    hide Located, Reported, Outcomes, Step, Enabled;
    LocatedStep(s, a);
    ReportedStep(s, a);
    OutcomesStep(s, a);
  }
}
