/** The batch connector as a state machine.  Every lock-held section, atomic operation, eventfd
    read or eventfd write of the connector is one step; any interleaving of the submitting
    threads, the workers and the one consumer is a run.  Atomics are sequentially consistent. */
module Connector {
  import opened Tiling

  datatype Op = BatchGet | BatchSet | BatchExists

  /** One tile on the submission queue. */
  datatype Request = Request(batch: nat, tile: nat, start: nat, keys: seq<string>)

  datatype Completion = Completion(id: nat, ok: bool, error: string, bytes: seq<nat>)

  /** The state the threads share about one batch, after the fields the submitter keeps:
      its key list, the tiling and the number of tiles it has enqueued. */
  datatype Batch = Batch(
    op: Op, keys: seq<string>, tiles: nat, tileSize: nat, sent: nat,
    remaining: int, anyFailed: bool, firstError: string, bytes: seq<nat>)

  /** History, read by no step: where each tile is, which keys each tile has completed and with
      what answer, the errors that were not swallowed by a shutdown, the tiles whose error went
      through the error section (in that order), and who reports the batch. */
  datatype Place = Unsent | Queued | Held(worker: nat) | Lost | Done
  datatype Reporter = Counting | ReportedBy(worker: nat) | Published(index: nat)
  datatype History = History(
    places: seq<Place>, ran: seq<seq<(string, bool)>>, errors: map<nat, string>,
    recorded: seq<nat>, reporter: Reporter)

  /** A worker's program counter with its local variables. */
  datatype Worker =
    | Starting                                // before create_connection
    | Waiting                                 // at the submission queue
    | Running(req: Request, next: nat)        // next key of the tile
    | Caught(req: Request, error: string)     // exception caught, stop_ not yet read
    | Failed(req: Request, error: string)     // before any_failed.store
    | Recording(req: Request, error: string)  // before the err_mu section
    | Finishing(req: Request)                 // before remaining_tiles.fetch_sub
    | LastOne(batch: nat)                     // fetch_sub reached zero
    | LastFailed(batch: nat)                  // any_failed was set
    | Emitting(batch: nat, comp: Completion)  // before the push
    | Pushed                                  // before signaled_.exchange
    | Won                                     // before the eventfd write
    | Stopped

  datatype Consumer = Outside | Reading | Popping

  /** completions lists every completion ever pushed; the first `taken` of them have been popped,
      so the completion queue is completions[taken..]. */
  datatype State = State(
    workers: seq<Worker>, batches: seq<Batch>, hist: seq<History>, queue: seq<Request>,
    completions: seq<Completion>, taken: nat, signaled: bool, eventfd: nat,
    consumer: Consumer, stop: bool)

  datatype Action =
    | Submit(op: Op, keys: seq<string>) | Enqueue(b: nat) | Close
    | Connect(w: nat, up: bool) | Take(w: nat) | Quit(w: nat)
    | RunKey(w: nat, answer: bool) | Throw(w: nat, what: string) | Complete(w: nat)
    | CheckStop(w: nat) | MarkFailed(w: nat) | RecordError(w: nat) | CountDown(w: nat)
    | LoadFailed(w: nat) | ReadError(w: nat)
    | Push(w: nat) | Exchange(w: nat) | WriteFd(w: nat)
    | StartDrain | ReadFd | Pop

  function Init(numWorkers: nat): State
  {
    State(seq(numWorkers, _ => Starting), [], [], [], [], 0, false, 0, Outside, false)
  }

  function MakeRequest(batch: Batch, b: nat, t: nat): Request
  {
    Request(b, t, TileStart(batch.tileSize, t), TileItems(batch.keys, batch.tileSize, t))
  }

  function NewBatch(numWorkers: nat, op: Op, keys: seq<string>): Batch
    requires 1 <= numWorkers && keys != []
  {
    var k := NumTiles(numWorkers, |keys|);
    Batch(op, keys, k, TileSize(numWorkers, |keys|), 0, k, false, "",
          if op == BatchExists then seq(|keys|, _ => 0) else [])
  }

  function NewHistory(tiles: nat): History
  {
    History(seq(tiles, _ => Unsent), seq(tiles, _ => []), map[], [], Counting)
  }

  /** Whether the tile a step works on exists; the invariant gives it for every request. */
  predicate Known(s: State, b: nat, t: nat)
  {
    |s.hist| == |s.batches| && b < |s.batches| && t < |s.hist[b].places| && t < |s.hist[b].ran|
  }

  predicate Enabled(s: State, a: Action)
  {
    match a
    case Submit(op, keys) => keys != [] && |s.workers| >= 1
    case Enqueue(b) => Known(s, b, 0) && s.batches[b].sent < s.batches[b].tiles && Known(s, b, s.batches[b].sent)
    case Close => !s.stop
    case Connect(w, _) => w < |s.workers| && s.workers[w] == Starting
    case Take(w) => w < |s.workers| && s.workers[w] == Waiting && s.queue != []
                    && Known(s, s.queue[0].batch, s.queue[0].tile)
    case Quit(w) => w < |s.workers| && s.workers[w] == Waiting && s.stop && s.queue == []
    case RunKey(w, _) => w < |s.workers| && s.workers[w].Running? && s.workers[w].next < |s.workers[w].req.keys|
                    && Known(s, s.workers[w].req.batch, s.workers[w].req.tile)
    case Throw(w, _) => w < |s.workers| && s.workers[w].Running? && s.workers[w].next < |s.workers[w].req.keys|
    case Complete(w) => w < |s.workers| && s.workers[w].Running? && s.workers[w].next == |s.workers[w].req.keys|
    case CheckStop(w) => w < |s.workers| && s.workers[w].Caught? && Known(s, s.workers[w].req.batch, s.workers[w].req.tile)
    case MarkFailed(w) => w < |s.workers| && s.workers[w].Failed? && Known(s, s.workers[w].req.batch, 0)
    case RecordError(w) => w < |s.workers| && s.workers[w].Recording? && Known(s, s.workers[w].req.batch, 0)
    case CountDown(w) => w < |s.workers| && s.workers[w].Finishing? && Known(s, s.workers[w].req.batch, s.workers[w].req.tile)
    case LoadFailed(w) => w < |s.workers| && s.workers[w].LastOne? && Known(s, s.workers[w].batch, 0)
    case ReadError(w) => w < |s.workers| && s.workers[w].LastFailed? && Known(s, s.workers[w].batch, 0)
    case Push(w) => w < |s.workers| && s.workers[w].Emitting? && Known(s, s.workers[w].batch, 0)
    case Exchange(w) => w < |s.workers| && s.workers[w] == Pushed
    case WriteFd(w) => w < |s.workers| && s.workers[w] == Won
    case StartDrain => s.consumer == Outside
    case ReadFd => s.consumer == Reading
    case Pop => s.consumer == Popping && s.taken <= |s.completions|
  }

  function Goto(s: State, w: nat, pc: Worker): State
    requires w < |s.workers|
  {
    s.(workers := s.workers[w := pc])
  }

  function SetBatch(s: State, b: nat, batch: Batch): State
    requires b < |s.batches|
  {
    s.(batches := s.batches[b := batch])
  }

  function SetHist(s: State, b: nat, h: History): State
    requires b < |s.hist|
  {
    s.(hist := s.hist[b := h])
  }

  function Put(bytes: seq<nat>, i: nat, answer: bool): seq<nat>
  {
    if i < |bytes| then bytes[i := if answer then 1 else 0] else bytes
  }

  function MoveTile(s: State, b: nat, t: nat, place: Place): State
    requires Known(s, b, t)
  {
    SetHist(s, b, s.hist[b].(places := s.hist[b].places[t := place]))
  }

  /** std::move of the result bytes into the completion, for EXISTS batches only. */
  function Report(s: State, w: nat, b: nat, ok: bool, error: string): State
    requires w < |s.workers| && b < |s.batches|
  {
    var batch := s.batches[b];
    var bytes := if batch.op == BatchExists then batch.bytes else [];
    var emptied := if batch.op == BatchExists then batch.(bytes := []) else batch;
    Goto(SetBatch(s, b, emptied), w, Emitting(b, Completion(b + 1, ok, error, bytes)))
  }

  // One function per step that does more than move a program counter.

  function DoSubmit(s: State, op: Op, keys: seq<string>): State
    requires Enabled(s, Submit(op, keys))
  {
    var batch := NewBatch(|s.workers|, op, keys);
    s.(batches := s.batches + [batch], hist := s.hist + [NewHistory(batch.tiles)])
  }

  function DoEnqueue(s: State, b: nat): State
    requires Enabled(s, Enqueue(b))
  {
    var batch := s.batches[b];
    var s1 := SetBatch(s, b, batch.(sent := batch.sent + 1));
    MoveTile(s1.(queue := s1.queue + [MakeRequest(batch, b, batch.sent)]), b, batch.sent, Queued)
  }

  function DoTake(s: State, w: nat): State
    requires Enabled(s, Take(w))
  {
    var req := s.queue[0];
    MoveTile(Goto(s.(queue := s.queue[1..]), w, Running(req, 0)), req.batch, req.tile, Held(w))
  }

  function DoRunKey(s: State, w: nat, answer: bool): State
    requires Enabled(s, RunKey(w, answer))
  {
    var req, i := s.workers[w].req, s.workers[w].next;
    var batch, h := s.batches[req.batch], s.hist[req.batch];
    var bytes := if batch.op == BatchExists then Put(batch.bytes, req.start + i, answer) else batch.bytes;
    var ran := h.ran[req.tile := h.ran[req.tile] + [(req.keys[i], answer)]];
    Goto(SetHist(SetBatch(s, req.batch, batch.(bytes := bytes)), req.batch, h.(ran := ran)), w, Running(req, i + 1))
  }

  /** An exception while stop_ is set ends the worker without a completion for the tile. */
  function DoCheckStop(s: State, w: nat): State
    requires Enabled(s, CheckStop(w))
  {
    var req, error := s.workers[w].req, s.workers[w].error;
    if s.stop then
      MoveTile(Goto(s, w, Stopped), req.batch, req.tile, Lost)
    else
      var h := s.hist[req.batch];
      SetHist(Goto(s, w, Failed(req, error)), req.batch, h.(errors := h.errors[req.tile := error]))
  }

  function DoMarkFailed(s: State, w: nat): State
    requires Enabled(s, MarkFailed(w))
  {
    var req, error := s.workers[w].req, s.workers[w].error;
    Goto(SetBatch(s, req.batch, s.batches[req.batch].(anyFailed := true)), w, Recording(req, error))
  }

  function DoRecordError(s: State, w: nat): State
    requires Enabled(s, RecordError(w))
  {
    var req, error := s.workers[w].req, s.workers[w].error;
    var batch, h := s.batches[req.batch], s.hist[req.batch];
    var batch' := if batch.firstError == "" then batch.(firstError := error) else batch;
    Goto(SetHist(SetBatch(s, req.batch, batch'), req.batch, h.(recorded := h.recorded + [req.tile])), w, Finishing(req))
  }

  function DoCountDown(s: State, w: nat): State
    requires Enabled(s, CountDown(w))
  {
    var req := s.workers[w].req;
    var b, t := req.batch, req.tile;
    var left := s.batches[b].remaining - 1;
    var h := s.hist[b].(places := s.hist[b].places[t := Done],
                        reporter := if left == 0 then ReportedBy(w) else s.hist[b].reporter);
    Goto(SetHist(SetBatch(s, b, s.batches[b].(remaining := left)), b, h), w, if left == 0 then LastOne(b) else Waiting)
  }

  function DoLoadFailed(s: State, w: nat): State
    requires Enabled(s, LoadFailed(w))
  {
    var b := s.workers[w].batch;
    if s.batches[b].anyFailed then Goto(s, w, LastFailed(b)) else Report(s, w, b, true, "")
  }

  function DoReadError(s: State, w: nat): State
    requires Enabled(s, ReadError(w))
  {
    var b := s.workers[w].batch;
    Report(s, w, b, false, s.batches[b].firstError)
  }

  function DoPush(s: State, w: nat): State
    requires Enabled(s, Push(w))
  {
    var b, comp := s.workers[w].batch, s.workers[w].comp;
    var h := s.hist[b].(reporter := Published(|s.completions|));
    Goto(SetHist(s.(completions := s.completions + [comp]), b, h), w, Pushed)
  }

  /** signaled_.exchange(true): only the producer that found it false writes the eventfd. */
  function DoExchange(s: State, w: nat): State
    requires Enabled(s, Exchange(w))
  {
    Goto(s.(signaled := true), w, if s.signaled then Waiting else Won)
  }

  function DoWriteFd(s: State, w: nat): State
    requires Enabled(s, WriteFd(w))
  {
    Goto(s.(eventfd := s.eventfd + 1), w, Waiting)
  }

  /** Reads until the eventfd would block. */
  function DoReadFd(s: State): State
    requires Enabled(s, ReadFd)
  {
    if s.eventfd > 0 then s.(eventfd := 0) else s.(consumer := Popping)
  }

  /** One lock-held section of the drain loop.  On an empty queue the re-check under the same lock
      finds the queue still empty, so it never writes the eventfd. */
  function DoPop(s: State): State
    requires Enabled(s, Pop)
  {
    if s.taken == |s.completions| then s.(signaled := false, consumer := Outside) else s.(taken := s.taken + 1)
  }

  function Step(s: State, a: Action): State
    requires Enabled(s, a)
  {
    match a
    case Submit(op, keys) => DoSubmit(s, op, keys)
    case Enqueue(b) => DoEnqueue(s, b)
    case Close => s.(stop := true)
    case Connect(w, up) => Goto(s, w, if up then Waiting else Stopped)
    case Take(w) => DoTake(s, w)
    case Quit(w) => Goto(s, w, Stopped)
    case RunKey(w, answer) => DoRunKey(s, w, answer)
    case Throw(w, what) => Goto(s, w, Caught(s.workers[w].req, what))
    case Complete(w) => Goto(s, w, Finishing(s.workers[w].req))
    case CheckStop(w) => DoCheckStop(s, w)
    case MarkFailed(w) => DoMarkFailed(s, w)
    case RecordError(w) => DoRecordError(s, w)
    case CountDown(w) => DoCountDown(s, w)
    case LoadFailed(w) => DoLoadFailed(s, w)
    case ReadError(w) => DoReadError(s, w)
    case Push(w) => DoPush(s, w)
    case Exchange(w) => DoExchange(s, w)
    case WriteFd(w) => DoWriteFd(s, w)
    case StartDrain => s.(consumer := Reading)
    case ReadFd => DoReadFd(s)
    case Pop => DoPop(s)
  }

  ghost predicate Legal(s: State, run: seq<Action>)
    decreases |run|
  {
    run == [] || (Enabled(s, run[0]) && Legal(Step(s, run[0]), run[1..]))
  }

  ghost function After(s: State, run: seq<Action>): State
    requires Legal(s, run)
    decreases |run|
  {
    if run == [] then s else After(Step(s, run[0]), run[1..])
  }
}
