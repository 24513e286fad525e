/** The inductive invariants of the connector's state machine. */
module ConnectorInvariants {
  import opened Tiling
  import opened Connector

  predicate Holds(pc: Worker)
  {
    pc.Running? || pc.Caught? || pc.Failed? || pc.Recording? || pc.Finishing?
  }

  predicate Reports(pc: Worker)
  {
    pc.LastOne? || pc.LastFailed? || pc.Emitting?
  }

  /** Tiles that have not yet been counted down: unsent, queued, held by a worker or lost. */
  function NotDone(places: seq<Place>): nat
  {
    if places == [] then 0 else NotDone(places[..|places| - 1]) + if places[|places| - 1] == Done then 0 else 1
  }

  ghost predicate BatchShape(numWorkers: nat, batch: Batch, h: History)
  {
    && numWorkers >= 1 && batch.keys != []
    && batch.tiles == NumTiles(numWorkers, |batch.keys|)
    && batch.tileSize == TileSize(numWorkers, |batch.keys|)
    && |h.places| == |h.ran| == batch.tiles
    && batch.sent <= batch.tiles
    && (forall t :: 0 <= t < batch.tiles ==> (h.places[t] == Unsent <==> t >= batch.sent))
    && batch.remaining == NotDone(h.places)
  }

  ghost predicate RequestAt(s: State, req: Request, place: Place)
  {
    && |s.hist| == |s.batches| && req.batch < |s.batches|
    && req.tile < |s.hist[req.batch].places|
    && req == MakeRequest(s.batches[req.batch], req.batch, req.tile)
    && s.hist[req.batch].places[req.tile] == place
  }

  ghost predicate InQueue(s: State, b: nat, t: nat)
  {
    exists q :: 0 <= q < |s.queue| && s.queue[q].batch == b && s.queue[q].tile == t
  }

  ghost predicate PlaceOk(s: State, b: nat, t: nat)
    requires |s.hist| == |s.batches| && b < |s.batches| && t < |s.hist[b].places|
  {
    match s.hist[b].places[t]
    case Held(w) => w < |s.workers| && Holds(s.workers[w]) && s.workers[w].req.batch == b && s.workers[w].req.tile == t
    case Queued => InQueue(s, b, t)
    case Lost => s.stop
    case _ => true
  }

  ghost predicate Located(s: State)
  {
    && |s.hist| == |s.batches|
    && (forall b :: 0 <= b < |s.batches| ==> BatchShape(|s.workers|, s.batches[b], s.hist[b]))
    && (forall w :: 0 <= w < |s.workers| ==> Holds(s.workers[w]) ==> RequestAt(s, s.workers[w].req, Held(w)))
    && (forall q :: 0 <= q < |s.queue| ==> RequestAt(s, s.queue[q], Queued))
    && (forall p, q :: 0 <= p < q < |s.queue| ==> s.queue[p].batch != s.queue[q].batch || s.queue[p].tile != s.queue[q].tile)
    && (forall b, t :: 0 <= b < |s.hist| && 0 <= t < |s.hist[b].places| ==> PlaceOk(s, b, t))
  }

  lemma {:induction false} NotDoneUpdate(places: seq<Place>, t: nat, p: Place)
    requires t < |places|
    ensures NotDone(places[t := p]) ==
            NotDone(places) + (if p == Done then 0 else 1) - (if places[t] == Done then 0 else 1)
  {
    var n := |places| - 1;
    if t == n {
      assert places[t := p][..n] == places[..n];
    } else {
      NotDoneUpdate(places[..n], t, p);
      assert places[t := p][..n] == places[..n][t := p];
    }
  }

  lemma {:induction false} NotDoneAll(places: seq<Place>)
    ensures NotDone(places) <= |places|
    ensures NotDone(places) == 0 <==> forall t :: 0 <= t < |places| ==> places[t] == Done
    ensures (forall t :: 0 <= t < |places| ==> places[t] != Done) ==> NotDone(places) == |places|
  {
    if places != [] {
      NotDoneAll(places[..|places| - 1]);
      assert forall t :: 0 <= t < |places| - 1 ==> places[..|places| - 1][t] == places[t];
    }
  }

  lemma LocatedInit(n: nat)
    ensures Located(Init(n))
  {}

  /** Moving one tile to a new place keeps the shape of its batch. */
  lemma MoveKeepsShape(n: nat, batch: Batch, h: History, t: nat, p: Place)
    requires BatchShape(n, batch, h) && t < batch.sent && p != Unsent
    requires p != Done && h.places[t] != Done
    ensures BatchShape(n, batch, h.(places := h.places[t := p]))
  {
    NotDoneUpdate(h.places, t, p);
  }

  lemma LocatedSubmit(s: State, op: Op, keys: seq<string>)
    requires Located(s) && Enabled(s, Submit(op, keys))
    ensures Located(DoSubmit(s, op, keys))
  {
    var s' := DoSubmit(s, op, keys);
    var n := |s.batches|;
    TilesCover(|s.workers|, |keys|);
    NotDoneAll(s'.hist[n].places);
    forall b, t | 0 <= b < |s'.hist| && 0 <= t < |s'.hist[b].places| ensures PlaceOk(s', b, t) {
      if b < n { assert PlaceOk(s, b, t); }
    }
  }

  /** The next tile to enqueue is unsent, so no queue entry names it. */
  lemma NextTileNotQueued(s: State, b: nat, q: nat)
    requires Located(s) && b < |s.batches| && q < |s.queue| && s.batches[b].sent < s.batches[b].tiles
    ensures s.queue[q].batch != b || s.queue[q].tile != s.batches[b].sent
  {
    assert RequestAt(s, s.queue[q], Queued);
    assert BatchShape(|s.workers|, s.batches[b], s.hist[b]);
    assert s.hist[b].places[s.batches[b].sent] == Unsent;
  }

  lemma EnqueueShape(s: State, b: nat)
    requires Located(s) && Enabled(s, Enqueue(b))
    ensures s.hist[b].places[s.batches[b].sent] == Unsent
    ensures BatchShape(|s.workers|, DoEnqueue(s, b).batches[b], DoEnqueue(s, b).hist[b])
  {
    assert BatchShape(|s.workers|, s.batches[b], s.hist[b]);
    NotDoneUpdate(s.hist[b].places, s.batches[b].sent, Queued);
  }

  lemma EnqueueKeepsRequest(s: State, b: nat, req: Request, p: Place)
    requires Located(s) && Enabled(s, Enqueue(b)) && RequestAt(s, req, p) && p != Unsent
    ensures RequestAt(DoEnqueue(s, b), req, p)
  {
    EnqueueShape(s, b);
  }

  lemma EnqueueKeepsPlace(s: State, b: nat, c: nat, t: nat)
    requires Located(s) && Enabled(s, Enqueue(b)) && c < |s.hist| && t < |s.hist[c].places|
    ensures PlaceOk(DoEnqueue(s, b), c, t)
  {
    var s' := DoEnqueue(s, b);
    assert PlaceOk(s, c, t);
    if c == b && t == s.batches[b].sent {
      var q := |s.queue|;
      assert s'.queue[q].batch == c && s'.queue[q].tile == t;
    } else if s.hist[c].places[t] == Queued {
      var q :| 0 <= q < |s.queue| && s.queue[q].batch == c && s.queue[q].tile == t;
      assert s'.queue[q] == s.queue[q];
    }
  }

  lemma LocatedEnqueue(s: State, b: nat)
    requires Located(s) && Enabled(s, Enqueue(b))
    ensures Located(DoEnqueue(s, b))
  {
    var s' := DoEnqueue(s, b);
    EnqueueShape(s, b);
    forall w | 0 <= w < |s'.workers| && Holds(s'.workers[w]) ensures RequestAt(s', s'.workers[w].req, Held(w)) {
      EnqueueKeepsRequest(s, b, s.workers[w].req, Held(w));
    }
    forall q | 0 <= q < |s'.queue| ensures RequestAt(s', s'.queue[q], Queued) {
      if q < |s.queue| { EnqueueKeepsRequest(s, b, s.queue[q], Queued); }
    }
    forall p, q | 0 <= p < q < |s'.queue|
      ensures s'.queue[p].batch != s'.queue[q].batch || s'.queue[p].tile != s'.queue[q].tile
    {
      if q == |s.queue| { NextTileNotQueued(s, b, p); }
    }
    forall c, t | 0 <= c < |s'.hist| && 0 <= t < |s'.hist[c].places| ensures PlaceOk(s', c, t) {
      EnqueueKeepsPlace(s, b, c, t);
    }
  }

  lemma TakeKeepsRequest(s: State, w: nat, req: Request, p: Place)
    requires Enabled(s, Take(w)) && RequestAt(s, req, p)
    requires req.batch != s.queue[0].batch || req.tile != s.queue[0].tile
    ensures RequestAt(DoTake(s, w), req, p)
  {}

  lemma TakeKeepsPlace(s: State, w: nat, b: nat, t: nat)
    requires Enabled(s, Take(w)) && |s.hist| == |s.batches| && b < |s.hist| && t < |s.hist[b].places|
    requires PlaceOk(s, b, t)
    ensures PlaceOk(DoTake(s, w), b, t)
  {
    var s' := DoTake(s, w);
    if (b != s.queue[0].batch || t != s.queue[0].tile) && s.hist[b].places[t] == Queued {
      var q :| 0 <= q < |s.queue| && s.queue[q].batch == b && s.queue[q].tile == t;
      assert s'.queue[q - 1] == s.queue[q];
    }
  }

  lemma TakeShapes(s: State, w: nat)
    requires Located(s) && Enabled(s, Take(w))
    ensures var s' := DoTake(s, w);
            && |s'.hist| == |s'.batches|
            && RequestAt(s', s.queue[0], Held(w))
            && forall b :: 0 <= b < |s'.batches| ==> BatchShape(|s'.workers|, s'.batches[b], s'.hist[b])
  {
    var req := s.queue[0];
    assert RequestAt(s, req, Queued);
    assert BatchShape(|s.workers|, s.batches[req.batch], s.hist[req.batch]);
    MoveKeepsShape(|s.workers|, s.batches[req.batch], s.hist[req.batch], req.tile, Held(w));
  }

  lemma LocatedTake(s: State, w: nat)
    requires Located(s) && Enabled(s, Take(w))
    ensures Located(DoTake(s, w))
  {
    var s' := DoTake(s, w);
    TakeShapes(s, w);
    assert RequestAt(s, s.queue[0], Queued);
    forall v | 0 <= v < |s'.workers| && Holds(s'.workers[v]) ensures RequestAt(s', s'.workers[v].req, Held(v)) {
      if v != w {
        assert RequestAt(s, s.workers[v].req, Held(v));
        TakeKeepsRequest(s, w, s.workers[v].req, Held(v));
      }
    }
    forall q | 0 <= q < |s'.queue| ensures RequestAt(s', s'.queue[q], Queued) {
      assert s'.queue[q] == s.queue[q + 1];
      TakeKeepsRequest(s, w, s.queue[q + 1], Queued);
    }
    forall b, t | 0 <= b < |s'.hist| && 0 <= t < |s'.hist[b].places| ensures PlaceOk(s', b, t) {
      assert PlaceOk(s, b, t);
      TakeKeepsPlace(s, w, b, t);
    }
  }

  /** Worker w gives up its tile, which goes to place p: counted down, or lost in a shutdown. */
  ghost predicate Leaves(s: State, s': State, w: nat, p: Place)
  {
    && w < |s.workers| && Holds(s.workers[w]) && (p == Done || (p == Lost && s.stop))
    && var b, t := s.workers[w].req.batch, s.workers[w].req.tile;
       && Known(s, b, t)
       && |s'.workers| == |s.workers| && !Holds(s'.workers[w])
       && (forall v :: 0 <= v < |s.workers| && v != w ==> s'.workers[v] == s.workers[v])
       && s'.queue == s.queue && s'.stop == s.stop
       && |s'.hist| == |s.hist| && |s'.batches| == |s.batches|
       && (forall c :: 0 <= c < |s.hist| && c != b ==> s'.hist[c] == s.hist[c] && s'.batches[c] == s.batches[c])
       && s'.batches[b] == s.batches[b].(remaining := s.batches[b].remaining - if p == Done then 1 else 0)
       && s'.hist[b].places == s.hist[b].places[t := p]
       && |s'.hist[b].ran| == |s.hist[b].ran|
  }

  /** No other request is at the tile that leaves. */
  lemma LeaveKeepsRequest(s: State, s': State, w: nat, p: Place, req: Request, place: Place)
    requires Located(s) && Leaves(s, s', w, p) && RequestAt(s, req, place) && place != Held(w)
    ensures RequestAt(s', req, place)
  {
    assert RequestAt(s, s.workers[w].req, Held(w));
  }

  lemma LeaveKeepsPlace(s: State, s': State, w: nat, p: Place, c: nat, u: nat)
    requires Located(s) && Leaves(s, s', w, p) && c < |s'.hist| && u < |s'.hist[c].places|
    ensures PlaceOk(s', c, u)
  {
    assert RequestAt(s, s.workers[w].req, Held(w));
    if c != s.workers[w].req.batch || u != s.workers[w].req.tile {
      assert PlaceOk(s, c, u);
      if s.hist[c].places[u] == Queued {
        var q :| 0 <= q < |s.queue| && s.queue[q].batch == c && s.queue[q].tile == u;
        assert s'.queue[q] == s.queue[q];
      }
    }
  }

  lemma LeaveKeepsShape(s: State, s': State, w: nat, p: Place, c: nat)
    requires Located(s) && Leaves(s, s', w, p) && c < |s'.batches|
    ensures BatchShape(|s'.workers|, s'.batches[c], s'.hist[c])
  {
    assert BatchShape(|s.workers|, s.batches[c], s.hist[c]);
    assert RequestAt(s, s.workers[w].req, Held(w));
    if c == s.workers[w].req.batch { NotDoneUpdate(s.hist[c].places, s.workers[w].req.tile, p); }
  }

  /** A tile leaves its worker. */
  lemma LocatedLeave(s: State, s': State, w: nat, p: Place)
    requires Located(s) && Leaves(s, s', w, p)
    ensures Located(s')
  {
    forall c | 0 <= c < |s'.batches| ensures BatchShape(|s'.workers|, s'.batches[c], s'.hist[c]) {
      LeaveKeepsShape(s, s', w, p, c);
    }
    forall v | 0 <= v < |s'.workers| && Holds(s'.workers[v]) ensures RequestAt(s', s'.workers[v].req, Held(v)) {
      LeaveKeepsRequest(s, s', w, p, s.workers[v].req, Held(v));
    }
    forall q | 0 <= q < |s'.queue| ensures RequestAt(s', s'.queue[q], Queued) {
      LeaveKeepsRequest(s, s', w, p, s.queue[q], Queued);
    }
    forall c, u | 0 <= c < |s'.hist| && 0 <= u < |s'.hist[c].places| ensures PlaceOk(s', c, u) {
      LeaveKeepsPlace(s, s', w, p, c, u);
    }
  }

  /** The steps that move no tile: the same requests stay with the same workers. */
  lemma LocatedStay(s: State, s': State)
    requires Located(s)
    requires |s'.workers| == |s.workers| && s'.queue == s.queue && (s.stop ==> s'.stop)
    requires forall w :: 0 <= w < |s.workers| ==>
               (Holds(s'.workers[w]) <==> Holds(s.workers[w])) && (Holds(s.workers[w]) ==> s'.workers[w].req == s.workers[w].req)
    requires |s'.hist| == |s.hist| == |s.batches| == |s'.batches|
    requires forall b :: 0 <= b < |s.batches| ==>
               && s'.hist[b].places == s.hist[b].places && |s'.hist[b].ran| == |s.hist[b].ran|
               && (var x, y := s.batches[b], s'.batches[b];
                   x.keys == y.keys && x.tiles == y.tiles && x.tileSize == y.tileSize && x.sent == y.sent && x.remaining == y.remaining)
    ensures Located(s')
  {
    forall b | 0 <= b < |s'.batches| ensures BatchShape(|s'.workers|, s'.batches[b], s'.hist[b]) {
      assert BatchShape(|s.workers|, s.batches[b], s.hist[b]);
    }
    forall w | 0 <= w < |s'.workers| && Holds(s'.workers[w]) ensures RequestAt(s', s'.workers[w].req, Held(w)) {
      assert RequestAt(s, s.workers[w].req, Held(w));
    }
    forall q | 0 <= q < |s'.queue| ensures RequestAt(s', s'.queue[q], Queued) {
      assert RequestAt(s, s.queue[q], Queued);
    }
    forall b, t | 0 <= b < |s'.hist| && 0 <= t < |s'.hist[b].places| ensures PlaceOk(s', b, t) {
      assert PlaceOk(s, b, t);
    }
  }

  lemma LocatedRunKey(s: State, w: nat, answer: bool)
    requires Located(s) && Enabled(s, RunKey(w, answer))
    ensures Located(DoRunKey(s, w, answer))
  {
    LocatedStay(s, DoRunKey(s, w, answer));
  }

  lemma LocatedMarkFailed(s: State, w: nat)
    requires Located(s) && Enabled(s, MarkFailed(w))
    ensures Located(DoMarkFailed(s, w))
  {
    LocatedStay(s, DoMarkFailed(s, w));
  }

  lemma LocatedRecordError(s: State, w: nat)
    requires Located(s) && Enabled(s, RecordError(w))
    ensures Located(DoRecordError(s, w))
  {
    LocatedStay(s, DoRecordError(s, w));
  }

  lemma LocatedLoadFailed(s: State, w: nat)
    requires Located(s) && Enabled(s, LoadFailed(w))
    ensures Located(DoLoadFailed(s, w))
  {
    LocatedStay(s, DoLoadFailed(s, w));
  }

  lemma LocatedReadError(s: State, w: nat)
    requires Located(s) && Enabled(s, ReadError(w))
    ensures Located(DoReadError(s, w))
  {
    LocatedStay(s, DoReadError(s, w));
  }

  lemma LocatedPush(s: State, w: nat)
    requires Located(s) && Enabled(s, Push(w))
    ensures Located(DoPush(s, w))
  {
    LocatedStay(s, DoPush(s, w));
  }

  /** Only program counters, the stop flag or the consumer's side change. */
  lemma LocatedRest(s: State, s': State)
    requires Located(s)
    requires s' == s.(workers := s'.workers, stop := s'.stop, signaled := s'.signaled,
                    eventfd := s'.eventfd, consumer := s'.consumer, taken := s'.taken)
    requires |s'.workers| == |s.workers| && (s.stop ==> s'.stop)
    requires forall w :: 0 <= w < |s.workers| ==>
               (Holds(s'.workers[w]) <==> Holds(s.workers[w])) && (Holds(s.workers[w]) ==> s'.workers[w].req == s.workers[w].req)
    ensures Located(s')
  {
    LocatedStay(s, s');
  }

  predicate PcOnly(a: Action) { a.Connect? || a.Quit? || a.Throw? || a.Complete? || a.Exchange? || a.WriteFd? }

  lemma LocatedPcOnly(s: State, a: Action)
    requires Located(s) && Enabled(s, a) && PcOnly(a)
    ensures Located(Step(s, a))
  {
    hide Located;
    LocatedRest(s, Step(s, a));
  }

  lemma LocatedElse(s: State, a: Action)
    requires Located(s) && Enabled(s, a) && (a.Close? || a.StartDrain? || a.ReadFd? || a.Pop?)
    ensures Located(Step(s, a))
  {
    hide Located;
    LocatedRest(s, Step(s, a));
  }

  lemma LocatedCheckStop(s: State, w: nat)
    requires Located(s) && Enabled(s, CheckStop(w))
    ensures Located(DoCheckStop(s, w))
  {
    if s.stop { LocatedLeave(s, DoCheckStop(s, w), w, Lost); } else { LocatedStay(s, DoCheckStop(s, w)); }
  }

  lemma LocatedCountDown(s: State, w: nat)
    requires Located(s) && Enabled(s, CountDown(w))
    ensures Located(DoCountDown(s, w))
  {
    LocatedLeave(s, DoCountDown(s, w), w, Done);
  }

  lemma LocatedStep(s: State, a: Action)
    requires Located(s) && Enabled(s, a)
    ensures Located(Step(s, a))
  {
    hide Located, Enabled, DoSubmit, DoEnqueue, DoTake, DoRunKey, DoCheckStop, DoMarkFailed, DoRecordError,
         DoCountDown, DoLoadFailed, DoReadError, DoPush, DoExchange, DoWriteFd, DoReadFd, DoPop, Goto;
    match a {
      case Submit(op, keys) => LocatedSubmit(s, op, keys);
      case Enqueue(b) => LocatedEnqueue(s, b);
      case Take(w) => LocatedTake(s, w);
      case RunKey(w, answer) => LocatedRunKey(s, w, answer);
      case CheckStop(w) => LocatedCheckStop(s, w);
      case MarkFailed(w) => LocatedMarkFailed(s, w);
      case RecordError(w) => LocatedRecordError(s, w);
      case CountDown(w) => LocatedCountDown(s, w);
      case LoadFailed(w) => LocatedLoadFailed(s, w);
      case ReadError(w) => LocatedReadError(s, w);
      case Push(w) => LocatedPush(s, w);
      case _ => if PcOnly(a) { LocatedPcOnly(s, a); } else { LocatedElse(s, a); }
    }
  }
}
