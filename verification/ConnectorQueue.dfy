/** The submission queue over a run: tiles are handed to workers in the order in which they were enqueued. */
module ConnectorQueue {
  import opened Connector

  /** The requests enqueued in a run, in order: each Enqueue puts one behind all others. */
  function Sent(s: State, run: seq<Action>): seq<Request>
    requires Legal(s, run)
    decreases |run|
  {
    if run == [] then []
    else
      var s' := Step(s, run[0]);
      (if run[0].Enqueue? && s'.queue != [] then [s'.queue[|s'.queue| - 1]] else []) + Sent(s', run[1..])
  }

  /** The requests handed to workers, in order: each Take leaves its worker with one. */
  function Handed(s: State, run: seq<Action>): seq<Request>
    requires Legal(s, run)
    decreases |run|
  {
    if run == [] then []
    else
      var s' := Step(s, run[0]);
      (if run[0].Take? && run[0].w < |s'.workers| && s'.workers[run[0].w].Running? then [s'.workers[run[0].w].req] else [])
      + Handed(s', run[1..])
  }

  lemma QueueStep(s: State, a: Action)
    requires Enabled(s, a)
    ensures a.Enqueue? ==> |Step(s, a).queue| == |s.queue| + 1 && Step(s, a).queue[..|s.queue|] == s.queue
    ensures a.Take? ==> s.queue != [] && Step(s, a).queue == s.queue[1..] && a.w < |Step(s, a).workers|
                        && Step(s, a).workers[a.w] == Running(s.queue[0], 0)
    ensures !a.Enqueue? && !a.Take? ==> Step(s, a).queue == s.queue
  {
    hide MakeRequest, Put, NewBatch, NewHistory;
  }

  lemma Regroup<T>(q: seq<T>, x: seq<T>, sent: seq<T>, y: seq<T>, q': seq<T>, handed: seq<T>, last: seq<T>)
    requires q + x == y + q' && q' + sent == handed + last
    ensures q + (x + sent) == (y + handed) + last
  {
    assert q + (x + sent) == (q + x) + sent == y + (q' + sent);
  }

  /** What was queued and enqueued, in order, is what was handed out and what is still queued. */
  lemma {:induction false} FirstInFirstOut(s: State, run: seq<Action>)
    requires Legal(s, run)
    ensures s.queue + Sent(s, run) == Handed(s, run) + After(s, run).queue
    decreases |run|
  {
    if run != [] {
      QueueStep(s, run[0]);
      hide Step, Enabled;
      var s', rest := Step(s, run[0]), run[1..];
      FirstInFirstOut(s', rest);
      var x := if run[0].Enqueue? && s'.queue != [] then [s'.queue[|s'.queue| - 1]] else [];
      var y := if run[0].Take? && run[0].w < |s'.workers| && s'.workers[run[0].w].Running? then [s'.workers[run[0].w].req] else [];
      assert Sent(s, run) == x + Sent(s', rest) && Handed(s, run) == y + Handed(s', rest);
      assert s.queue + x == y + s'.queue;
      hide Sent, Handed;
      Regroup(s.queue, x, Sent(s', rest), y, s'.queue, Handed(s', rest), After(s', rest).queue);
    }
  }

  // ---- the other cells that steps of a run set ----

  lemma CellsStep(s: State, a: Action)
    requires Enabled(s, a)
    ensures Step(s, a).stop <==> s.stop || a == Close
    ensures Step(s, a).eventfd == if a.WriteFd? then s.eventfd + 1 else if a.ReadFd? then 0 else s.eventfd
    ensures |Step(s, a).completions| == |s.completions| + if a.Push? then 1 else 0
    ensures Step(s, a).taken == s.taken || (a.Pop? && Step(s, a).taken == s.taken + 1 <= |s.completions|)
  {
    hide MakeRequest, Put, NewBatch, NewHistory;
  }

  /** A new connector is open, and closed exactly from a Close of the run on. */
  lemma StopIsClosed(n: nat, run: seq<Action>)
    requires Legal(Init(n), run)
    ensures After(Init(n), run).stop <==> Close in run
  {
    StopFrom(Init(n), run);
  }

  lemma {:induction false} StopFrom(s: State, run: seq<Action>)
    requires Legal(s, run)
    ensures After(s, run).stop <==> s.stop || Close in run
    decreases |run|
  {
    if run != [] {
      CellsStep(s, run[0]);
      hide Step, Enabled;
      StopFrom(Step(s, run[0]), run[1..]);
      assert run == [run[0]] + run[1..];
    }
  }

  /** The eventfd writes of a run that no read has consumed. */
  function Unread(run: seq<Action>): nat
  {
    if run == [] || run[|run| - 1].ReadFd? then 0
    else Unread(run[..|run| - 1]) + if run[|run| - 1].WriteFd? then 1 else 0
  }

  /** The eventfd counts the writes since the last read. */
  lemma {:induction false} EventfdCounts(n: nat, run: seq<Action>)
    requires Legal(Init(n), run)
    ensures After(Init(n), run).eventfd == Unread(run)
    decreases |run|
  {
    if run != [] {
      var front, a := run[..|run| - 1], run[|run| - 1];
      assert run == front + [a];
      LastStep(Init(n), front, a);
      EventfdCounts(n, front);
      CellsStep(After(Init(n), front), a);
    }
    hide Step, Enabled;
  }

  lemma {:induction false} LastStep(s: State, run: seq<Action>, a: Action)
    requires Legal(s, run + [a])
    ensures Legal(s, run) && Enabled(After(s, run), a) && After(s, run + [a]) == Step(After(s, run), a)
    decreases |run|
  {
    hide Step, Enabled;
    if run == [] {
      assert [] + [a] == [a] && [a][1..] == [];
    } else {
      assert (run + [a])[1..] == run[1..] + [a];
      LastStep(Step(s, run[0]), run[1..], a);
    }
  }
}
