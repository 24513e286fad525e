/** The TTL lock under concurrency: any number of lock, unlock and reset calls, each a sequence of
    atomic steps, interleaved in any order.  Atomics are sequentially consistent; a failed
    compare-exchange means the value differs from the expected one. */
module TtlInterleaving {
  import TtlLock

  datatype Kind = Locking(now: int) | Unlocking | Resetting

  datatype Pc =
    | LoadExpiration                           // lock: start of an attempt
    | LoadCounter(expiration: int)
    | TryExpiration(expiration: int)           // lock, lease expired: compare-exchange expiration_ms_
    | StoreOne
    | TryIncrement(counter: int)               // lock, lease alive: compare-exchange counter_
    | StoreExpiration
    | LoadForUnlock                            // unlock: start of an attempt
    | TryDecrement(counter: int)
    | StoreZero | ClearExpiration              // reset
    | Finished

  /** A call in progress.  History: attempts that failed, steps and writes so far, and the total
      number of writes when the current attempt began. */
  datatype Call = Call(kind: Kind, pc: Pc, failures: nat, steps: nat, writes: nat, since: nat)

  /** History: all writes so far, and a bound on the counter: what it was at the start, or zero from the
      last reset's counter store on, and one for each counter write of lock() since. */
  datatype State = State(counter: int, expiration: int, ttl: int, calls: seq<Call>, writes: nat, lockWrites: nat)

  function Begin(kind: Kind): Call
  {
    Call(kind, match kind case Locking(_) => LoadExpiration case Unlocking => LoadForUnlock case Resetting => StoreZero, 0, 0, 0, 0)
  }

  /** A lock in any state, new or long in use, and calls that have not begun. */
  ghost predicate Init(s: State)
  {
    && 0 <= s.counter <= s.lockWrites && s.writes == 0
    && forall i :: 0 <= i < |s.calls| ==> s.calls[i] == Begin(s.calls[i].kind)
  }

  predicate WellTyped(c: Call)
  {
    match c.pc
    case LoadForUnlock => c.kind.Unlocking?
    case TryDecrement(_) => c.kind.Unlocking?
    case StoreZero => c.kind.Resetting?
    case ClearExpiration => c.kind.Resetting?
    case Finished => true
    case _ => c.kind.Locking?
  }

  predicate Enabled(s: State, i: nat)
  {
    i < |s.calls| && s.calls[i].pc != Finished && WellTyped(s.calls[i])
  }

  /** A step that writes nothing. */
  function Read(s: State, i: nat, pc: Pc, since: nat): State
    requires i < |s.calls|
  {
    var c := s.calls[i];
    s.(calls := s.calls[i := c.(pc := pc, steps := c.steps + 1, since := since)])
  }

  /** A compare-exchange that finds another value. */
  function Fail(s: State, i: nat, pc: Pc): State
    requires i < |s.calls|
  {
    var c := s.calls[i];
    s.(calls := s.calls[i := c.(pc := pc, steps := c.steps + 1, failures := c.failures + 1)])
  }

  function Write(s: State, i: nat, pc: Pc, counter: int, expiration: int, lockWrites: nat): State
    requires i < |s.calls|
  {
    var c := s.calls[i];
    s.(counter := counter, expiration := expiration, lockWrites := lockWrites, writes := s.writes + 1,
       calls := s.calls[i := c.(pc := pc, steps := c.steps + 1, writes := c.writes + 1)])
  }

  function Step(s: State, i: nat): State
    requires Enabled(s, i)
  {
    var c := s.calls[i];
    match c.pc
    case LoadExpiration => Read(s, i, LoadCounter(s.expiration), s.writes)
    case LoadCounter(e) => Read(s, i, if c.kind.now >= e then TryExpiration(e) else TryIncrement(s.counter), c.since)
    case TryExpiration(e) =>
      if s.expiration == e then Write(s, i, StoreOne, s.counter, c.kind.now + s.ttl, s.lockWrites)
      else Fail(s, i, LoadExpiration)
    case StoreOne => Write(s, i, Finished, 1, s.expiration, s.lockWrites + 1)
    case TryIncrement(n) =>
      if s.counter == n then Write(s, i, StoreExpiration, n + 1, s.expiration, s.lockWrites + 1)
      else Fail(s, i, LoadExpiration)
    case StoreExpiration => Write(s, i, Finished, s.counter, c.kind.now + s.ttl, s.lockWrites)
    case LoadForUnlock => Read(s, i, if s.counter <= 0 then Finished else TryDecrement(s.counter), s.writes)
    case TryDecrement(n) =>
      if s.counter == n then Write(s, i, Finished, n - 1, s.expiration, s.lockWrites)
      else Fail(s, i, LoadForUnlock)
    case StoreZero => Write(s, i, ClearExpiration, 0, s.expiration, 0)
    case ClearExpiration => Write(s, i, Finished, s.counter, 0, s.lockWrites)
    case Finished => s
  }

  ghost predicate Legal(s: State, schedule: seq<nat>)
    decreases |schedule|
  {
    schedule == [] || (Enabled(s, schedule[0]) && Legal(Step(s, schedule[0]), schedule[1..]))
  }

  function After(s: State, schedule: seq<nat>): State
    requires Legal(s, schedule)
    decreases |schedule|
  {
    if schedule == [] then s else After(Step(s, schedule[0]), schedule[1..])
  }

  // ---- the invariant ----

  function Writes(calls: seq<Call>): nat
  {
    if calls == [] then 0 else calls[0].writes + Writes(calls[1..])
  }

  function Steps(calls: seq<Call>): nat
  {
    if calls == [] then 0 else calls[0].steps + Steps(calls[1..])
  }

  /** Attempts begun so far: the failed ones and the one in progress or concluded. */
  function Attempts(calls: seq<Call>): nat
  {
    if calls == [] then 0 else calls[0].failures + (if calls[0].steps > 0 then 1 else 0) + Attempts(calls[1..])
  }

  /** While a call is still retrying it has written nothing. */
  predicate Retrying(pc: Pc)
  {
    pc.LoadExpiration? || pc.LoadCounter? || pc.TryExpiration? || pc.TryIncrement? || pc.LoadForUnlock? || pc.TryDecrement? || pc.StoreZero?
  }

  /** Steps taken in the attempt a program counter belongs to. */
  function Phase(pc: Pc): nat
  {
    match pc
    case LoadExpiration => 0 case LoadForUnlock => 0 case StoreZero => 0
    case LoadCounter(_) => 1 case TryDecrement(_) => 1 case ClearExpiration => 1
    case TryExpiration(_) => 2 case TryIncrement(_) => 2
    case StoreOne => 3 case StoreExpiration => 3
    case Finished => 4
  }

  /** A value loaded in this attempt is still current unless some call has written since. */
  ghost predicate CallOk(s: State, c: Call)
  {
    && WellTyped(c)
    && (Retrying(c.pc) ==> c.writes == 0)
    && (!Retrying(c.pc) && c.pc != Finished ==> c.writes == 1) && c.writes <= 2
    && (c.pc.Finished? ==> if c.kind.Unlocking? then c.writes <= 1 else c.writes == 2)
    && c.steps <= 3 * c.failures + Phase(c.pc)
    && match c.pc
       case LoadExpiration => c.failures <= s.writes
       case LoadForUnlock => c.failures <= s.writes
       case LoadCounter(e) => c.failures <= c.since <= s.writes && (s.writes == c.since ==> s.expiration == e)
       case TryExpiration(e) => c.failures <= c.since <= s.writes && (s.writes == c.since ==> s.expiration == e)
       case TryIncrement(n) => c.failures <= c.since <= s.writes && (s.writes == c.since ==> s.counter == n)
       case TryDecrement(n) => n > 0 && c.failures <= c.since <= s.writes && (s.writes == c.since ==> s.counter == n)
       case StoreZero => c.failures == 0
       case _ => c.failures <= 2 * (|s.calls| - 1)
  }

  ghost predicate Inv(s: State)
  {
    && s.writes == Writes(s.calls)
    && 0 <= s.counter <= s.lockWrites
    && forall i :: 0 <= i < |s.calls| ==> CallOk(s, s.calls[i])
  }

  lemma {:induction false} WritesUpdate(calls: seq<Call>, i: nat, c: Call)
    requires i < |calls|
    ensures Writes(calls[i := c]) == Writes(calls) + c.writes - calls[i].writes
  {
    if i > 0 {
      assert calls[i := c][1..] == calls[1..][i - 1 := c];
      WritesUpdate(calls[1..], i - 1, c);
    }
  }

  lemma {:induction false} StepsUpdate(calls: seq<Call>, i: nat, c: Call)
    requires i < |calls|
    ensures Steps(calls[i := c]) == Steps(calls) + c.steps - calls[i].steps
  {
    if i > 0 {
      assert calls[i := c][1..] == calls[1..][i - 1 := c];
      StepsUpdate(calls[1..], i - 1, c);
    }
  }

  /** Each call writes at most twice, so a call that has written nothing sees at most 2(n-1) writes. */
  lemma {:induction false} WritesBounded(calls: seq<Call>)
    requires forall i :: 0 <= i < |calls| ==> calls[i].writes <= 2
    ensures Writes(calls) <= 2 * |calls|
    ensures forall i :: 0 <= i < |calls| && calls[i].writes == 0 ==> Writes(calls) <= 2 * (|calls| - 1)
  {
    if calls != [] {
      WritesBounded(calls[1..]);
      forall i | 0 <= i < |calls| && calls[i].writes == 0 ensures Writes(calls) <= 2 * (|calls| - 1) {
        if i > 0 { assert calls[1..][i - 1] == calls[i]; }
      }
    }
  }

  lemma WritesSeen(s: State, i: nat)
    requires Inv(s) && i < |s.calls| && Retrying(s.calls[i].pc)
    ensures s.writes <= 2 * (|s.calls| - 1)
  {
    WritesBounded(s.calls);
  }

  lemma InvRead(s: State, i: nat)
    requires Inv(s) && Enabled(s, i)
    requires s.calls[i].pc.LoadExpiration? || s.calls[i].pc.LoadCounter? || s.calls[i].pc.LoadForUnlock?
    ensures Inv(Step(s, i))
  {
    var s' := Step(s, i);
    WritesSeen(s, i);
    WritesUpdate(s.calls, i, s'.calls[i]);
    assert CallOk(s, s.calls[i]);
    forall j | 0 <= j < |s'.calls| ensures CallOk(s', s'.calls[j]) { assert CallOk(s, s.calls[j]); }
  }

  lemma InvFail(s: State, i: nat)
    requires Inv(s) && Enabled(s, i)
    requires (s.calls[i].pc.TryExpiration? && s.expiration != s.calls[i].pc.expiration)
          || (s.calls[i].pc.TryIncrement? && s.counter != s.calls[i].pc.counter)
          || (s.calls[i].pc.TryDecrement? && s.counter != s.calls[i].pc.counter)
    ensures Inv(Step(s, i))
  {
    var s' := Step(s, i);
    WritesUpdate(s.calls, i, s'.calls[i]);
    assert CallOk(s, s.calls[i]);
    forall j | 0 <= j < |s'.calls| ensures CallOk(s', s'.calls[j]) { assert CallOk(s, s.calls[j]); }
  }

  /** A write outdates whatever the other calls have loaded, which only weakens what is known of them. */
  lemma InvWritten(s: State, i: nat, pc: Pc, counter: int, expiration: int, lockWrites: nat)
    requires Inv(s) && i < |s.calls| && 0 <= counter <= lockWrites
    requires CallOk(Write(s, i, pc, counter, expiration, lockWrites), Write(s, i, pc, counter, expiration, lockWrites).calls[i])
    ensures Inv(Write(s, i, pc, counter, expiration, lockWrites))
  {
    var s' := Write(s, i, pc, counter, expiration, lockWrites);
    WritesUpdate(s.calls, i, s'.calls[i]);
    forall j | 0 <= j < |s'.calls| ensures CallOk(s', s'.calls[j]) {
      if j != i { assert CallOk(s, s.calls[j]); }
    }
  }

  /** A compare-exchange that succeeds: the call's first write. */
  lemma InvExchange(s: State, i: nat)
    requires Inv(s) && Enabled(s, i)
    requires match s.calls[i].pc
             case TryExpiration(e) => s.expiration == e
             case TryIncrement(n) => s.counter == n
             case TryDecrement(n) => s.counter == n
             case _ => false
    ensures Inv(Step(s, i))
  {
    var c := s.calls[i];
    assert CallOk(s, c);
    WritesSeen(s, i);
    assert 0 <= s.counter <= s.lockWrites;
    hide Inv;
    match c.pc {
      case TryExpiration(e) => InvWritten(s, i, StoreOne, s.counter, c.kind.now + s.ttl, s.lockWrites);
      case TryIncrement(n) => InvWritten(s, i, StoreExpiration, n + 1, s.expiration, s.lockWrites + 1);
      case TryDecrement(n) => InvWritten(s, i, Finished, n - 1, s.expiration, s.lockWrites);
    }
  }

  lemma InvStore(s: State, i: nat)
    requires Inv(s) && Enabled(s, i)
    requires s.calls[i].pc.StoreOne? || s.calls[i].pc.StoreExpiration? || s.calls[i].pc.StoreZero? || s.calls[i].pc.ClearExpiration?
    ensures Inv(Step(s, i))
  {
    var c := s.calls[i];
    assert CallOk(s, c);
    assert 0 <= s.counter <= s.lockWrites;
    hide Inv;
    match c.pc {
      case StoreOne => InvWritten(s, i, Finished, 1, s.expiration, s.lockWrites + 1);
      case StoreExpiration => InvWritten(s, i, Finished, s.counter, c.kind.now + s.ttl, s.lockWrites);
      case StoreZero => InvWritten(s, i, ClearExpiration, 0, s.expiration, 0);
      case ClearExpiration => InvWritten(s, i, Finished, s.counter, 0, s.lockWrites);
    }
  }

  lemma InvStep(s: State, i: nat)
    requires Inv(s) && Enabled(s, i)
    ensures Inv(Step(s, i))
    ensures Steps(Step(s, i).calls) == Steps(s.calls) + 1
  {
    StepsUpdate(s.calls, i, Step(s, i).calls[i]);
    match s.calls[i].pc {
      case LoadExpiration => InvRead(s, i);
      case LoadCounter(_) => InvRead(s, i);
      case LoadForUnlock => InvRead(s, i);
      case TryExpiration(e) => if s.expiration == e { InvExchange(s, i); } else { InvFail(s, i); }
      case TryIncrement(n) => if s.counter == n { InvExchange(s, i); } else { InvFail(s, i); }
      case TryDecrement(n) => if s.counter == n { InvExchange(s, i); } else { InvFail(s, i); }
      case _ => InvStore(s, i);
    }
  }

  lemma {:induction false} NothingYet(calls: seq<Call>)
    requires forall i :: 0 <= i < |calls| ==> calls[i] == Begin(calls[i].kind)
    ensures Writes(calls) == 0 && Steps(calls) == 0
  {
    if calls != [] {
      assert calls[0] == Begin(calls[0].kind);
      NothingYet(calls[1..]);
    }
  }

  lemma {:induction false} InvRun(s: State, schedule: seq<nat>)
    requires Inv(s) && Legal(s, schedule)
    ensures Inv(After(s, schedule)) && |After(s, schedule).calls| == |s.calls|
    ensures Steps(After(s, schedule).calls) == Steps(s.calls) + |schedule|
    decreases |schedule|
  {
    if schedule != [] {
      InvStep(s, schedule[0]);
      InvRun(Step(s, schedule[0]), schedule[1..]);
    }
  }

  ghost predicate Reachable(s0: State, s: State)
  {
    Init(s0) && exists schedule :: Legal(s0, schedule) && s == After(s0, schedule)
  }

  lemma InvReachable(s0: State, s: State)
    requires Reachable(s0, s)
    ensures Inv(s) && |s.calls| == |s0.calls|
  {
    NothingYet(s0.calls);
    var schedule :| Legal(s0, schedule) && s == After(s0, schedule);
    InvRun(s0, schedule);
  }

  // ---- what holds in every interleaving ----

  /** The counter never goes below zero and never exceeds the counter at the start, or zero from the last
      reset's counter store on, plus the counter writes made by lock() since. */
  lemma CounterBounds(s0: State, s: State)
    requires Reachable(s0, s)
    ensures 0 <= s.counter <= s.lockWrites
  {
    InvReachable(s0, s);
  }

  /** A compare-exchange about to fail follows a write made inside this attempt by another call: there
      was such a write, and the failing call itself has written nothing. */
  lemma FailureIsCharged(s0: State, s: State, i: nat)
    requires Reachable(s0, s) && Enabled(s, i) && Step(s, i).calls[i].failures > s.calls[i].failures
    ensures s.writes > s.calls[i].since >= s.calls[i].failures && s.calls[i].writes == 0
  {
    InvReachable(s0, s);
    assert CallOk(s, s.calls[i]);
  }

  /** A lock or reset that has returned has written both atomics, and an unlock at most the counter. */
  lemma FinishedHasWritten(s0: State, s: State, i: nat)
    requires Reachable(s0, s) && i < |s.calls| && s.calls[i].pc == Finished
    ensures if s.calls[i].kind.Unlocking? then s.calls[i].writes <= 1 else s.calls[i].writes == 2
  {
    InvReachable(s0, s);
    assert CallOk(s, s.calls[i]);
  }

  /** What a step can do to the two atomics and to its call.  A step that fails leaves them alone and begins
      the call again; an unlock that returns without a write has read a counter that is not positive. */
  lemma StepsMean(s: State, i: nat)
    requires Enabled(s, i)
    ensures var s', c, c' := Step(s, i), s.calls[i], Step(s, i).calls[i];
            && |s'.calls| == |s.calls| && (forall j :: 0 <= j < |s.calls| && j != i ==> s'.calls[j] == s.calls[j])
            && c'.kind == c.kind && c'.steps == c.steps + 1 && s'.ttl == s.ttl
            && (s'.counter != s.counter || s'.expiration != s.expiration ==> s'.writes == s.writes + 1 && c'.writes == c.writes + 1)
            && (s'.counter == s.counter || s'.expiration == s.expiration)
            && (c'.failures > c.failures ==>
                  c'.pc == Begin(c.kind).pc && c'.failures == c.failures + 1
                  && s'.counter == s.counter && s'.expiration == s.expiration && s'.writes == s.writes)
            && (c'.pc.Finished? && c'.writes == c.writes ==> c.kind.Unlocking? && s.counter <= 0)
            && s'.lockWrites == if c.pc.StoreZero? then 0
                                else if c.pc.StoreOne? || (c.pc.TryIncrement? && s'.writes > s.writes) then s.lockWrites + 1 else s.lockWrites
  {}

  lemma FailuresBounded(s: State, i: nat)
    requires Inv(s) && i < |s.calls|
    ensures s.calls[i].failures <= 2 * (|s.calls| - 1)
  {
    assert CallOk(s, s.calls[i]);
    if Retrying(s.calls[i].pc) { WritesSeen(s, i); }
  }

  lemma {:induction false} SumBounds(calls: seq<Call>, f: nat)
    requires forall i :: 0 <= i < |calls| ==> calls[i].failures <= f && calls[i].steps <= 3 * calls[i].failures + 4
    ensures Attempts(calls) <= |calls| * (f + 1)
    ensures Steps(calls) <= |calls| * (3 * f + 4)
  {
    if calls != [] {
      SumBounds(calls[1..], f);
      assert |calls| * (f + 1) == |calls[1..]| * (f + 1) + (f + 1);
      assert |calls| * (3 * f + 4) == |calls[1..]| * (3 * f + 4) + (3 * f + 4);
    }
  }

  /** n interleaved calls make at most n(2(n-1)+1) attempts in all. */
  lemma AttemptsQuadratic(s0: State, s: State)
    requires Reachable(s0, s)
    ensures var n := |s0.calls|; n > 0 ==> Attempts(s.calls) <= n * (2 * (n - 1) + 1)
  {
    InvReachable(s0, s);
    if |s.calls| > 0 {
      forall i | 0 <= i < |s.calls| ensures s.calls[i].failures <= 2 * (|s.calls| - 1) && s.calls[i].steps <= 3 * s.calls[i].failures + 4 {
        FailuresBounded(s, i);
        assert CallOk(s, s.calls[i]);
      }
      SumBounds(s.calls, 2 * (|s.calls| - 1));
    }
  }

  /** So every schedule ends: it has at most n(6(n-1)+4) steps. */
  lemma SchedulesTerminate(s0: State, schedule: seq<nat>)
    requires Init(s0) && Legal(s0, schedule) && |s0.calls| > 0
    ensures var n := |s0.calls|; |schedule| <= n * (6 * (n - 1) + 4)
  {
    var s := After(s0, schedule);
    NothingYet(s0.calls);
    InvRun(s0, schedule);
    forall i | 0 <= i < |s.calls| ensures s.calls[i].failures <= 2 * (|s.calls| - 1) && s.calls[i].steps <= 3 * s.calls[i].failures + 4 {
      FailuresBounded(s, i);
      assert CallOk(s, s.calls[i]);
    }
    SumBounds(s.calls, 2 * (|s.calls| - 1));
  }

  /** An unfinished call can always step, so a schedule that cannot be extended has finished all calls. */
  lemma UnfinishedCanStep(s0: State, s: State, i: nat)
    requires Reachable(s0, s) && i < |s.calls| && s.calls[i].pc != Finished
    ensures Enabled(s, i)
  {
    InvReachable(s0, s);
    assert CallOk(s, s.calls[i]);
  }

  function AsEvent(kind: Kind): TtlLock.Event
  {
    match kind case Locking(now) => TtlLock.Lock(now) case Unlocking => TtlLock.Unlock case Resetting => TtlLock.Reset
  }

  /** In s' call i has finished, no other call has moved, and the two atomics are as after the
      sequential call. */
  predicate ActedAs(s: State, i: nat, s': State)
    requires i < |s.calls|
  {
    && |s'.calls| == |s.calls| && s'.calls == s.calls[i := s'.calls[i]]
    && s'.calls[i].pc == Finished && s'.calls[i].kind == s.calls[i].kind && s'.ttl == s.ttl
    && TtlLock.Cells(s'.counter, s'.expiration)
       == TtlLock.Apply(TtlLock.Cells(s.counter, s.expiration), AsEvent(s.calls[i].kind), s.ttl)
  }

  function Repeat(i: nat, k: nat): seq<nat>
  {
    if k == 0 then [] else [i] + Repeat(i, k - 1)
  }

  /** A call that runs without interruption finishes within four steps and acts on the two atomics
      as the sequential lock does. */
  lemma AloneIsSequential(s: State, i: nat)
    requires i < |s.calls| && s.calls[i] == Begin(s.calls[i].kind)
    ensures exists k: nat :: k <= 4 && Legal(s, Repeat(i, k)) && ActedAs(s, i, After(s, Repeat(i, k)))
  {
    var s1 := Step(s, i);
    match s.calls[i].kind {
      case Locking(now) =>
        var s2 := Step(s1, i);
        var s3 := Step(s2, i);
        var s4 := Step(s3, i);
        StepThen(s3, i, Repeat(i, 0), s4);
        StepThen(s2, i, Repeat(i, 1), s4);
        StepThen(s1, i, Repeat(i, 2), s4);
        StepThen(s, i, Repeat(i, 3), s4);
        assert After(s, Repeat(i, 4)) == s4;
      case Unlocking =>
        if s.counter <= 0 {
          StepThen(s, i, Repeat(i, 0), s1);
          assert After(s, Repeat(i, 1)) == s1;
        } else {
          var s2 := Step(s1, i);
          StepThen(s1, i, Repeat(i, 0), s2);
          StepThen(s, i, Repeat(i, 1), s2);
          assert After(s, Repeat(i, 2)) == s2;
        }
      case Resetting =>
        var s2 := Step(s1, i);
        StepThen(s1, i, Repeat(i, 0), s2);
        StepThen(s, i, Repeat(i, 1), s2);
        assert After(s, Repeat(i, 2)) == s2;
    }
  }

  /** The count itself is not kept under contention.  Two locks meet an expired lease: the first
      renews it, the second increments the old counter, and the first then stores one. */
  lemma RacingLocksLoseCount()
    ensures var s0 := RacingStart();
            var schedule := [0, 0, 0, 1, 1, 1, 1, 0];
            && Init(s0) && Legal(s0, schedule)
            && var s := After(s0, schedule);
               s.calls[0].pc == Finished && s.calls[1].pc == Finished && s.counter == 1 && s.lockWrites == 2
  {
    var k := Locking(5);
    var s3 := State(0, 1005, 1000, [Call(k, StoreOne, 0, 3, 1, 0), Begin(k)], 1, 0);
    var s7 := State(1, 1005, 1000, [Call(k, StoreOne, 0, 3, 1, 0), Call(k, Finished, 0, 4, 2, 1)], 3, 1);
    var s8 := State(1, 1005, 1000, [Call(k, Finished, 0, 4, 2, 0), Call(k, Finished, 0, 4, 2, 1)], 4, 2);
    StepThen(s7, 0, [], s8);
    RacingSecond(s3, s7);
    StepThen(Step(Step(Step(s3, 1), 1), 1), 1, [0], s8);
    StepThen(Step(Step(s3, 1), 1), 1, [1, 0], s8);
    StepThen(Step(s3, 1), 1, [1, 1, 0], s8);
    StepThen(s3, 1, [1, 1, 1, 0], s8);
    RacingFirst(s3);
    StepThen(Step(Step(RacingStart(), 0), 0), 0, [1, 1, 1, 1, 0], s8);
    StepThen(Step(RacingStart(), 0), 0, [0, 1, 1, 1, 1, 0], s8);
    StepThen(RacingStart(), 0, [0, 0, 1, 1, 1, 1, 0], s8);
  }

  function RacingStart(): State
  {
    State(0, 0, 1000, [Begin(Locking(5)), Begin(Locking(5))], 0, 0)
  }

  lemma StepThen(s: State, i: nat, rest: seq<nat>, t: State)
    requires Enabled(s, i) && Legal(Step(s, i), rest) && After(Step(s, i), rest) == t
    ensures Legal(s, [i] + rest) && After(s, [i] + rest) == t
  {
    assert ([i] + rest)[1..] == rest;
  }

  lemma RacingFirst(s3: State)
    requires s3 == State(0, 1005, 1000, [Call(Locking(5), StoreOne, 0, 3, 1, 0), Begin(Locking(5))], 1, 0)
    ensures var s0 := RacingStart();
            && Enabled(s0, 0) && Enabled(Step(s0, 0), 0) && Enabled(Step(Step(s0, 0), 0), 0)
            && Step(Step(Step(s0, 0), 0), 0) == s3
  {}

  lemma RacingSecond(s3: State, s7: State)
    requires s3 == State(0, 1005, 1000, [Call(Locking(5), StoreOne, 0, 3, 1, 0), Begin(Locking(5))], 1, 0)
    requires s7 == State(1, 1005, 1000, [Call(Locking(5), StoreOne, 0, 3, 1, 0), Call(Locking(5), Finished, 0, 4, 2, 1)], 3, 1)
    ensures && Enabled(s3, 1) && Enabled(Step(s3, 1), 1) && Enabled(Step(Step(s3, 1), 1), 1)
            && Enabled(Step(Step(Step(s3, 1), 1), 1), 1)
            && Step(Step(Step(Step(s3, 1), 1), 1), 1) == s7
  {}
}
