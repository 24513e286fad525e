/** The engine's record of how good the cached copy of each prefix is: a state per prefix and an
    access counter that triggers promotion, updated after each store and each retrieve. */
module Fidelity {
  import opened Basics

  datatype Level = Full | Base

  datatype State = Miss | BaseReady | Promoting | FullReady | FullEvicted

  /** A finished store or retrieve with what the update reads of it: the level, the skip_save flag, the
      prefix identifier, the tokens retrieved and the promotion flag. */
  datatype Event =
    | StoreDone(level: Option<Level>, skipSave: bool, prefix: Option<string>)
    | RetrieveDone(level: Option<Level>, skipSave: bool, prefix: Option<string>, retrieved: int, promote: bool)

  /** What the two updates change. */
  datatype Memory = Memory(states: map<string, State>, counts: map<string, nat>)

  /** The engine's switches; no threshold means no hotness tracker. */
  datatype Config = Config(enabled: bool, minAccess: Option<int>)

  const EMPTY: Memory := Memory(map[], map[])

  function Threshold(minAccess: int): nat { if minAccess < 1 then 1 else minAccess }

  function StateOf(m: Memory, p: string): State { if p in m.states then m.states[p] else Miss }

  function CountOf(m: Memory, p: string): nat { if p in m.counts then m.counts[p] else 0 }

  /** An event that is not turned away by the early returns, for prefix p. */
  predicate Concerns(c: Config, e: Event, p: string)
  {
    c.enabled && e.level.Some? && !e.skipSave && e.prefix == Some(p)
  }

  /** A full copy was written or read. */
  predicate FullSuccess(c: Config, e: Event, p: string)
  {
    Concerns(c, e, p) && e.level == Some(Full) && (e.StoreDone? || e.retrieved > 0)
  }

  /** A full copy was looked for and nothing came back. */
  predicate FullMiss(c: Config, e: Event, p: string)
  {
    Concerns(c, e, p) && e.level == Some(Full) && e.RetrieveDone? && e.retrieved <= 0
  }

  /** A base copy was read. */
  predicate BaseHit(c: Config, e: Event, p: string)
  {
    Concerns(c, e, p) && e.level == Some(Base) && e.RetrieveDone? && e.retrieved > 0
  }

  predicate BaseStored(c: Config, e: Event, p: string)
  {
    Concerns(c, e, p) && e.level == Some(Base) && e.StoreDone?
  }

  class FidelityStateStore {
    var states: map<string, State>

    constructor ()
      ensures states == map[]
    {
      states := map[];
    }

    method Get(p: string) returns (s: State)
      ensures s == if p in states then states[p] else Miss
    {
      s := if p in states then states[p] else Miss;
    }

    method Set(p: string, s: State) returns (previous: State)
      modifies this
      ensures previous == if p in old(states) then old(states)[p] else Miss
      ensures states == old(states)[p := s]
    {
      previous := if p in states then states[p] else Miss;
      states := states[p := s];
    }

    /** Compare and set. */
    method Transition(p: string, from: State, to: State) returns (ok: bool)
      modifies this
      ensures ok <==> (if p in old(states) then old(states)[p] else Miss) == from
      ensures states == if ok then old(states)[p := to] else old(states)
    {
      var current := if p in states then states[p] else Miss;
      if current != from { return false; }
      states := states[p := to];
      ok := true;
    }
  }

  class HotnessTracker {
    const minAccess: nat
    var counts: map<string, nat>

    constructor (minAccess: int)
      ensures counts == map[] && this.minAccess == if minAccess < 1 then 1 else minAccess
    {
      this.minAccess := Threshold(minAccess);
      counts := map[];
    }

    method RecordAccess(p: string) returns (count: nat, hot: bool)
      modifies this
      ensures count == (if p in old(counts) then old(counts)[p] else 0) + 1 && (hot <==> count >= minAccess)
      ensures counts == old(counts)[p := count]
    {
      count := (if p in counts then counts[p] else 0) + 1;
      counts := counts[p := count];
      hot := count >= minAccess;
    }

    method Reset(p: string)
      modifies this
      ensures counts == old(counts) - {p}
    {
      counts := counts - {p};
    }
  }

  // ---- what one event does ----

  function Promotes(c: Config, m: Memory, e: Event, p: string): bool
  {
    && BaseHit(c, e, p) && e.promote && c.minAccess.Some?
    && CountOf(m, p) + 1 >= Threshold(c.minAccess.value)
    && (StateOf(m, p) == Miss || StateOf(m, p) == BaseReady)
  }

  /** The new state of prefix p. */
  function NextState(c: Config, m: Memory, e: Event, p: string): State
  {
    var s := StateOf(m, p);
    if FullSuccess(c, e, p) then FullReady
    else if FullMiss(c, e, p) && s == FullReady then FullEvicted
    else if BaseStored(c, e, p) && s != Promoting && s != FullReady then BaseReady
    else if Promotes(c, m, e, p) then Promoting
    else if BaseHit(c, e, p) && s == Miss then BaseReady
    else s
  }

  function NextCount(c: Config, m: Memory, e: Event, p: string): nat
  {
    if c.minAccess.None? then CountOf(m, p)
    else if FullSuccess(c, e, p) then 0
    else if BaseHit(c, e, p) then CountOf(m, p) + 1
    else CountOf(m, p)
  }

  /** The memory after an event, prefix by prefix: only the event's own prefix can change. */
  ghost predicate Becomes(c: Config, m: Memory, e: Event, m': Memory)
  {
    forall p :: StateOf(m', p) == NextState(c, m, e, p) && CountOf(m', p) == NextCount(c, m, e, p)
  }

  class CacheEngine {
    const enabled: bool
    const minAccess: Option<int>
    const store: FidelityStateStore
    const tracker: HotnessTracker?

    ghost function Switches(): Config { Config(enabled, minAccess) }

    ghost function View(): Memory
      reads store, tracker
    {
      Memory(store.states, if tracker == null then map[] else tracker.counts)
    }

    ghost predicate Valid()
    {
      if minAccess.None? then tracker == null else tracker != null && tracker.minAccess == Threshold(minAccess.value)
    }

    constructor (enabled: bool, minAccess: Option<int>)
      ensures Valid() && View() == EMPTY && Switches() == Config(enabled, minAccess) && fresh(store)
      ensures tracker != null ==> fresh(tracker)
    {
      this.enabled := enabled;
      this.minAccess := minAccess;
      this.store := new FidelityStateStore();
      if minAccess.Some? {
        this.tracker := new HotnessTracker(minAccess.value);
      } else {
        this.tracker := null;
      }
    }

    /** _update_internal_state_after_store. */
    method AfterStore(level: Option<Level>, skipSave: bool, prefix: Option<string>)
      requires Valid()
      modifies store, tracker
      ensures Becomes(Switches(), old(View()), StoreDone(level, skipSave, prefix), View())
    {
      if !enabled || level.None? || skipSave { return; }
      if prefix.None? { return; }
      var p := prefix.value;
      var current := store.Get(p);
      var next: State;
      if level.value == Base {
        if current == Promoting || current == FullReady { return; }
        next := BaseReady;
      } else {
        next := FullReady;
        if tracker != null { tracker.Reset(p); }
      }
      var previous := store.Set(p, next);
    }

    /** _update_internal_state_after_retrieve. */
    method AfterRetrieve(level: Option<Level>, skipSave: bool, prefix: Option<string>, retrieved: int, promote: bool)
      requires Valid()
      modifies store, tracker
      ensures Becomes(Switches(), old(View()), RetrieveDone(level, skipSave, prefix, retrieved, promote), View())
    {
      if !enabled || level.None? || skipSave { return; }
      if prefix.None? { return; }
      var p := prefix.value;
      var current := store.Get(p);
      if retrieved <= 0 {
        if level.value == Full && current == FullReady {
          var previous := store.Set(p, FullEvicted);
        }
        return;
      }
      if level.value == Full {
        var previous := store.Set(p, FullReady);
        if tracker != null { tracker.Reset(p); }
        return;
      }
      if current == Miss {
        var previous := store.Set(p, BaseReady);
        current := BaseReady;
      }
      var hot := false;
      if tracker != null {
        var count;
        count, hot := tracker.RecordAccess(p);
      }
      if promote && hot && current == BaseReady {
        var transitioned := store.Transition(p, BaseReady, Promoting);
      }
    }
  }

  // ---- whole runs ----

  /** The memories a run goes through. */
  ghost predicate IsRun(c: Config, events: seq<Event>, ms: seq<Memory>)
  {
    && |ms| == |events| + 1 && ms[0] == EMPTY
    && forall i :: 0 <= i < |events| ==> Becomes(c, ms[i], events[i], ms[i + 1])
  }

  /** The latest event among the first n that was a full success or a full miss was a success. */
  predicate LatestFullSucceeded(c: Config, events: seq<Event>, n: nat, p: string)
    requires n <= |events|
  {
    if n == 0 then false
    else if FullSuccess(c, events[n - 1], p) then true
    else if FullMiss(c, events[n - 1], p) then false
    else LatestFullSucceeded(c, events, n - 1, p)
  }

  /** A prefix is FULL_READY exactly when the latest full-level event on it stored or found the copy. */
  lemma {:induction false} FullReadyMeans(c: Config, events: seq<Event>, ms: seq<Memory>, n: nat, p: string)
    requires IsRun(c, events, ms) && n <= |events|
    ensures StateOf(ms[n], p) == FullReady <==> LatestFullSucceeded(c, events, n, p)
  {
    if n > 0 {
      FullReadyMeans(c, events, ms, n - 1, p);
      assert Becomes(c, ms[n - 1], events[n - 1], ms[n]);
    }
  }

  /** A prefix is MISS exactly while no copy of it was ever stored or found. */
  lemma {:induction false} MissMeans(c: Config, events: seq<Event>, ms: seq<Memory>, n: nat, p: string)
    requires IsRun(c, events, ms) && n <= |events|
    ensures StateOf(ms[n], p) == Miss <==>
              forall i :: 0 <= i < n ==> !FullSuccess(c, events[i], p) && !BaseHit(c, events[i], p) && !BaseStored(c, events[i], p)
  {
    if n > 0 {
      MissMeans(c, events, ms, n - 1, p);
      assert Becomes(c, ms[n - 1], events[n - 1], ms[n]);
    }
  }

  /** Base hits since the last full success. */
  function HitsSinceFull(c: Config, events: seq<Event>, n: nat, p: string): nat
    requires n <= |events|
  {
    if n == 0 || FullSuccess(c, events[n - 1], p) then 0
    else HitsSinceFull(c, events, n - 1, p) + (if BaseHit(c, events[n - 1], p) then 1 else 0)
  }

  lemma {:induction false} CounterMeans(c: Config, events: seq<Event>, ms: seq<Memory>, n: nat, p: string)
    requires IsRun(c, events, ms) && n <= |events|
    ensures CountOf(ms[n], p) == if c.minAccess.None? then 0 else HitsSinceFull(c, events, n, p)
  {
    if n > 0 {
      CounterMeans(c, events, ms, n - 1, p);
      assert Becomes(c, ms[n - 1], events[n - 1], ms[n]);
    }
  }

  /** How a state is left: FULL_READY only by a full miss and only to FULL_EVICTED, PROMOTING only by a
      full success and only to FULL_READY, and MISS is never entered again. */
  lemma HowStatesEnd(c: Config, events: seq<Event>, ms: seq<Memory>, n: nat, p: string)
    requires IsRun(c, events, ms) && n < |events|
    ensures var s, t := StateOf(ms[n], p), StateOf(ms[n + 1], p);
            && (s == FullReady ==> t == if FullMiss(c, events[n], p) then FullEvicted else FullReady)
            && (s == Promoting ==> t == if FullSuccess(c, events[n], p) then FullReady else Promoting)
            && (t == Miss ==> s == Miss)
            && (t == FullEvicted && s != FullEvicted ==> s == FullReady)
  {
    assert Becomes(c, ms[n], events[n], ms[n + 1]);
  }

  /** A prefix starts promoting exactly at a base hit that asks for promotion, finds it in MISS or
      BASE_READY, and is at least the threshold-th base hit since the last full success. */
  lemma PromotionMeans(c: Config, events: seq<Event>, ms: seq<Memory>, n: nat, p: string)
    requires IsRun(c, events, ms) && n < |events|
    ensures StateOf(ms[n], p) != Promoting && StateOf(ms[n + 1], p) == Promoting <==>
              && BaseHit(c, events[n], p) && events[n].promote && c.minAccess.Some?
              && HitsSinceFull(c, events, n + 1, p) >= 1 && HitsSinceFull(c, events, n + 1, p) >= c.minAccess.value
              && (StateOf(ms[n], p) == Miss || StateOf(ms[n], p) == BaseReady)
  {
    assert Becomes(c, ms[n], events[n], ms[n + 1]);
    CounterMeans(c, events, ms, n, p);
    hide HitsSinceFull;
    if !FullSuccess(c, events[n], p) { HitsStep(c, events, n, p); }
  }

  lemma HitsStep(c: Config, events: seq<Event>, n: nat, p: string)
    requires n < |events| && !FullSuccess(c, events[n], p)
    ensures HitsSinceFull(c, events, n + 1, p) == HitsSinceFull(c, events, n, p) + (if BaseHit(c, events[n], p) then 1 else 0)
  {}

  /** Once a prefix is promoting it stays so until a full copy is written or read, whatever base stores,
      base reads and misses come in between. */
  lemma {:induction false} PromotingPersists(c: Config, events: seq<Event>, ms: seq<Memory>, i: nat, n: nat, p: string)
    requires IsRun(c, events, ms) && i <= n <= |events| && StateOf(ms[i], p) == Promoting
    requires forall k :: i <= k < n ==> !FullSuccess(c, events[k], p)
    ensures StateOf(ms[n], p) == Promoting
    decreases n
  {
    if i < n {
      PromotingPersists(c, events, ms, i, n - 1, p);
      HowStatesEnd(c, events, ms, n - 1, p);
    }
  }

  /** A prefix that is promoting has been hit at base level at least the threshold number of times since
      its last full success. */
  lemma {:induction false} PromotingIsHot(c: Config, events: seq<Event>, ms: seq<Memory>, n: nat, p: string)
    requires IsRun(c, events, ms) && n <= |events| && StateOf(ms[n], p) == Promoting
    ensures c.minAccess.Some? && HitsSinceFull(c, events, n, p) >= 1 && HitsSinceFull(c, events, n, p) >= c.minAccess.value
  {
    assert n > 0;
    if StateOf(ms[n - 1], p) == Promoting {
      PromotingIsHot(c, events, ms, n - 1, p);
      HowStatesEnd(c, events, ms, n - 1, p);
    } else {
      PromotionMeans(c, events, ms, n - 1, p);
    }
  }
}
