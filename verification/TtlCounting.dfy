/** When the TTL lock counts exactly under concurrency: in every interleaving the counter is the
    starting counter plus the calls counted so far, or some interleaving breaks this; and calls that do
    not overlap always act as the sequential lock. */
module TtlCounting {
  import opened TtlInterleaving
  import TtlLock

  /** The lock in any state, with calls that have not begun. */
  ghost predicate Fresh(s: State)
  {
    s.counter >= 0 && forall i :: 0 <= i < |s.calls| ==> s.calls[i] == Begin(s.calls[i].kind)
  }

  /** What a call has added to the count: a lock one, an unlock that found something to undo minus one. */
  function Counted(c: Call): int
  {
    match c.kind
    case Locking(_) => if c.pc.StoreExpiration? || c.pc.Finished? then 1 else 0
    case Unlocking => if c.pc.Finished? && c.writes > 0 then -1 else 0
    case Resetting => 0
  }

  function Net(calls: seq<Call>): int
  {
    if calls == [] then 0 else Counted(calls[0]) + Net(calls[1..])
  }

  /** From s0 to s exactly the calls counted so far changed the counter. */
  predicate CountKept(s0: State, s: State) { s.counter == s0.counter + Net(s.calls) }

  // ---- the condition ----

  predicate IsLock(s: State, i: nat) { i < |s.calls| && s.calls[i].kind.Locking? }

  /** Lock i finds the starting lease expired. */
  predicate Late(s: State, i: nat) { IsLock(s, i) && s.calls[i].kind.now >= s.expiration }

  /** Resets only over a zero counter and without locks; a lock that finds the lease expired only alone
      and over a zero counter; and no lock a whole ttl after another. */
  ghost predicate CountSafe(s: State)
  {
    && (forall r :: 0 <= r < |s.calls| && s.calls[r].kind.Resetting? ==> s.counter == 0 && forall j: nat :: !IsLock(s, j))
    && (forall j: nat :: Late(s, j) ==> s.counter == 0 && forall k: nat :: IsLock(s, k) ==> k == j)
    && WithinTtl(s)
  }

  lemma {:induction false} NetUpdate(calls: seq<Call>, i: nat, c: Call)
    requires i < |calls|
    ensures Net(calls[i := c]) == Net(calls) + Counted(c) - Counted(calls[i])
  {
    if i > 0 {
      assert calls[i := c][1..] == calls[1..][i - 1 := c];
      NetUpdate(calls[1..], i - 1, c);
    }
  }

  lemma {:induction false} NetOfFresh(calls: seq<Call>)
    requires forall i :: 0 <= i < |calls| ==> calls[i] == Begin(calls[i].kind)
    ensures Net(calls) == 0
  {
    if calls != [] {
      assert calls[0] == Begin(calls[0].kind);
      NetOfFresh(calls[1..]);
    }
  }

  // ---- it suffices ----

  ghost predicate SameCalls(s0: State, s: State)
  {
    s.ttl == s0.ttl && |s.calls| == |s0.calls| && forall i :: 0 <= i < |s.calls| ==> s.calls[i].kind == s0.calls[i].kind && WellTyped(s.calls[i])
  }

  ghost predicate WithinTtl(s: State)
  {
    forall j: nat, k: nat :: IsLock(s, j) && IsLock(s, k) && j != k ==> s.calls[j].kind.now < s.calls[k].kind.now + s.ttl
  }

  /** The call is no reset, and if it is a lock it sees a live lease and is on the increment path. */
  predicate Incrementing(c: Call, expiration: int)
  {
    match c.pc
    case LoadExpiration => c.kind.Locking? && c.kind.now < expiration
    case LoadCounter(e) => c.kind.Locking? && c.kind.now < e && c.kind.now < expiration
    case TryIncrement(_) => c.kind.Locking? && c.kind.now < expiration
    case StoreExpiration => c.kind.Locking?
    case LoadForUnlock => c.kind.Unlocking? && c.writes == 0
    case TryDecrement(_) => c.kind.Unlocking? && c.writes == 0
    case Finished => !c.kind.Resetting?
    case _ => false
  }

  ghost predicate Live(s0: State, s: State)
  {
    && SameCalls(s0, s) && CountKept(s0, s) && WithinTtl(s0)
    && forall i :: 0 <= i < |s.calls| ==> Incrementing(s.calls[i], s.expiration)
  }

  lemma LiveStep(s0: State, s: State, i: nat)
    requires Live(s0, s) && Enabled(s, i)
    ensures Live(s0, Step(s, i))
  {
    var s' := Step(s, i);
    NetUpdate(s.calls, i, s'.calls[i]);
    hide Net;
    assert Incrementing(s.calls[i], s.expiration);
    assert s'.calls == s.calls[i := s'.calls[i]];
    assert Incrementing(s'.calls[i], s'.expiration);
    forall j: nat | j < |s'.calls| && j != i ensures Incrementing(s'.calls[j], s'.expiration) {
      assert Incrementing(s.calls[j], s.expiration);
      if s.calls[i].pc.StoreExpiration? && s.calls[j].kind.Locking? { assert IsLock(s0, i) && IsLock(s0, j); }
    }
  }

  /** Resets and unlocks over a zero counter: nothing is ever counted. */
  ghost predicate Idle(s0: State, s: State)
  {
    && SameCalls(s0, s) && CountKept(s0, s) && s0.counter == 0 && s.counter == 0
    && (forall i :: 0 <= i < |s.calls| ==> Counted(s.calls[i]) == 0 && !s.calls[i].kind.Locking? && !s.calls[i].pc.TryDecrement?)
    && (forall i :: 0 <= i < |s.calls| && s.calls[i].kind.Unlocking? && !s.calls[i].pc.Finished? ==> s.calls[i].writes == 0)
  }

  lemma IdleStep(s0: State, s: State, i: nat)
    requires Idle(s0, s) && Enabled(s, i)
    ensures Idle(s0, Step(s, i))
  {
    var s' := Step(s, i);
    NetUpdate(s.calls, i, s'.calls[i]);
    hide Net;
    assert Counted(s.calls[i]) == 0;
    assert s'.calls == s.calls[i := s'.calls[i]];
  }

  /** A single lock j over a zero counter and an expired lease, with unlocks that find nothing until it
      is counted. */
  ghost predicate Renewing(s0: State, s: State, j: nat)
  {
    && SameCalls(s0, s) && CountKept(s0, s) && s0.counter == 0 && j < |s.calls| && s.calls[j].kind.Locking?
    && (forall i :: 0 <= i < |s.calls| && i != j ==>
          s.calls[i].kind.Unlocking? && (!s.calls[i].pc.Finished? ==> s.calls[i].writes == 0))
    && match s.calls[j].pc
       case LoadExpiration => Untouched(s, j) && s.calls[j].kind.now >= s.expiration
       case LoadCounter(e) => Untouched(s, j) && e == s.expiration && s.calls[j].kind.now >= e
       case TryExpiration(e) => Untouched(s, j) && e == s.expiration
       case StoreOne => Untouched(s, j)
       case Finished => true
       case _ => false
  }

  ghost predicate Untouched(s: State, j: nat)
  {
    s.counter == 0 && forall i :: 0 <= i < |s.calls| && i != j ==> Counted(s.calls[i]) == 0 && !s.calls[i].pc.TryDecrement?
  }

  lemma RenewingStep(s0: State, s: State, j: nat, i: nat)
    requires Renewing(s0, s, j) && Enabled(s, i)
    ensures Renewing(s0, Step(s, i), j)
  {
    var s' := Step(s, i);
    NetUpdate(s.calls, i, s'.calls[i]);
    hide Net;
    assert s'.calls == s.calls[i := s'.calls[i]];
  }

  lemma {:induction false} SafeRun(s0: State, s: State, schedule: seq<nat>)
    requires Legal(s, schedule)
    requires Live(s0, s) || Idle(s0, s) || exists j :: Renewing(s0, s, j)
    ensures CountKept(s0, After(s, schedule))
    decreases |schedule|
  {
    hide Net, Live, Idle, Renewing;
    if schedule == [] {
      assert CountKept(s0, s) by { KeptNow(s0, s); }
    } else {
      var i := schedule[0];
      if Live(s0, s) {
        LiveStep(s0, s, i);
      } else if Idle(s0, s) {
        IdleStep(s0, s, i);
      } else {
        var j :| Renewing(s0, s, j);
        RenewingStep(s0, s, j, i);
      }
      SafeRun(s0, Step(s, i), schedule[1..]);
    }
  }

  lemma KeptNow(s0: State, s: State)
    requires Live(s0, s) || Idle(s0, s) || exists j :: Renewing(s0, s, j)
    ensures CountKept(s0, s)
  {}

  /** A safe start keeps the count in every interleaving. */
  lemma SafeKeepsCount(s0: State, schedule: seq<nat>)
    requires Fresh(s0) && CountSafe(s0) && Legal(s0, schedule)
    ensures CountKept(s0, After(s0, schedule))
  {
    NetOfFresh(s0.calls);
    forall i | 0 <= i < |s0.calls| ensures WellTyped(s0.calls[i]) { assert s0.calls[i] == Begin(s0.calls[i].kind); }
    if r :| 0 <= r < |s0.calls| && s0.calls[r].kind.Resetting? {
      forall i | 0 <= i < |s0.calls| ensures !s0.calls[i].kind.Locking? { assert !IsLock(s0, i); }
      assert Idle(s0, s0);
    } else if j: nat :| Late(s0, j) {
      forall i: nat | i < |s0.calls| && i != j ensures s0.calls[i].kind.Unlocking? { assert !IsLock(s0, i); }
      assert Renewing(s0, s0, j);
    } else {
      forall i: nat | i < |s0.calls| ensures Incrementing(s0.calls[i], s0.expiration) { assert !Late(s0, i); }
      assert Live(s0, s0);
    }
    SafeRun(s0, s0, schedule);
  }

  // ---- it is needed ----

  lemma {:induction false} LegalConcat(s: State, a: seq<nat>, b: seq<nat>)
    requires Legal(s, a) && Legal(After(s, a), b)
    ensures Legal(s, a + b) && After(s, a + b) == After(After(s, a), b)
    decreases |a|
  {
    if a == [] {
      assert a + b == b;
    } else {
      LegalConcat(Step(s, a[0]), a[1..], b);
      assert (a + b)[1..] == a[1..] + b;
    }
  }

  /** Call i runs alone to its end. */
  lemma RunAlone(s: State, i: nat) returns (schedule: seq<nat>)
    requires i < |s.calls| && s.calls[i] == Begin(s.calls[i].kind)
    ensures Legal(s, schedule) && ActedAs(s, i, After(s, schedule))
  {
    AloneIsSequential(s, i);
    var k: nat :| k <= 4 && Legal(s, Repeat(i, k)) && ActedAs(s, i, After(s, Repeat(i, k)));
    schedule := Repeat(i, k);
  }

  /** Two calls run alone, one after the other. */
  lemma RunBoth(s: State, i: nat, j: nat) returns (schedule: seq<nat>, t: State)
    requires i < |s.calls| && j < |s.calls| && i != j
    requires s.calls[i] == Begin(s.calls[i].kind) && s.calls[j] == Begin(s.calls[j].kind)
    ensures ActedAs(s, i, t) && Legal(s, schedule) && ActedAs(t, j, After(s, schedule))
  {
    var a := RunAlone(s, i);
    t := After(s, a);
    var b := RunAlone(t, j);
    LegalConcat(s, a, b);
    schedule := a + b;
  }

  /** What a call that has acted alone adds to the count. */
  lemma NetAfter(s: State, i: nat, t: State)
    requires i < |s.calls| && ActedAs(s, i, t)
    ensures Net(t.calls) == Net(s.calls) + Counted(t.calls[i]) - Counted(s.calls[i])
  {
    NetUpdate(s.calls, i, t.calls[i]);
  }

  /** A lock that finds the lease expired, halted between its two writes. */
  lemma Renew(s: State, j: nat) returns (schedule: seq<nat>)
    requires Late(s, j) && s.calls[j] == Begin(s.calls[j].kind)
    ensures Legal(s, schedule)
    ensures var t := After(s, schedule);
            && t.counter == s.counter && t.expiration == s.calls[j].kind.now + s.ttl && t.ttl == s.ttl
            && |t.calls| == |s.calls| && t.calls == s.calls[j := t.calls[j]] && t.calls[j].kind == s.calls[j].kind && t.calls[j].pc.StoreOne?
  {
    schedule := [j, j, j];
    var s1 := Step(s, j);
    var s2 := Step(s1, j);
    var s3 := Step(s2, j);
    StepThen(s2, j, [], s3);
    StepThen(s1, j, [j], s3);
    StepThen(s, j, [j, j], s3);
    assert [j] + [j, j] == schedule && [j] + [j] == [j, j] && [j] + [] == [j];
  }

  /** A late lock halts between its writes while another lock is counted; then its store of one wipes
      that out. */
  lemma LateLockLoses(s: State, j: nat, k: nat) returns (schedule: seq<nat>)
    requires Fresh(s) && Late(s, j) && IsLock(s, k) && j != k
    ensures Legal(s, schedule) && !CountKept(s, After(s, schedule))
  {
    var a := Renew(s, j);
    var t := After(s, a);
    var b := RunAlone(t, k);
    var u := After(t, b);
    LegalConcat(s, a, b);
    NetOfFresh(s.calls);
    NetUpdate(s.calls, j, t.calls[j]);
    NetAfter(t, k, u);
    assert u.calls[j] == t.calls[j];
    var v := Step(u, j);
    NetUpdate(u.calls, j, v.calls[j]);
    StepThen(u, j, [], v);
    assert [j] + [] == [j];
    LegalConcat(s, a + b, [j]);
    schedule := a + b + [j];
  }

  /** Lock j comes a whole ttl after lock k: it renews the lease and forgets k. */
  lemma TtlApartLoses(s: State, j: nat, k: nat) returns (schedule: seq<nat>)
    requires Fresh(s) && IsLock(s, j) && IsLock(s, k) && j != k && s.calls[j].kind.now >= s.calls[k].kind.now + s.ttl
    ensures Legal(s, schedule) && !CountKept(s, After(s, schedule))
  {
    var t;
    schedule, t := RunBoth(s, k, j);
    NetOfFresh(s.calls);
    NetAfter(s, k, t);
    NetAfter(t, j, After(s, schedule));
  }

  /** A late lock over a counter that is not zero forgets that counter. */
  lemma StaleCounterLoses(s: State, j: nat) returns (schedule: seq<nat>)
    requires Fresh(s) && Late(s, j) && s.counter > 0
    ensures Legal(s, schedule) && !CountKept(s, After(s, schedule))
  {
    schedule := RunAlone(s, j);
    NetOfFresh(s.calls);
    NetAfter(s, j, After(s, schedule));
  }

  lemma ResetLoses(s: State, r: nat, j: nat) returns (schedule: seq<nat>)
    requires Fresh(s) && r < |s.calls| && s.calls[r].kind.Resetting? && (s.counter > 0 || IsLock(s, j))
    ensures Legal(s, schedule) && !CountKept(s, After(s, schedule))
  {
    NetOfFresh(s.calls);
    if s.counter > 0 {
      schedule := RunAlone(s, r);
      NetAfter(s, r, After(s, schedule));
    } else {
      var t;
      schedule, t := RunBoth(s, j, r);
      NetAfter(s, j, t);
      NetAfter(t, r, After(s, schedule));
    }
  }

  /** Exactly the safe starts keep the count in every interleaving. */
  lemma CountKeptIff(s: State)
    requires Fresh(s)
    ensures CountSafe(s) <==> forall schedule :: Legal(s, schedule) ==> CountKept(s, After(s, schedule))
  {
    if CountSafe(s) {
      forall schedule | Legal(s, schedule) ensures CountKept(s, After(s, schedule)) { SafeKeepsCount(s, schedule); }
    } else {
      var schedule := UnsafeLoses(s);
    }
  }

  lemma UnsafeLoses(s: State) returns (schedule: seq<nat>)
    requires Fresh(s) && !CountSafe(s)
    ensures Legal(s, schedule) && !CountKept(s, After(s, schedule))
  {
    hide Legal, After, Net, CountKept;
    if r: nat :| r < |s.calls| && s.calls[r].kind.Resetting? && s.counter > 0 {
      schedule := ResetLoses(s, r, 0);
    } else if r: nat, j: nat :| r < |s.calls| && s.calls[r].kind.Resetting? && IsLock(s, j) {
      schedule := ResetLoses(s, r, j);
    } else if j: nat :| Late(s, j) && s.counter > 0 {
      schedule := StaleCounterLoses(s, j);
    } else if j: nat, k: nat :| Late(s, j) && IsLock(s, k) && k != j {
      schedule := LateLockLoses(s, j, k);
    } else {
      assert !WithinTtl(s);
      var j: nat, k: nat :| IsLock(s, j) && IsLock(s, k) && j != k && !(s.calls[j].kind.now < s.calls[k].kind.now + s.ttl);
      schedule := TtlApartLoses(s, j, k);
    }
  }

  // ---- what a race can end in, against what an order can ----

  ghost predicate AllFinished(s: State) { forall i :: 0 <= i < |s.calls| ==> s.calls[i].pc.Finished? }

  /** Calls k, k + 1, ... that have not begun run alone, one after the other; calls that have begun stay
      as they are. */
  lemma {:induction false} RunRest(s: State, k: nat) returns (schedule: seq<nat>)
    requires k <= |s.calls|
    ensures Legal(s, schedule) && |After(s, schedule).calls| == |s.calls|
    ensures var t := After(s, schedule);
            forall i :: 0 <= i < |s.calls| ==>
              if i >= k && s.calls[i] == Begin(s.calls[i].kind) then t.calls[i].pc.Finished? else t.calls[i] == s.calls[i]
    decreases |s.calls| - k
  {
    if k == |s.calls| {
      schedule := [];
    } else if s.calls[k] == Begin(s.calls[k].kind) {
      var a := RunAlone(s, k);
      var b := RunRest(After(s, a), k + 1);
      LegalConcat(s, a, b);
      schedule := a + b;
    } else {
      schedule := RunRest(s, k + 1);
    }
  }

  /** With any late lock, all calls can finish and leave the counter at one, however many locks there
      are: the late lock's second write comes last. */
  lemma RaceEndsAtOne(s: State, j: nat) returns (schedule: seq<nat>)
    requires Fresh(s) && Late(s, j)
    ensures Legal(s, schedule) && AllFinished(After(s, schedule)) && After(s, schedule).counter == 1
  {
    var a := Renew(s, j);
    var t := After(s, a);
    var b := RunRest(t, 0);
    var u := After(t, b);
    LegalConcat(s, a, b);
    assert u.calls[j] == t.calls[j];
    StepThen(u, j, [], Step(u, j));
    assert [j] + [] == [j];
    LegalConcat(s, a + b, [j]);
    schedule := a + b + [j];
    hide Legal, After;
    forall i | 0 <= i < |u.calls| ensures Step(u, j).calls[i].pc.Finished? {
      if i != j { assert t.calls[i] == Begin(t.calls[i].kind); }
    }
  }

  /** The sequential lock after further calls. */
  function Continue(c: TtlLock.Cells, h: seq<TtlLock.Event>, ttl: int): TtlLock.Cells
    decreases |h|
  {
    if h == [] then c else Continue(TtlLock.Apply(c, h[0], ttl), h[1..], ttl)
  }

  /** Locks within one ttl of each other, in whatever order, count in full: on top of the starting
      counter, or from the first one on when that one finds the lease expired. */
  lemma {:induction false} OrdersCountInFull(c: TtlLock.Cells, h: seq<TtlLock.Event>, ttl: int)
    requires h != [] && forall i :: 0 <= i < |h| ==> h[i].Lock?
    requires forall i, j :: 0 <= i < |h| && 0 <= j < |h| && i != j ==> h[i].now < h[j].now + ttl
    ensures Continue(c, h, ttl).counter == if h[0].now >= c.expiration then |h| else c.counter + |h|
    decreases |h|
  {
    var c1 := TtlLock.Apply(c, h[0], ttl);
    assert Continue(c, h, ttl) == Continue(c1, h[1..], ttl);
    if |h| > 1 {
      assert h[1..][0] == h[1] && h[1].now < h[0].now + ttl;
      OrdersCountInFull(c1, h[1..], ttl);
    }
  }

  /** An order of the calls. */
  predicate IsOrder(s: State, order: seq<nat>)
  {
    && |order| == |s.calls| && (forall i :: 0 <= i < |order| ==> order[i] < |s.calls|)
    && forall i, j :: 0 <= i < j < |order| ==> order[i] != order[j]
  }

  function InOrder(s: State, order: seq<nat>): TtlLock.Cells
    requires IsOrder(s, order)
  {
    Continue(TtlLock.Cells(s.counter, s.expiration), EventsOf(s, order), s.ttl)
  }

  function EventsOf(s: State, order: seq<nat>): seq<TtlLock.Event>
    requires forall i :: 0 <= i < |order| ==> order[i] < |s.calls|
  {
    seq(|order|, i requires 0 <= i < |order| => AsEvent(s.calls[order[i]].kind))
  }

  lemma {:induction false} KindsKept(s: State, schedule: seq<nat>)
    requires Legal(s, schedule)
    ensures |After(s, schedule).calls| == |s.calls|
    ensures forall i :: 0 <= i < |s.calls| ==> After(s, schedule).calls[i].kind == s.calls[i].kind
    decreases |schedule|
  {
    if schedule != [] { KindsKept(Step(s, schedule[0]), schedule[1..]); }
  }

  lemma {:induction false} NetOfFinishedLocks(calls: seq<Call>)
    requires forall i :: 0 <= i < |calls| ==> calls[i].kind.Locking? && calls[i].pc.Finished?
    ensures Net(calls) == |calls|
  {
    if calls != [] { NetOfFinishedLocks(calls[1..]); }
  }

  /** Two locks or more, none a whole ttl after another. */
  ghost predicate CloseLocks(s: State)
  {
    Fresh(s) && WithinTtl(s) && |s.calls| >= 2 && forall i: nat :: i < |s.calls| ==> IsLock(s, i)
  }

  lemma OrderCount(s: State, order: seq<nat>)
    requires CloseLocks(s) && IsOrder(s, order)
    ensures InOrder(s, order).counter == |s.calls| + if Late(s, order[0]) then 0 else s.counter
  {
    var h := EventsOf(s, order);
    forall i, j | 0 <= i < |h| && 0 <= j < |h| && i != j ensures h[i].Lock? && h[i].now < h[j].now + s.ttl {
      assert IsLock(s, order[i]) && IsLock(s, order[j]);
    }
    forall i | 0 <= i < |h| ensures h[i].Lock? { assert IsLock(s, order[i]); }
    OrdersCountInFull(TtlLock.Cells(s.counter, s.expiration), h, s.ttl);
    assert IsLock(s, order[0]);
  }

  lemma NoneLateCounts(s: State, schedule: seq<nat>)
    requires CloseLocks(s) && (forall j: nat :: !Late(s, j)) && Legal(s, schedule) && AllFinished(After(s, schedule))
    ensures After(s, schedule).counter == s.counter + |s.calls|
  {
    assert CountSafe(s) by {
      forall r: nat | r < |s.calls| ensures !s.calls[r].kind.Resetting? { assert IsLock(s, r); }
    }
    SafeKeepsCount(s, schedule);
    KindsKept(s, schedule);
    var t := After(s, schedule);
    forall i: nat | i < |t.calls| ensures t.calls[i].kind.Locking? { assert IsLock(s, i); }
    NetOfFinishedLocks(t.calls);
  }

  /** When one of them is late, all can finish with the counter at one, below what every order of the
      calls counts. */
  lemma RaceLosesLocks(s: State, j: nat) returns (schedule: seq<nat>)
    requires CloseLocks(s) && Late(s, j)
    ensures Legal(s, schedule) && AllFinished(After(s, schedule)) && After(s, schedule).counter == 1
    ensures forall order :: IsOrder(s, order) ==> 1 < InOrder(s, order).counter
  {
    schedule := RaceEndsAtOne(s, j);
    forall order | IsOrder(s, order) ensures 1 < InOrder(s, order).counter { OrderCount(s, order); }
  }

  /** Two locks or more, none a whole ttl after another: every interleaving ends with the count that every
      order of the calls ends with, exactly when none of them finds the lease expired. */
  lemma NoLockLostIff(s: State)
    requires CloseLocks(s)
    ensures (forall j: nat :: !Late(s, j)) <==>
            forall schedule, order :: Legal(s, schedule) && AllFinished(After(s, schedule)) && IsOrder(s, order) ==>
              After(s, schedule).counter == InOrder(s, order).counter
  {
    if j: nat :| Late(s, j) {
      var schedule := RaceLosesLocks(s, j);
      var order := seq(|s.calls|, i => i);
      assert IsOrder(s, order);
      assert After(s, schedule).counter != InOrder(s, order).counter;
    } else {
      forall schedule, order | Legal(s, schedule) && AllFinished(After(s, schedule)) && IsOrder(s, order)
        ensures After(s, schedule).counter == InOrder(s, order).counter
      {
        NoneLateCounts(s, schedule);
        OrderCount(s, order);
      }
    }
  }

  // ---- calls that do not overlap ----

  /** A call and the number of steps it runs without interruption. */
  datatype Turn = Turn(call: nat, steps: nat)

  function Flatten(turns: seq<Turn>): seq<nat>
  {
    if turns == [] then [] else Repeat(turns[0].call, turns[0].steps) + Flatten(turns[1..])
  }

  function CallsOf(turns: seq<Turn>): seq<nat>
  {
    seq(|turns|, i requires 0 <= i < |turns| => turns[i].call)
  }

  /** Every turn is legal and runs its call, not begun before, to its end. */
  ghost predicate OneAtATime(s: State, turns: seq<Turn>)
    decreases |turns|
  {
    turns == [] ||
    (var i, k := turns[0].call, turns[0].steps;
     && i < |s.calls| && s.calls[i] == Begin(s.calls[i].kind)
     && Legal(s, Repeat(i, k)) && |After(s, Repeat(i, k)).calls| == |s.calls| && After(s, Repeat(i, k)).calls[i].pc.Finished?
     && OneAtATime(After(s, Repeat(i, k)), turns[1..]))
  }

  /** A call alone has one number of steps to its end. */
  lemma {:induction false} SameLength(s: State, i: nat, k: nat, l: nat)
    requires i < |s.calls| && Legal(s, Repeat(i, k)) && Legal(s, Repeat(i, l))
    requires i < |After(s, Repeat(i, k)).calls| && After(s, Repeat(i, k)).calls[i].pc.Finished?
    requires i < |After(s, Repeat(i, l)).calls| && After(s, Repeat(i, l)).calls[i].pc.Finished?
    ensures k == l
    decreases k + l
  {
    if k > 0 && l > 0 {
      assert Repeat(i, k)[1..] == Repeat(i, k - 1) && Repeat(i, l)[1..] == Repeat(i, l - 1);
      SameLength(Step(s, i), i, k - 1, l - 1);
    }
  }

  lemma TurnActs(s: State, i: nat, k: nat)
    requires i < |s.calls| && s.calls[i] == Begin(s.calls[i].kind) && Legal(s, Repeat(i, k))
    requires i < |After(s, Repeat(i, k)).calls| && After(s, Repeat(i, k)).calls[i].pc.Finished?
    ensures ActedAs(s, i, After(s, Repeat(i, k)))
  {
    AloneIsSequential(s, i);
    var l: nat :| l <= 4 && Legal(s, Repeat(i, l)) && ActedAs(s, i, After(s, Repeat(i, l)));
    SameLength(s, i, k, l);
  }

  /** Calls that do not overlap act, one after the other, as the sequential lock: a run of turns ends in
      the cells that TtlLock gives for the events of those calls. */
  lemma {:induction false} TurnsAreSequential(s: State, turns: seq<Turn>)
    requires OneAtATime(s, turns)
    ensures Legal(s, Flatten(turns))
    ensures forall i :: 0 <= i < |turns| ==> turns[i].call < |s.calls|
    ensures var t := After(s, Flatten(turns));
            TtlLock.Cells(t.counter, t.expiration)
            == Continue(TtlLock.Cells(s.counter, s.expiration), EventsOf(s, CallsOf(turns)), s.ttl)
    decreases |turns|
  {
    if turns == [] {
      assert After(s, []) == s;
    } else {
      hide Legal, After, Repeat;
      var i, k := turns[0].call, turns[0].steps;
      var s1 := After(s, Repeat(i, k));
      TurnActs(s, i, k);
      TurnsAreSequential(s1, turns[1..]);
      LegalConcat(s, Repeat(i, k), Flatten(turns[1..]));
      assert EventsOf(s, CallsOf(turns))[1..] == EventsOf(s1, CallsOf(turns[1..]));
    }
  }

  lemma {:induction false} ContinueAppend(c: TtlLock.Cells, h: seq<TtlLock.Event>, e: TtlLock.Event, ttl: int)
    ensures Continue(c, h + [e], ttl) == TtlLock.Apply(Continue(c, h, ttl), e, ttl)
    decreases |h|
  {
    if h == [] {
      assert h + [e] == [e];
    } else {
      assert (h + [e])[1..] == h[1..] + [e];
      ContinueAppend(TtlLock.Apply(c, h[0], ttl), h[1..], e, ttl);
    }
  }

  lemma {:induction false} ContinueIsRun(h: seq<TtlLock.Event>, ttl: int)
    ensures Continue(TtlLock.Cells(0, 0), h, ttl) == TtlLock.Run(h, ttl)
    decreases |h|
  {
    if h != [] {
      var front := h[..|h| - 1];
      assert h == front + [h[|h| - 1]];
      ContinueIsRun(front, ttl);
      ContinueAppend(TtlLock.Cells(0, 0), front, h[|h| - 1], ttl);
    }
  }

  /** From a new lock, calls that do not overlap end in TtlLock.Run of their events, so is_locked is what
      the lease says. */
  lemma TurnsEndInRun(s: State, turns: seq<Turn>)
    requires Init(s) && s.counter == 0 && s.expiration == 0 && OneAtATime(s, turns)
    ensures Legal(s, Flatten(turns)) && forall i :: 0 <= i < |turns| ==> turns[i].call < |s.calls|
    ensures var t, h := After(s, Flatten(turns)), EventsOf(s, CallsOf(turns));
            && TtlLock.Cells(t.counter, t.expiration) == TtlLock.Run(h, s.ttl)
            && forall now :: t.counter > 0 && now < t.expiration <==> TtlLock.Held(h, now, s.ttl)
  {
    TurnsAreSequential(s, turns);
    var h := EventsOf(s, CallsOf(turns));
    ContinueIsRun(h, s.ttl);
    hide OneAtATime, Flatten, Legal, After, TtlLock.Run;
    forall now ensures TtlLock.Run(h, s.ttl).counter > 0 && now < TtlLock.Run(h, s.ttl).expiration <==> TtlLock.Held(h, now, s.ttl) {
      TtlLock.LockedIffLeaseHeld(h, now, s.ttl);
    }
  }

  /** Calls can run one at a time in any order. */
  lemma {:induction false} EveryOrderRuns(s: State, order: seq<nat>) returns (turns: seq<Turn>)
    requires forall i :: 0 <= i < |order| ==> order[i] < |s.calls| && s.calls[order[i]] == Begin(s.calls[order[i]].kind)
    requires forall i, j :: 0 <= i < j < |order| ==> order[i] != order[j]
    ensures OneAtATime(s, turns) && CallsOf(turns) == order
    decreases |order|
  {
    if order == [] {
      turns := [];
    } else {
      var i := order[0];
      AloneIsSequential(s, i);
      var k: nat :| k <= 4 && Legal(s, Repeat(i, k)) && ActedAs(s, i, After(s, Repeat(i, k)));
      var rest := EveryOrderRuns(After(s, Repeat(i, k)), order[1..]);
      turns := [Turn(i, k)] + rest;
      assert turns[1..] == rest;
      assert CallsOf(turns) == [i] + CallsOf(rest);
    }
  }
}
