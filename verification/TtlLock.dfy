/** The TTL lock as a sequential object.  Its calls are recorded in a history, and is_locked is
    characterised by that history alone: a lease with a clamped reference count. */
module TtlLock {

  datatype Event = Lock(now: int) | Unlock | Reset

  /** The two atomics. */
  datatype Cells = Cells(counter: int, expiration: int)

  function Apply(c: Cells, e: Event, ttl: int): Cells
  {
    match e
    case Lock(now) => if now >= c.expiration then Cells(1, now + ttl) else Cells(c.counter + 1, now + ttl)
    case Unlock => if c.counter <= 0 then c else c.(counter := c.counter - 1)
    case Reset => Cells(0, 0)
  }

  function Run(h: seq<Event>, ttl: int): Cells
  {
    if h == [] then Cells(0, 0) else Apply(Run(h[..|h| - 1], ttl), h[|h| - 1], ttl)
  }

  // ---- the lease, stated on the history ----

  /** The index of the last call that is not an unlock, or -1. */
  function Latest(h: seq<Event>): (i: int)
    ensures -1 <= i < |h|
    ensures i >= 0 ==> !h[i].Unlock?
    ensures forall j :: i < j < |h| ==> h[j].Unlock?
  {
    if h == [] then -1
    else if h[|h| - 1].Unlock? then Latest(h[..|h| - 1])
    else |h| - 1
  }

  /** The latest lock is less than ttl old and no reset followed it. */
  predicate LeaseAlive(h: seq<Event>, now: int, ttl: int)
  {
    Latest(h) >= 0 && h[Latest(h)].Lock? && now < h[Latest(h)].now + ttl
  }

  /** Call i is a lock that finds no live lease. */
  predicate StartsLease(h: seq<Event>, i: nat, ttl: int)
    requires i < |h|
  {
    h[i].Lock? && !LeaseAlive(h[..i], h[i].now, ttl)
  }

  /** The calls from the last one that started a lease on; all calls when there is none. */
  function CurrentLease(h: seq<Event>, ttl: int): seq<Event>
  {
    if h == [] || StartsLease(h, |h| - 1, ttl) then h[if h == [] then 0 else |h| - 1..]
    else CurrentLease(h[..|h| - 1], ttl) + [h[|h| - 1]]
  }

  /** Locks minus unlocks, never below zero; a reset starts again from zero. */
  function Balance(h: seq<Event>): (n: nat)
  {
    if h == [] then 0
    else
      var n := Balance(h[..|h| - 1]);
      match h[|h| - 1]
      case Lock(_) => n + 1
      case Unlock => if n == 0 then 0 else n - 1
      case Reset => 0
  }

  predicate Held(h: seq<Event>, now: int, ttl: int)
  {
    LeaseAlive(h, now, ttl) && Balance(CurrentLease(h, ttl)) > 0
  }

  /** The two cells always hold the balance since the latest lease started and that lease's expiry;
      with no lease since the last reset both are zero. */
  lemma {:induction false} CellsTrackLease(h: seq<Event>, ttl: int)
    ensures Tracked(Run(h, ttl), h, ttl)
  {
    if h != [] {
      var front, e := h[..|h| - 1], h[|h| - 1];
      CellsTrackLease(front, ttl);
      BalanceAppend(CurrentLease(front, ttl), e);
      TrackedStep(Run(front, ttl), h, ttl);
    }
  }

  ghost predicate Tracked(c: Cells, h: seq<Event>, ttl: int)
  {
    && c.counter == Balance(CurrentLease(h, ttl))
    && if Latest(h) >= 0 && h[Latest(h)].Lock? then c.expiration == h[Latest(h)].now + ttl else c == Cells(0, 0)
  }

  lemma BalanceAppend(h: seq<Event>, e: Event)
    ensures Balance(h + [e]) ==
      match e case Lock(_) => Balance(h) + 1 case Unlock => (if Balance(h) == 0 then 0 else Balance(h) - 1) case Reset => 0
  {
    assert (h + [e])[..|h|] == h;
  }

  lemma TrackedStep(c: Cells, h: seq<Event>, ttl: int)
    requires h != [] && Tracked(c, h[..|h| - 1], ttl)
    requires var e := h[|h| - 1];
             var n := Balance(CurrentLease(h[..|h| - 1], ttl));
             Balance(CurrentLease(h[..|h| - 1], ttl) + [e]) ==
               match e case Lock(_) => n + 1 case Unlock => (if n == 0 then 0 else n - 1) case Reset => 0
    ensures Tracked(Apply(c, h[|h| - 1], ttl), h, ttl)
  {
    var n := |h| - 1;
    if StartsLease(h, n, ttl) {
      assert h[n..] == [h[n]];
      BalanceAppend([], h[n]);
      assert [] + [h[n]] == [h[n]];
    }
  }

  /** The defining property, for any clock readings: is_locked is decided by the lease and the balance. */
  lemma LockedIffLeaseHeld(h: seq<Event>, now: int, ttl: int)
    ensures Run(h, ttl).counter > 0 && now < Run(h, ttl).expiration <==> Held(h, now, ttl)
  {
    CellsTrackLease(h, ttl);
  }

  class TTLLock {
    var counter: int
    var expirationMs: int
    const ttlMs: int
    ghost var history: seq<Event>

    ghost predicate Valid()
      reads this
    {
      Cells(counter, expirationMs) == Run(history, ttlMs)
    }

    constructor (ttlSec: nat)
      ensures Valid() && history == [] && ttlMs == ttlSec * 1000
    {
      counter, expirationMs, ttlMs, history := 0, 0, ttlSec * 1000, [];
    }

    method CompareExchangeCounter(expected: int, desired: int) returns (ok: bool)
      modifies this`counter
      ensures ok == (old(counter) == expected)
      ensures counter == if ok then desired else old(counter)
    {
      ok := counter == expected;
      if ok { counter := desired; }
    }

    method CompareExchangeExpiration(expected: int, desired: int) returns (ok: bool)
      modifies this`expirationMs
      ensures ok == (old(expirationMs) == expected)
      ensures expirationMs == if ok then desired else old(expirationMs)
    {
      ok := expirationMs == expected;
      if ok { expirationMs := desired; }
    }

    method DoLock(now: int)
      requires Valid()
      modifies this
      ensures Valid() && history == old(history) + [Lock(now)]
    {
      var newExpiration := now + ttlMs;
      var done := false;
      while !done
        invariant history == old(history)
        invariant !done ==> counter == old(counter) && expirationMs == old(expirationMs)
        invariant done ==> Cells(counter, expirationMs) == Apply(old(Cells(counter, expirationMs)), Lock(now), ttlMs)
        decreases !done
      {
        var oldExpiration := expirationMs;
        var oldCounter := counter;
        if now >= oldExpiration {
          var ok := CompareExchangeExpiration(oldExpiration, newExpiration);
          if ok { counter := 1; done := true; }
        } else {
          var ok := CompareExchangeCounter(oldCounter, oldCounter + 1);
          if ok { expirationMs := newExpiration; done := true; }
        }
      }
      history := history + [Lock(now)];
      assert history[..|history| - 1] == old(history);
    }

    method DoUnlock()
      requires Valid()
      modifies this
      ensures Valid() && history == old(history) + [Unlock]
    {
      var done := false;
      while !done
        invariant history == old(history) && expirationMs == old(expirationMs)
        invariant !done ==> counter == old(counter)
        invariant done ==> counter == if old(counter) <= 0 then old(counter) else old(counter) - 1
        decreases !done
      {
        var oldCounter := counter;
        if oldCounter <= 0 {
          done := true;
        } else {
          done := CompareExchangeCounter(oldCounter, oldCounter - 1);
        }
      }
      history := history + [Unlock];
      assert history[..|history| - 1] == old(history);
    }

    method DoReset()
      requires Valid()
      modifies this
      ensures Valid() && history == old(history) + [Reset]
    {
      counter := 0;
      expirationMs := 0;
      history := history + [Reset];
      assert history[..|history| - 1] == old(history);
    }

    method IsLocked(now: int) returns (locked: bool)
      requires Valid()
      ensures locked == Held(history, now, ttlMs)
    {
      var expiration := expirationMs;
      var c := counter;
      locked := c > 0 && now < expiration;
      LockedIffLeaseHeld(history, now, ttlMs);
    }
  }
}
