/** The live-resizable permit pool and the per-host lock table of on-demand
    refreshes (src/application/refresh.rs:42-140). */
module Limiter {

  /** The pool as a value: the capacity it is meant to have, the permits a
      shrink could not take back yet, and the permits free in the semaphore. */
  datatype Limits = Limits(capacity: nat, debt: nat, free: nat)

  function AtLeastOne(n: nat): nat {
    if n == 0 then 1 else n
  }

  function Min(a: nat, b: nat): nat {
    if a <= b then a else b
  }

  function FullPool(maxConcurrent: nat): Limits {
    Limits(AtLeastOne(maxConcurrent), 0, AtLeastOne(maxConcurrent))
  }

  /** New capacity: a growth pays off pending debt before it adds permits, a
      shrink takes what is free and remembers the rest. */
  function Resized(l: Limits, maxConcurrent: nat): Limits {
    var target := AtLeastOne(maxConcurrent);
    if target >= l.capacity then
      var grow := target - l.capacity;
      var cancelled := Min(grow, l.debt);
      Limits(target, l.debt - cancelled, l.free + (grow - cancelled))
    else
      var shrink := l.capacity - target;
      var forgotten := Min(shrink, l.free);
      Limits(target, l.debt + (shrink - forgotten), l.free - forgotten)
  }

  /** The first half of an acquisition: free permits pay the debt. */
  function Settled(l: Limits): Limits {
    var forgotten := Min(l.debt, l.free);
    Limits(l.capacity, l.debt - forgotten, l.free - forgotten)
  }

  /** Conservation, with `held` permits out and `peak` the largest capacity ever
      declared. */
  ghost predicate Conserved(l: Limits, held: nat, peak: nat) {
    && l.free + held == l.capacity + l.debt
    && l.capacity + l.debt <= peak
    && l.capacity >= 1
  }

  function Max(a: nat, b: nat): nat {
    if a <= b then b else a
  }

  /** A resize and a settlement keep the books balanced, so permits held never
      exceed the largest capacity ever declared; and with nothing held, one
      settlement leaves exactly the declared capacity free. */
  lemma ResizeAndSettleConserve(l: Limits, held: nat, peak: nat, maxConcurrent: nat)
    requires Conserved(l, held, peak)
    ensures held <= peak
    ensures Conserved(Resized(l, maxConcurrent), held, Max(peak, AtLeastOne(maxConcurrent)))
    ensures Conserved(Settled(l), held, peak)
    ensures held == 0 ==> Settled(l) == Limits(l.capacity, 0, l.capacity)
    ensures Resized(Resized(l, maxConcurrent), l.capacity).debt <= l.debt
  {
  }

  /** A resize declares the new capacity, at least one, and loses no time: a growth adds
      permits only when no debt is left, a shrink leaves debt only when no permit is
      free. So does a settlement. A pool with nothing out is resized to a full pool. */
  lemma ResizesArePrompt(l: Limits, maxConcurrent: nat)
    ensures var r := Resized(l, maxConcurrent);
            && r.capacity == (if maxConcurrent == 0 then 1 else maxConcurrent)
            && (r.capacity >= l.capacity ==>
                  r.debt <= l.debt && l.free <= r.free && (r.free == l.free || r.debt == 0)
                  && (l.debt - r.debt) + (r.free - l.free) == r.capacity - l.capacity)
            && (r.capacity < l.capacity ==>
                  l.debt <= r.debt && r.free <= l.free && (r.debt == l.debt || r.free == 0)
                  && (r.debt - l.debt) + (l.free - r.free) == l.capacity - r.capacity)
    ensures Settled(l).capacity == l.capacity && l.debt - Settled(l).debt == l.free - Settled(l).free
    ensures Settled(l).debt == 0 || Settled(l).free == 0
    ensures l == FullPool(l.capacity) && l.capacity > 0 ==> Resized(l, maxConcurrent) == FullPool(maxConcurrent)
  {
  }

  /** The semaphore: permits that nobody holds. */
  class Semaphore {
    var available: nat

    constructor (permits: nat)
      ensures available == permits
    {
      available := permits;
    }

    method AddPermits(n: nat)
      modifies this
      ensures available == old(available) + n
    {
      available := available + n;
    }

    /** Takes back up to `n` free permits and says how many it took. */
    method ForgetPermits(n: nat) returns (forgotten: nat)
      modifies this
      ensures forgotten == Min(n, old(available))
      ensures available == old(available) - forgotten
    {
      forgotten := if n <= available then n else available;
      available := available - forgotten;
    }
  }

  class HostLock {
    constructor () { }
  }

  class RefreshCoordinator {
    var inFlight: map<(string, string), HostLock>
    const limiter: Semaphore
    var capacity: nat
    var shrinkDebt: nat
    var budgetSeconds: nat
    // Permits out, and the largest capacity ever declared.
    ghost var held: nat
    ghost var peak: nat

    ghost function Pool(): Limits
      reads this, limiter
    {
      Limits(capacity, shrinkDebt, limiter.available)
    }

    ghost predicate Valid()
      reads this, limiter
    {
      && Conserved(Pool(), held, peak)
      && held <= peak
      && forall a, b | a in inFlight && b in inFlight && a != b :: inFlight[a] != inFlight[b]
    }

    constructor (maxConcurrent: nat, timeoutSeconds: nat)
      ensures Valid() && fresh(limiter)
      ensures Pool() == FullPool(maxConcurrent) && held == 0 && peak == AtLeastOne(maxConcurrent)
      ensures inFlight == map[] && budgetSeconds == timeoutSeconds
    {
      inFlight := map[];
      capacity, shrinkDebt := AtLeastOne(maxConcurrent), 0;
      budgetSeconds := timeoutSeconds;
      held, peak := 0, AtLeastOne(maxConcurrent);
      limiter := new Semaphore(AtLeastOne(maxConcurrent));
    }

    /** Adopt new limits under a running process. */
    method Resize(maxConcurrent: nat, timeoutSeconds: nat)
      requires Valid()
      modifies this`capacity, this`shrinkDebt, this`budgetSeconds, this`peak, limiter
      ensures Valid()
      ensures Pool() == Resized(old(Pool()), maxConcurrent)
      ensures budgetSeconds == timeoutSeconds
      ensures peak == Max(old(peak), AtLeastOne(maxConcurrent))
    {
      ResizeAndSettleConserve(Pool(), held, peak, maxConcurrent);
      budgetSeconds := timeoutSeconds;
      var target := AtLeastOne(maxConcurrent);
      if target >= capacity {
        var grow := target - capacity;
        var cancelled := Min(grow, shrinkDebt);
        shrinkDebt := shrinkDebt - cancelled;
        grow := grow - cancelled;
        limiter.AddPermits(grow);
      } else {
        var shrink := capacity - target;
        var forgotten := limiter.ForgetPermits(shrink);
        shrinkDebt := shrinkDebt + (shrink - forgotten);
      }
      capacity := target;
      peak := Max(peak, target);
    }

    /** Acquisition, first half: settle the debt, before waiting for a permit. */
    method Settle()
      requires Valid()
      modifies this`shrinkDebt, limiter
      ensures Valid()
      ensures Pool() == Settled(old(Pool()))
      ensures held == 0 ==> limiter.available == capacity >= 1
    {
      ResizeAndSettleConserve(Pool(), held, peak, capacity);
      if shrinkDebt > 0 {
        var forgotten := limiter.ForgetPermits(shrinkDebt);
        shrinkDebt := shrinkDebt - forgotten;
      }
    }

    /** Acquisition, second half: the wait ends when a permit is free. */
    method Take()
      requires Valid() && limiter.available > 0
      modifies this`held, limiter
      ensures Valid()
      ensures held == old(held) + 1 && limiter.available == old(limiter.available) - 1
    {
      var _ := limiter.ForgetPermits(1);
      held := held + 1;
    }

    /** A permit that goes out of scope. */
    method Release()
      requires Valid() && held > 0
      modifies this`held, limiter
      ensures Valid()
      ensures held == old(held) - 1 && limiter.available == old(limiter.available) + 1
    {
      limiter.AddPermits(1);
      held := held - 1;
    }

    /** One lock per (source, host), the same one every time, never shared by two
        hosts. */
    method LockFor(sourceId: string, hostname: string) returns (lock: HostLock)
      requires Valid()
      modifies this`inFlight
      ensures Valid()
      ensures (sourceId, hostname) in inFlight && inFlight[(sourceId, hostname)] == lock
      ensures inFlight == old(inFlight)[(sourceId, hostname) := lock]
      ensures (sourceId, hostname) in old(inFlight) ==> lock == old(inFlight)[(sourceId, hostname)]
      ensures (sourceId, hostname) !in old(inFlight) ==> fresh(lock)
    {
      var key := (sourceId, hostname);
      if key !in inFlight {
        var created := new HostLock();
        inFlight := inFlight[key := created];
      }
      lock := inFlight[key];
    }
  }
}
