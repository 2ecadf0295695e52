/** Who holds what in every run, told by requests and phases: host locks, source locks
    and permits (src/application/refresh.rs:99-139, 203-244,
    src/application/sync.rs:277-311). */
module ProtocolResources {
  import opened Json
  import opened SyncApply
  import opened Limiter
  import opened Protocol
  import opened ProtocolLocks
  import opened Sums

  /** A refresh that has all its locks. */
  predicate PastLocks(task: Task) {
    task.kind.Refresh? && !task.phase.HostWait? && !task.phase.Finished?
  }

  /** Gathering, or its gather landed and not yet done with. */
  predicate Busy(task: Task) {
    task.phase.Gathering? || task.phase.Landed?
  }

  lemma {:induction false} LockedForTheStale(s: State, t: nat, id: string, host: string)
    requires WellFormed(s) && HostLocksAgree(s) && Is(s, t)
    requires (id, host) in s.hostLocks && s.hostLocks[(id, host)] == t
    ensures var task := s.tasks[t];
            task.kind.Refresh? && !task.phase.Finished? && id == task.sourceId && host in task.kind.stale
  {
    var task := s.tasks[t];
    assert HoldsHost(task, (id, host));
    var i :| 0 <= i < Got(task) && Key(task, i) == (id, host);
    assert host == LockOrder(task)[i];
  }

  lemma {:induction false} StaleAreLocked(s: State, t: nat, host: string)
    requires HostLocksAgree(s) && Is(s, t) && PastLocks(s.tasks[t]) && host in s.tasks[t].kind.stale
    ensures var key := (s.tasks[t].sourceId, host);
            key in s.hostLocks && s.hostLocks[key] == t
  {
    var task := s.tasks[t];
    assert host in LockOrder(task);
    var i :| 0 <= i < |LockOrder(task)| && LockOrder(task)[i] == host;
    assert Key(task, i) == (task.sourceId, host);
  }

  /** In every run: a host lock is held by an unfinished refresh of that source that found
      that host stale; and one that is past its lock wait holds the locks of all it found
      stale. Refreshes of other sources or hosts are not in each other's way. */
  lemma {:induction false} HostLocksAreForTheStale(s: State, ls: seq<Label>, t: nat, id: string, host: string)
    requires Initial(s) && Runs(s, ls) && Is(After(s, ls), t)
    ensures var now := After(s, ls);
            var task := now.tasks[t];
            var holds := (id, host) in now.hostLocks && now.hostLocks[(id, host)] == t;
            && (holds ==> task.kind.Refresh? && !task.phase.Finished? && id == task.sourceId && host in task.kind.stale)
            && (PastLocks(task) ==> (holds <==> id == task.sourceId && host in task.kind.stale))
  {
    hide After, Runs, Initial, WellFormed, HostLocksAgree, SourceLocksAgree, PermitsAgree;
    ReachableConsistent(s, ls);
    var now := After(s, ls);
    var task := now.tasks[t];
    if (id, host) in now.hostLocks && now.hostLocks[(id, host)] == t {
      LockedForTheStale(now, t, id, host);
    }
    if PastLocks(task) && id == task.sourceId && host in task.kind.stale {
      StaleAreLocked(now, t, host);
    }
  }

  /** Two refreshes of a source that found the same host stale are never both past their
      lock waits, and two syncs of a source never gather or write at the same time. */
  lemma {:induction false} OneAtATime(s: State, ls: seq<Label>, t: nat, u: nat)
    requires Initial(s) && Runs(s, ls) && Is(After(s, ls), t) && Is(After(s, ls), u) && t != u
    ensures var a, b := After(s, ls).tasks[t], After(s, ls).tasks[u];
            && (PastLocks(a) && PastLocks(b) && a.sourceId == b.sourceId ==>
                  forall host | host in a.kind.stale :: host !in b.kind.stale)
            && (Busy(a) && Busy(b) ==> a.sourceId != b.sourceId)
  {
    hide After, Runs, Initial;
    MutualExclusion(s, ls, t, u);
    var a := After(s, ls).tasks[t];
    var b := After(s, ls).tasks[u];
    forall host | PastLocks(a) && PastLocks(b) && a.sourceId == b.sourceId && host in a.kind.stale
      ensures host !in b.kind.stale
    {
      HostLocksAreForTheStale(s, ls, t, a.sourceId, host);
      HostLocksAreForTheStale(s, ls, u, a.sourceId, host);
    }
  }

  /** Whoever queues for a permit settles the pool first: after it there is no debt, or
      no permit to pay it with. */
  lemma {:induction false} QueueingSettles(s: State, t: nat)
    requires Can(s, Settle(t))
    ensures var s' := Do(s, Settle(t));
            s'.tasks[t].phase.PermitWait? && (s'.limits.debt == 0 || s'.limits.free == 0)
  {
    hide OrderOf;
  }

  /** Nothing but a resize changes the capacity or raises the largest one declared. */
  lemma {:induction false} CapacityIsDeclared(s: State, l: Label)
    requires Can(s, l) && WellFormed(s)
    ensures if l.Resize? then
              && Do(s, l).limits.capacity == (if l.maxConcurrent == 0 then 1 else l.maxConcurrent)
              && Do(s, l).peak <= Limiter.Max(s.peak, Do(s, l).limits.capacity)
            else Do(s, l).limits.capacity == s.limits.capacity && Do(s, l).peak <= s.peak
  {
    hide Do, Can, WellFormed, TasksStep, HostLocksStep, SourceLocksStep;
    StepHasEffect(s, l);
  }

  /** The refreshes that gather now. */
  function GatheringRefreshes(tasks: seq<Task>): set<nat> {
    set t: nat | t < |tasks| && tasks[t].kind.Refresh? && tasks[t].phase.Gathering?
  }

  lemma {:induction false} GatherersHavePermits(tasks: seq<Task>)
    ensures |GatheringRefreshes(tasks)| <= PermitsHeld(tasks)
  {
    if tasks != [] {
      var n := |tasks| - 1;
      GatherersHavePermits(tasks[..n]);
      assert PermitFlags(tasks)[..n] == PermitFlags(tasks[..n]);
      var here: set<nat> := if tasks[n].kind.Refresh? && tasks[n].phase.Gathering? then {n} else {};
      assert GatheringRefreshes(tasks) == GatheringRefreshes(tasks[..n]) + here;
    }
  }

  lemma {:induction false} PeakIsDeclared(s: State, ls: seq<Label>, most: nat)
    requires Initial(s) && Runs(s, ls) && s.peak <= most
    requires forall l | l in ls && l.Resize? :: l.maxConcurrent <= most
    ensures 1 <= After(s, ls).peak <= most
  {
    hide Can, Do, WellFormed;
    if ls != [] {
      PeakIsDeclared(s, ls[..|ls| - 1], most);
      ReachableConsistent(s, ls[..|ls| - 1]);
      ReachableConsistent(s, ls);
      assert ls[|ls| - 1] in ls;
      CapacityIsDeclared(After(s, ls[..|ls| - 1]), ls[|ls| - 1]);
    }
  }

  /** However requests, resizes, timeouts and cancellations interleave, no more refreshes
      gather at once than the largest number ever declared, at the start or by a resize. */
  lemma {:induction false} RefreshesAreLimited(s: State, ls: seq<Label>, most: nat)
    requires Initial(s) && Runs(s, ls)
    requires s.limits.capacity <= most && forall l | l in ls && l.Resize? :: l.maxConcurrent <= most
    ensures |GatheringRefreshes(After(s, ls).tasks)| <= most
    ensures var now := After(s, ls);
            now.limits.free + |GatheringRefreshes(now.tasks)| <= now.limits.capacity + now.limits.debt
  {
    hide Runs, After;
    PeakIsDeclared(s, ls, most);
    GatherersHavePermits(After(s, ls).tasks);
    ReachableConsistent(s, ls);
  }
}
