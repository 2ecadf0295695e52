/** Who holds what: mutual exclusion, the books of the permit pool, and freedom
    from deadlock (src/application/refresh.rs:212-244,
    src/application/sync.rs:283-285). */
module ProtocolLocks {
  import opened Text
  import opened Json
  import opened Sums
  import opened Limiter
  import opened SyncApply
  import opened Protocol

  // ----- invariants -----

  predicate TaskWellFormed(task: Task) {
    match task.kind
    case Refresh(stale, _) => task.phase.HostWait? ==> task.phase.got < |LockOrder(task)|
    case Plain(_, _) => InSync(task.phase) || task.phase.Finished?
  }

  predicate WellFormed(s: State) {
    forall t | 0 <= t < |s.tasks| :: TaskWellFormed(s.tasks[t])
  }

  /** A host lock is in the table exactly when its holder believes it holds it. */
  predicate HostLocksAgree(s: State) {
    && (forall t, i | 0 <= t < |s.tasks| && 0 <= i < Got(s.tasks[t]) ::
          Key(s.tasks[t], i) in s.hostLocks && s.hostLocks[Key(s.tasks[t], i)] == t)
    && (forall k | k in s.hostLocks ::
          s.hostLocks[k] < |s.tasks| && HoldsHost(s.tasks[s.hostLocks[k]], k))
  }

  predicate HoldsHost(task: Task, key: (string, string)) {
    exists i | 0 <= i < Got(task) :: Key(task, i) == key
  }

  predicate SourceLocksAgree(s: State) {
    && (forall t | 0 <= t < |s.tasks| && HoldsSource(s.tasks[t].phase) ::
          s.tasks[t].sourceId in s.sourceLocks && s.sourceLocks[s.tasks[t].sourceId] == t)
    && (forall id | id in s.sourceLocks ::
          && s.sourceLocks[id] < |s.tasks|
          && HoldsSource(s.tasks[s.sourceLocks[id]].phase)
          && s.tasks[s.sourceLocks[id]].sourceId == id)
  }

  function PermitFlags(tasks: seq<Task>): seq<nat> {
    seq(|tasks|, i requires 0 <= i < |tasks| => if HoldsPermit(tasks[i]) then 1 else 0)
  }

  function PermitsHeld(tasks: seq<Task>): nat {
    Sum(PermitFlags(tasks))
  }

  ghost predicate PermitsAgree(s: State) {
    Conserved(s.limits, PermitsHeld(s.tasks), s.peak)
  }

  ghost predicate Consistent(s: State) {
    WellFormed(s) && HostLocksAgree(s) && SourceLocksAgree(s) && PermitsAgree(s)
  }

  // ----- what a step does to the resources -----

  function Actor(l: Label): Option<nat> {
    match l
    case Tick(_) => None
    case Resize(_) => None
    case Write(_, _) => None
    case StartRefresh(_, _, _, _) => None
    case StartSync(_, _, _, _) => None
    case _ => Some(l.t)
  }

  predicate SameRequest(a: Task, b: Task) {
    a.sourceId == b.sourceId && a.source == b.source && a.kind == b.kind
  }

  /** Nobody but the actor changes; a request starts one task, holding nothing. */
  ghost predicate TasksStep(s: State, l: Label, s': State) {
    if Actor(l).Some? then
      var t := Actor(l).value;
      && Is(s, t) && Is(s', t)
      && s'.tasks == s.tasks[t := s'.tasks[t]]
      && SameRequest(s.tasks[t], s'.tasks[t])
      && TaskWellFormed(s'.tasks[t])
    else if l.StartRefresh? || l.StartSync? then
      && |s'.tasks| == |s.tasks| + 1
      && s'.tasks == s.tasks + [s'.tasks[|s.tasks|]]
      && TaskWellFormed(s'.tasks[|s.tasks|])
      && Got(s'.tasks[|s.tasks|]) == 0
      && !HoldsSource(s'.tasks[|s.tasks|].phase)
      && !HoldsPermit(s'.tasks[|s.tasks|])
    else
      s'.tasks == s.tasks
  }

  /** One more host lock, the next in order; or all of them given back; or none. */
  ghost predicate HostLocksStep(s: State, s': State, t: nat)
    requires Is(s, t) && Is(s', t)
  {
    var task, task' := s.tasks[t], s'.tasks[t];
    || (s'.hostLocks == s.hostLocks && Got(task') == Got(task))
    || (&& Got(task) < |LockOrder(task)| && Got(task') == Got(task) + 1
        && Key(task, Got(task)) !in s.hostLocks
        && s'.hostLocks == s.hostLocks[Key(task, Got(task)) := t])
    || (s'.hostLocks == Released(s.hostLocks, t) && Got(task') == 0)
  }

  ghost predicate SourceLocksStep(s: State, s': State, t: nat)
    requires Is(s, t) && Is(s', t)
  {
    var task, task' := s.tasks[t], s'.tasks[t];
    || (s'.sourceLocks == s.sourceLocks && HoldsSource(task'.phase) == HoldsSource(task.phase))
    || (&& !HoldsSource(task.phase) && HoldsSource(task'.phase)
        && task.sourceId !in s.sourceLocks
        && s'.sourceLocks == s.sourceLocks[task.sourceId := t])
    || (&& HoldsSource(task.phase) && !HoldsSource(task'.phase)
        && s'.sourceLocks == s.sourceLocks - {task.sourceId})
  }

  ghost predicate PermitsStep(s: State, s': State, t: nat)
    requires Is(s, t) && Is(s', t)
  {
    var before, after := HoldsPermit(s.tasks[t]), HoldsPermit(s'.tasks[t]);
    && s'.peak == s.peak
    && if before == after then s'.limits == s.limits || s'.limits == Settled(s.limits)
       else if after then s.limits.free > 0 && s'.limits == s.limits.(free := s.limits.free - 1)
       else s'.limits == s.limits.(free := s.limits.free + 1)
  }

  /** Without an actor, only a resize touches a resource. */
  ghost predicate EnvironmentStep(s: State, l: Label, s': State) {
    && s'.hostLocks == s.hostLocks && s'.sourceLocks == s.sourceLocks
    && if l.Resize? then
         && s'.limits == Resized(s.limits, l.maxConcurrent)
         && s'.peak == Limiter.Max(s.peak, AtLeastOne(l.maxConcurrent))
       else s'.limits == s.limits && s'.peak == s.peak
  }

  ghost predicate Effect(s: State, l: Label, s': State) {
    && TasksStep(s, l, s')
    && if Actor(l).Some? then
         var t := Actor(l).value;
         HostLocksStep(s, s', t) && SourceLocksStep(s, s', t) && PermitsStep(s, s', t)
       else EnvironmentStep(s, l, s')
  }

  lemma EnvironmentEffect(s: State, l: Label)
    requires Can(s, l) && WellFormed(s) && Actor(l).None?
    ensures Effect(s, l, Do(s, l))
  {
  }

  lemma TakeHostEffect(s: State, t: nat)
    requires Can(s, TakeHost(t)) && WellFormed(s)
    ensures Effect(s, TakeHost(t), Do(s, TakeHost(t)))
  {
    hide OrderOf;
    var s' := Do(s, TakeHost(t));
    assert Got(s'.tasks[t]) == Got(s.tasks[t]) + 1;
  }

  lemma SettleEffect(s: State, t: nat)
    requires Can(s, Settle(t)) && WellFormed(s)
    ensures Effect(s, Settle(t), Do(s, Settle(t)))
  {
    hide OrderOf;
  }

  lemma TakePermitEffect(s: State, t: nat)
    requires Can(s, TakePermit(t)) && WellFormed(s)
    ensures Effect(s, TakePermit(t), Do(s, TakePermit(t)))
  {
    hide OrderOf;
  }

  lemma EnterEffect(s: State, t: nat)
    requires Can(s, Enter(t)) && WellFormed(s)
    ensures Effect(s, Enter(t), Do(s, Enter(t)))
  {
    hide OrderOf;
    QuietEffect(s, Enter(t), Do(s, Enter(t)), t);
  }

  lemma QueueEffect(s: State, t: nat)
    requires Can(s, Queue(t)) && WellFormed(s)
    ensures Effect(s, Queue(t), Do(s, Queue(t)))
  {
    hide OrderOf;
    QuietEffect(s, Queue(t), Do(s, Queue(t)), t);
  }

  lemma TakeSourceEffect(s: State, t: nat)
    requires Can(s, TakeSource(t)) && WellFormed(s)
    ensures Effect(s, TakeSource(t), Do(s, TakeSource(t)))
  {
    hide OrderOf;
  }

  /** A move that neither takes nor gives back anything. */
  lemma QuietEffect(s: State, l: Label, s': State, t: nat)
    requires Actor(l) == Some(t) && Is(s, t) && Is(s', t)
    requires s'.tasks == s.tasks[t := s'.tasks[t]]
    requires SameRequest(s.tasks[t], s'.tasks[t]) && TaskWellFormed(s'.tasks[t])
    requires Got(s'.tasks[t]) == Got(s.tasks[t])
    requires HoldsSource(s'.tasks[t].phase) == HoldsSource(s.tasks[t].phase)
    requires HoldsPermit(s'.tasks[t]) == HoldsPermit(s.tasks[t])
    requires s'.hostLocks == s.hostLocks && s'.sourceLocks == s.sourceLocks
    requires s'.limits == s.limits && s'.peak == s.peak
    ensures Effect(s, l, s')
  {
    hide OrderOf;
  }

  lemma CheckAgainEffect(s: State, t: nat, still: seq<string>)
    requires Is(s, t) && s.tasks[t].phase.Recheck? && s.tasks[t].kind.Refresh?
    ensures Effect(s, CheckAgain(t), DoCheckAgain(s, t, still))
  {
    hide OrderOf, Effect, TtlsOf;
    QuietEffect(s, CheckAgain(t), DoCheckAgain(s, t, still), t);
  }

  /** Giving everything back is a legal change of every resource. */
  lemma EndedEffect(s: State, t: nat)
    requires Is(s, t) && TaskWellFormed(s.tasks[t])
    ensures
      var s' := Ended(s, t);
      && s'.tasks == s.tasks[t := s.tasks[t].(phase := Finished)]
      && HostLocksStep(s, s', t) && SourceLocksStep(s, s', t) && PermitsStep(s, s', t)
  {
    hide OrderOf;
  }

  lemma BeginEffect(s: State, t: nat)
    requires Is(s, t) && s.tasks[t].phase.Granted? && TaskWellFormed(s.tasks[t])
    ensures Effect(s, Begin(t), DoBegin(s, t))
  {
    hide OrderOf;
    var s' := DoBegin(s, t);
    if Coalescable(s.tasks[t]) && Counter(s, s.tasks[t].sourceId) != s.tasks[t].countSeen {
      EndedEffect(s, t);
    } else {
      assert s'.tasks[t].phase == Gathering;
    }
  }

  lemma LandEffect(s: State, t: nat, answer: Option<Output>, delay: nat)
    requires Is(s, t) && s.tasks[t].phase.Gathering? && TaskWellFormed(s.tasks[t])
    ensures Effect(s, Land(t, answer, delay), DoLand(s, t, answer, delay))
  {
    hide OrderOf, Effect, Apply, Delivered, Lost;
    QuietEffect(s, Land(t, answer, delay), DoLand(s, t, answer, delay), t);
  }

  lemma FinishEffect(s: State, t: nat)
    requires Is(s, t) && s.tasks[t].phase.Landed? && TaskWellFormed(s.tasks[t])
    ensures Effect(s, Finish(t), DoFinish(s, t))
  {
    hide Sort;
    assert s.tasks[t].kind.Plain? ==> LockOrder(s.tasks[t]) == [];
  }

  lemma TimeOutEffect(s: State, t: nat)
    requires Can(s, TimeOut(t)) && WellFormed(s)
    ensures Effect(s, TimeOut(t), Do(s, TimeOut(t)))
  {
    hide OrderOf;
  }

  lemma UnwindEffect(s: State, t: nat)
    requires Can(s, Unwind(t)) && WellFormed(s)
    ensures Effect(s, Unwind(t), Do(s, Unwind(t)))
  {
    EndedEffect(s, t);
  }

  lemma CancelEffect(s: State, t: nat)
    requires Can(s, Cancel(t)) && WellFormed(s)
    ensures Effect(s, Cancel(t), Do(s, Cancel(t)))
  {
    EndedEffect(s, t);
  }

  /** What any step may do to the locks and the permits. */
  lemma {:induction false} StepHasEffect(s: State, l: Label)
    requires Can(s, l) && WellFormed(s)
    ensures Effect(s, l, Do(s, l))
  {
    hide Effect, DoFinish, DoLand, DoBegin, DoCheckAgain, OrderOf;
    match l
    case TakeHost(t) => TakeHostEffect(s, t);
    case CheckAgain(t) => CheckAgainEffect(s, t, StillStale(s, s.tasks[t]));
    case Settle(t) => SettleEffect(s, t);
    case TakePermit(t) => TakePermitEffect(s, t);
    case Enter(t) => EnterEffect(s, t);
    case Queue(t) => QueueEffect(s, t);
    case TakeSource(t) => TakeSourceEffect(s, t);
    case Begin(t) => BeginEffect(s, t);
    case Land(t, answer, delay) => LandEffect(s, t, answer, delay);
    case Finish(t) => FinishEffect(s, t);
    case Unwind(t) => UnwindEffect(s, t);
    case TimeOut(t) => TimeOutEffect(s, t);
    case Cancel(t) => CancelEffect(s, t);
    case _ => EnvironmentEffect(s, l);
  }

  // ----- every step keeps the invariants -----

  lemma WellFormedKept(s: State, l: Label, s': State)
    requires WellFormed(s) && TasksStep(s, l, s')
    ensures WellFormed(s')
  {
    hide OrderOf;
  }

  lemma HostLocksKept(s: State, l: Label, s': State)
    requires Effect(s, l, s') && HostLocksAgree(s)
    ensures HostLocksAgree(s')
  {
    hide OrderOf;
    if Actor(l).Some? {
      var t := Actor(l).value;
      HeldKeysKept(s, s', t);
      KeyHoldersKept(s, s', t);
    } else {
      assert forall t | 0 <= t < |s.tasks| :: s'.tasks[t] == s.tasks[t];
    }
  }

  lemma HeldKeysKept(s: State, s': State, t: nat)
    requires Is(s, t) && Is(s', t) && s'.tasks == s.tasks[t := s'.tasks[t]]
    requires SameRequest(s.tasks[t], s'.tasks[t])
    requires HostLocksStep(s, s', t) && HostLocksAgree(s)
    ensures forall u, i | 0 <= u < |s'.tasks| && 0 <= i < Got(s'.tasks[u]) ::
              Key(s'.tasks[u], i) in s'.hostLocks && s'.hostLocks[Key(s'.tasks[u], i)] == u
  {
    hide OrderOf;
    forall u, i | 0 <= u < |s'.tasks| && 0 <= i < Got(s'.tasks[u])
      ensures Key(s'.tasks[u], i) in s'.hostLocks && s'.hostLocks[Key(s'.tasks[u], i)] == u
    {
      assert Key(s'.tasks[u], i) == Key(s.tasks[u], i);
      assert u != t ==> s'.tasks[u] == s.tasks[u];
    }
  }

  lemma KeyHoldersKept(s: State, s': State, t: nat)
    requires Is(s, t) && Is(s', t) && s'.tasks == s.tasks[t := s'.tasks[t]]
    requires SameRequest(s.tasks[t], s'.tasks[t])
    requires HostLocksStep(s, s', t) && HostLocksAgree(s)
    ensures forall k | k in s'.hostLocks ::
              s'.hostLocks[k] < |s'.tasks| && HoldsHost(s'.tasks[s'.hostLocks[k]], k)
  {
    hide OrderOf;
    forall k | k in s'.hostLocks
      ensures s'.hostLocks[k] < |s'.tasks| && HoldsHost(s'.tasks[s'.hostLocks[k]], k)
    {
      if k in s.hostLocks {
        var u := s.hostLocks[k];
        var i :| 0 <= i < Got(s.tasks[u]) && Key(s.tasks[u], i) == k;
        assert Key(s'.tasks[u], i) == k;
      } else {
        assert Key(s'.tasks[t], Got(s.tasks[t])) == k;
      }
    }
  }

  lemma SourceHoldersKept(s: State, s': State, t: nat)
    requires Is(s, t) && Is(s', t) && s'.tasks == s.tasks[t := s'.tasks[t]]
    requires s'.tasks[t].sourceId == s.tasks[t].sourceId
    requires SourceLocksStep(s, s', t) && SourceLocksAgree(s)
    ensures SourceLocksAgree(s')
  {
    assert forall u | 0 <= u < |s.tasks| && u != t :: s'.tasks[u] == s.tasks[u];
  }

  lemma SourceLocksKept(s: State, l: Label, s': State)
    requires Effect(s, l, s') && SourceLocksAgree(s)
    ensures SourceLocksAgree(s')
  {
    if Actor(l).Some? {
      SourceHoldersKept(s, s', Actor(l).value);
    } else {
      assert forall t | 0 <= t < |s.tasks| :: s'.tasks[t] == s.tasks[t];
    }
  }

  lemma PermitsKept(s: State, l: Label, s': State)
    requires Effect(s, l, s') && PermitsAgree(s)
    ensures PermitsAgree(s')
  {
    hide OrderOf, HostLocksStep, SourceLocksStep, TaskWellFormed;
    var held := PermitFlags(s.tasks);
    if Actor(l).Some? {
      var t := Actor(l).value;
      var flag := if HoldsPermit(s'.tasks[t]) then 1 else 0;
      assert PermitFlags(s'.tasks) == held[t := flag];
      SumUpdate(held, t, flag);
    } else if l.StartRefresh? || l.StartSync? {
      assert PermitFlags(s'.tasks) == held + [0];
      SumAppend(held, 0);
    }
  }

  lemma ConsistentKept(s: State, l: Label)
    requires Can(s, l) && Consistent(s)
    ensures Consistent(Do(s, l))
  {
    StepHasEffect(s, l);
    WellFormedKept(s, l, Do(s, l));
    HostLocksKept(s, l, Do(s, l));
    SourceLocksKept(s, l, Do(s, l));
    PermitsKept(s, l, Do(s, l));
  }

  /** Every reachable state agrees on who holds what. */
  lemma {:induction false} ReachableConsistent(s: State, ls: seq<Label>)
    requires Initial(s) && Runs(s, ls)
    ensures Consistent(After(s, ls))
  {
    if ls != [] {
      ReachableConsistent(s, ls[..|ls| - 1]);
      ConsistentKept(After(s, ls[..|ls| - 1]), ls[|ls| - 1]);
    }
  }

  /** Two tasks never hold the same lock, and the permits out never exceed the
      largest capacity ever declared, however often the pool is resized. */
  lemma {:induction false} MutualExclusion(s: State, ls: seq<Label>, t: nat, u: nat)
    requires Initial(s) && Runs(s, ls)
    requires t < |After(s, ls).tasks| && u < |After(s, ls).tasks| && t != u
    ensures
      var now := After(s, ls);
      && (forall key :: !(HoldsHost(now.tasks[t], key) && HoldsHost(now.tasks[u], key)))
      && (HoldsSource(now.tasks[t].phase) && HoldsSource(now.tasks[u].phase)
          ==> now.tasks[t].sourceId != now.tasks[u].sourceId)
      && PermitsHeld(now.tasks) <= now.peak
      && now.limits.free + PermitsHeld(now.tasks) == now.limits.capacity + now.limits.debt
  {
    ReachableConsistent(s, ls);
  }

  // ----- freedom from deadlock -----

  /** A step a task takes by itself, not one the outside world forces on it. */
  predicate OwnStep(l: Label) {
    Actor(l).Some? && !l.TimeOut? && !l.Cancel?
  }

  ghost predicate Stuck(s: State) {
    forall l | OwnStep(l) :: !Can(s, l)
  }

  predicate Unfinished(s: State, t: nat) {
    Is(s, t) && !s.tasks[t].phase.Finished?
  }

  /** No unfinished refresh has a host twice among those it found stale. */
  predicate NoDuplicates(s: State) {
    forall t | 0 <= t < |s.tasks| && !s.tasks[t].phase.Finished? :: Ascending(LockOrder(s.tasks[t]))
  }

  /** Phases a task leaves without waiting for anybody. */
  predicate Running(phase: Phase) {
    !phase.HostWait? && !phase.PermitWait? && !phase.SourceWait? && !phase.Finished?
  }

  lemma RunningTaskMoves(s: State, t: nat)
    requires WellFormed(s) && Is(s, t) && Running(s.tasks[t].phase)
    ensures !Stuck(s)
  {
    var l := match s.tasks[t].phase
      case Recheck => CheckAgain(t)
      case Checked => Settle(t)
      case Entering => Enter(t)
      case CounterSeen => Queue(t)
      case Granted => Begin(t)
      case Gathering => Land(t, None, 0)
      case Landed(_) => Finish(t)
      case _ => Unwind(t);
    assert OwnStep(l) && Can(s, l);
  }

  /** Among waiters with tickets, one has the smallest. */
  lemma {:induction false} FirstInLine(flags: seq<bool>, tickets: seq<nat>, t: nat) returns (u: nat)
    requires |flags| == |tickets| && t < |flags| && flags[t]
    ensures u < |flags| && flags[u]
    ensures forall v | 0 <= v < |flags| && flags[v] :: tickets[u] <= tickets[v]
  {
    var n := |flags| - 1;
    if forall v | 0 <= v < n :: !flags[v] {
      u := n;
    } else {
      var w :| 0 <= w < n && flags[w];
      u := FirstInLine(flags[..n], tickets[..n], w);
      assert forall v | 0 <= v < n && flags[v] :: flags[..n][v];
      if flags[n] && tickets[n] < tickets[u] {
        u := n;
      }
    }
  }

  function TicketOf(phase: Phase): nat {
    match phase
    case HostWait(_, ticket) => ticket
    case PermitWait(ticket) => ticket
    case SourceWait(ticket) => ticket
    case _ => 0
  }

  lemma FreeSourceMoves(s: State, t: nat)
    requires Is(s, t) && s.tasks[t].phase.SourceWait? && s.tasks[t].sourceId !in s.sourceLocks
    ensures !Stuck(s)
  {
    var flags := seq(|s.tasks|, i requires 0 <= i < |s.tasks| => WantsSource(s.tasks[i], s.tasks[t].sourceId));
    var tickets := seq(|s.tasks|, i requires 0 <= i < |s.tasks| => TicketOf(s.tasks[i].phase));
    var u := FirstInLine(flags, tickets, t);
    assert forall v | 0 <= v < |s.tasks| && WantsSource(s.tasks[v], s.tasks[t].sourceId) :: flags[v];
    assert OwnStep(TakeSource(u)) && Can(s, TakeSource(u));
  }

  lemma FreePermitMoves(s: State, t: nat)
    requires Is(s, t) && s.tasks[t].phase.PermitWait? && s.limits.free > 0
    ensures !Stuck(s)
  {
    var flags := seq(|s.tasks|, i requires 0 <= i < |s.tasks| => s.tasks[i].phase.PermitWait?);
    var tickets := seq(|s.tasks|, i requires 0 <= i < |s.tasks| => TicketOf(s.tasks[i].phase));
    var u := FirstInLine(flags, tickets, t);
    assert forall v | 0 <= v < |s.tasks| && s.tasks[v].phase.PermitWait? :: flags[v];
    assert OwnStep(TakePermit(u)) && Can(s, TakePermit(u));
  }

  lemma FreeHostMoves(s: State, t: nat)
    requires WellFormed(s) && Is(s, t) && s.tasks[t].phase.HostWait?
    requires s.tasks[t].kind.Refresh?
    requires Key(s.tasks[t], s.tasks[t].phase.got) !in s.hostLocks
    ensures !Stuck(s)
  {
    var key := Key(s.tasks[t], s.tasks[t].phase.got);
    var flags := seq(|s.tasks|, i requires 0 <= i < |s.tasks| => WantsHost(s.tasks[i], key));
    var tickets := seq(|s.tasks|, i requires 0 <= i < |s.tasks| => TicketOf(s.tasks[i].phase));
    var u := FirstInLine(flags, tickets, t);
    assert forall v | 0 <= v < |s.tasks| && WantsHost(s.tasks[v], key) :: flags[v];
    assert OwnStep(TakeHost(u)) && Can(s, TakeHost(u));
  }

  function Wanted(task: Task): string {
    if task.phase.HostWait? && task.phase.got < |LockOrder(task)| then LockOrder(task)[task.phase.got] else ""
  }

  /** Among the names of the flagged, one is last in order. */
  lemma {:induction false} LastInOrder(flags: seq<bool>, names: seq<string>, t: nat) returns (u: nat)
    requires |flags| == |names| && t < |flags| && flags[t]
    ensures u < |flags| && flags[u]
    ensures forall v | 0 <= v < |flags| && flags[v] :: AtMost(names[v], names[u])
  {
    var n := |flags| - 1;
    if forall v | 0 <= v < n :: !flags[v] {
      u := n;
    } else {
      var w :| 0 <= w < n && flags[w];
      u := LastInOrder(flags[..n], names[..n], w);
      assert forall v | 0 <= v < n && flags[v] :: flags[..n][v] && AtMost(names[..n][v], names[u]);
      if flags[n] && !AtMost(names[n], names[u]) {
        BeforeTotal(names[u], names[n]);
        forall v | 0 <= v < n && flags[v]
          ensures AtMost(names[v], names[n])
        {
          assert AtMost(names[v], names[u]);
          if names[v] != names[u] {
            BeforeTransitive(names[v], names[u], names[n]);
          }
        }
        u := n;
      }
    }
  }

  lemma NobodyHoldsPermits(s: State)
    requires WellFormed(s) && PermitsAgree(s)
    requires forall t | 0 <= t < |s.tasks| :: !HoldsPermit(s.tasks[t])
    ensures s.limits.free == s.limits.capacity + s.limits.debt >= 1
  {
    SumZero(PermitFlags(s.tasks));
  }

  /** A task that holds a host lock and waits for another wants a later one. */
  lemma HolderWantsLater(s: State, key: (string, string))
    requires HostLocksAgree(s) && WellFormed(s) && NoDuplicates(s) && key in s.hostLocks
    requires s.tasks[s.hostLocks[key]].phase.HostWait?
    ensures Before(key.1, Wanted(s.tasks[s.hostLocks[key]]))
  {
    var holder := s.tasks[s.hostLocks[key]];
    var i :| 0 <= i < Got(holder) && Key(holder, i) == key;
    assert TaskWellFormed(holder) && Ascending(LockOrder(holder));
  }

  /** Sorted locking breaks every cycle: whoever waits for the last host in order
      waits for a lock that is free. */
  lemma HostWaitersMove(s: State, t: nat)
    requires Consistent(s) && NoDuplicates(s)
    requires forall u | 0 <= u < |s.tasks| :: s.tasks[u].phase.HostWait? || s.tasks[u].phase.Finished?
    requires Is(s, t) && s.tasks[t].phase.HostWait?
    ensures !Stuck(s)
  {
    hide OrderOf, NoDuplicates, Stuck;
    var flags := seq(|s.tasks|, i requires 0 <= i < |s.tasks| => s.tasks[i].phase.HostWait?);
    var names := seq(|s.tasks|, i requires 0 <= i < |s.tasks| => Wanted(s.tasks[i]));
    var u := LastInOrder(flags, names, t);
    assert TaskWellFormed(s.tasks[u]);
    var key := Key(s.tasks[u], s.tasks[u].phase.got);
    if key in s.hostLocks {
      var holder := s.hostLocks[key];
      assert HoldsHost(s.tasks[holder], key) && flags[holder];
      HolderWantsLater(s, key);
      assert AtMost(names[holder], names[u]);
      BeforeAsymmetric(names[u], names[holder]);
      BeforeIrreflexive(names[u]);
    }
    FreeHostMoves(s, u);
  }

  lemma PermitWaitersMove(s: State, t: nat)
    requires WellFormed(s) && PermitsAgree(s)
    requires forall u | 0 <= u < |s.tasks| :: !Running(s.tasks[u].phase) && !s.tasks[u].phase.SourceWait?
    requires Is(s, t) && s.tasks[t].phase.PermitWait?
    ensures !Stuck(s)
  {
    NobodyHoldsPermits(s);
    FreePermitMoves(s, t);
  }

  lemma SourceWaitersMove(s: State, t: nat)
    requires SourceLocksAgree(s)
    requires forall u | 0 <= u < |s.tasks| :: !Running(s.tasks[u].phase)
    requires Is(s, t) && s.tasks[t].phase.SourceWait?
    ensures !Stuck(s)
  {
    FreeSourceMoves(s, t);
  }

  lemma SomebodyMoves(s: State, t: nat)
    requires Consistent(s) && NoDuplicates(s) && Unfinished(s, t)
    ensures !Stuck(s)
  {
    if u :| 0 <= u < |s.tasks| && Running(s.tasks[u].phase) {
      RunningTaskMoves(s, u);
    } else if u :| 0 <= u < |s.tasks| && s.tasks[u].phase.SourceWait? {
      SourceWaitersMove(s, u);
    } else if u :| 0 <= u < |s.tasks| && s.tasks[u].phase.PermitWait? {
      PermitWaitersMove(s, u);
    } else {
      HostWaitersMove(s, t);
    }
  }

  /** No request of the run finds one host stale twice. */
  ghost predicate StaleOnce(s: State, ls: seq<Label>) {
    ls != [] ==>
      var before, l := ls[..|ls| - 1], ls[|ls| - 1];
      StaleOnce(s, before) && (l.StartRefresh? ==> Distinct(FoundStale(After(s, before), l)))
  }

  /** What a request finds stale when it comes. */
  ghost function FoundStale(s: State, l: Label): seq<string>
    requires l.StartRefresh?
  {
    StaleHosts(Cached(s.cache, l.sourceId), l.source, l.hosts, l.fallback, s.now)
  }

  /** In particular a run whose requests name no host twice. */
  lemma {:induction false} NamedOnceIsStaleOnce(s: State, ls: seq<Label>)
    requires forall i | 0 <= i < |ls| && ls[i].StartRefresh? :: Distinct(ls[i].hosts)
    ensures StaleOnce(s, ls)
  {
    if ls != [] {
      NamedOnceIsStaleOnce(s, ls[..|ls| - 1]);
    }
  }

  lemma {:induction false} ActorIsUnfinished(s: State, l: Label)
    requires Can(s, l) && Actor(l).Some?
    ensures Unfinished(s, Actor(l).value)
  {
    hide OrderOf;
  }

  lemma {:induction false} NoDuplicatesKept(s: State, l: Label)
    requires Can(s, l) && WellFormed(s) && NoDuplicates(s)
    requires l.StartRefresh? ==> Distinct(FoundStale(s, l))
    ensures NoDuplicates(Do(s, l))
  {
    hide OrderOf, Can, Do, HostLocksStep, SourceLocksStep, PermitsStep, EnvironmentStep, TaskWellFormed, FoundStale;
    StepHasEffect(s, l);
    if Actor(l).Some? {
      ActorIsUnfinished(s, l);
    } else if l.StartRefresh? || l.StartSync? {
      NewTaskIsOrdered(s, l);
    }
  }

  lemma {:induction false} NewTaskIsOrdered(s: State, l: Label)
    requires Can(s, l) && (l.StartRefresh? || l.StartSync?)
    requires l.StartRefresh? ==> Distinct(FoundStale(s, l))
    ensures |Do(s, l).tasks| == |s.tasks| + 1 && Ascending(LockOrder(Do(s, l).tasks[|s.tasks|]))
  {
    if l.StartRefresh? {
      SortDistinct(FoundStale(s, l));
    }
  }

  lemma {:induction false} ReachableNoDuplicates(s: State, ls: seq<Label>)
    requires Initial(s) && Runs(s, ls) && StaleOnce(s, ls)
    ensures NoDuplicates(After(s, ls))
  {
    if ls != [] {
      ReachableConsistent(s, ls[..|ls| - 1]);
      ReachableNoDuplicates(s, ls[..|ls| - 1]);
      NoDuplicatesKept(After(s, ls[..|ls| - 1]), ls[|ls| - 1]);
    }
  }

  /** The lock hierarchy is free from deadlock: after any run (requests, resizes,
      timeouts and cancellations included) in which no request found a host stale
      twice, while a refresh or a sync is unfinished some task can take a step of
      its own. */
  lemma {:induction false} DeadlockFree(s: State, ls: seq<Label>, t: nat)
    requires Initial(s) && Runs(s, ls) && StaleOnce(s, ls)
    requires Unfinished(After(s, ls), t)
    ensures exists l :: OwnStep(l) && Can(After(s, ls), l)
  {
    ReachableConsistent(s, ls);
    ReachableNoDuplicates(s, ls);
    SomebodyMoves(After(s, ls), t);
  }

  // ----- a host stale twice -----

  /** No task holds one host lock twice. */
  predicate HeldOnce(s: State) {
    forall t | 0 <= t < |s.tasks| :: Distinct(LockOrder(s.tasks[t])[..Got(s.tasks[t])])
  }

  lemma {:induction false} ActorHoldsOnce(s: State, s': State, t: nat)
    requires Is(s, t) && Is(s', t) && SameRequest(s.tasks[t], s'.tasks[t])
    requires HostLocksStep(s, s', t) && HostLocksAgree(s) && HeldOnce(s)
    ensures Distinct(LockOrder(s'.tasks[t])[..Got(s'.tasks[t])])
  {
    hide OrderOf;
    var order, n := LockOrder(s.tasks[t]), Got(s.tasks[t]);
    if n < |order| && Got(s'.tasks[t]) == n + 1 && Key(s.tasks[t], n) !in s.hostLocks {
      forall i | 0 <= i < n
        ensures order[i] != order[n]
      {
        assert Key(s.tasks[t], i) in s.hostLocks;
      }
      assert Distinct(order[..n]);
      forall i, j | 0 <= i < j < n
        ensures order[i] != order[j]
      {
        assert order[..n][i] != order[..n][j];
      }
    }
  }

  lemma {:induction false} HeldOnceKept(s: State, l: Label)
    requires Can(s, l) && Consistent(s) && HeldOnce(s)
    ensures HeldOnce(Do(s, l))
  {
    hide OrderOf, Can, Do, Distinct, HostLocksStep, SourceLocksStep, PermitsStep, EnvironmentStep, TaskWellFormed, HostLocksAgree, SourceLocksAgree, PermitsAgree;
    StepHasEffect(s, l);
    if Actor(l).Some? {
      ActorHoldsOnce(s, Do(s, l), Actor(l).value);
    } else if l.StartRefresh? || l.StartSync? {
      assert LockOrder(Do(s, l).tasks[|s.tasks|])[..0] == [];
      NothingIsDistinct();
    }
  }

  lemma {:induction false} NothingIsDistinct()
    ensures Distinct([])
  {
  }

  lemma {:induction false} ReachableHeldOnce(s: State, ls: seq<Label>)
    requires Initial(s) && Runs(s, ls)
    ensures HeldOnce(After(s, ls))
  {
    hide Do, Can;
    if ls == [] {
      InitialHeldOnce(s);
    } else {
      ReachableConsistent(s, ls[..|ls| - 1]);
      ReachableHeldOnce(s, ls[..|ls| - 1]);
      HeldOnceKept(After(s, ls[..|ls| - 1]), ls[|ls| - 1]);
    }
  }

  lemma {:induction false} InitialHeldOnce(s: State)
    requires Initial(s)
    ensures HeldOnce(After(s, []))
  {
  }
}
