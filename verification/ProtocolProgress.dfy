/** From any reachable state the tasks finish by themselves, in a bounded number
    of steps, exactly when no request found a host stale twice
    (src/application/refresh.rs:203-295). */
module ProtocolProgress {
  import opened Text
  import opened Json
  import opened Sums
  import opened Sources
  import opened Entries
  import opened SyncApply
  import opened Protocol
  import opened ProtocolLocks

  /** The steps a task has before it. */
  function StepsLeft(task: Task): nat {
    match task.phase
    case HostWait(_, _) => 10 + (|LockOrder(task)| - Got(task))
    case Recheck => 10
    case Checked => 9
    case PermitWait(_) => 8
    case Entering => 7
    case CounterSeen => 6
    case SourceWait(_) => 5
    case Granted => 4
    case Gathering => 3
    case Landed(_) => 2
    case Unwinding(_) => 1
    case Finished => 0
  }

  function AllSteps(tasks: seq<Task>): seq<nat> {
    seq(|tasks|, i requires 0 <= i < |tasks| => StepsLeft(tasks[i]))
  }

  /** The steps all the tasks have before them. */
  function Work(s: State): nat {
    Sum(AllSteps(s.tasks))
  }

  lemma CheckGetsCloser(s: State, t: nat, still: seq<string>)
    requires Is(s, t) && s.tasks[t].phase.Recheck? && s.tasks[t].kind.Refresh?
    ensures StepsLeft(DoCheckAgain(s, t, still).tasks[t]) < StepsLeft(s.tasks[t])
  {
  }

  lemma BeginGetsCloser(s: State, t: nat)
    requires Is(s, t) && s.tasks[t].phase.Granted?
    ensures StepsLeft(DoBegin(s, t).tasks[t]) < StepsLeft(s.tasks[t])
  {
    hide OrderOf, Released;
  }

  lemma LandGetsCloser(s: State, t: nat, answer: Option<Output>, delay: nat)
    requires Is(s, t) && s.tasks[t].phase.Gathering?
    ensures StepsLeft(DoLand(s, t, answer, delay).tasks[t]) < StepsLeft(s.tasks[t])
  {
    hide OrderOf, Apply, Delivered, Lost;
  }

  lemma EndGetsCloser(s: State, l: Label)
    requires Can(s, l) && (l.Finish? || l.Unwind?)
    ensures StepsLeft(Do(s, l).tasks[Actor(l).value]) < StepsLeft(s.tasks[Actor(l).value])
  {
  }

  lemma WaiterGetsCloser(s: State, l: Label)
    requires Can(s, l) && (l.Settle? || l.TakePermit? || l.Enter? || l.Queue? || l.TakeSource?)
    ensures StepsLeft(Do(s, l).tasks[Actor(l).value]) < StepsLeft(s.tasks[Actor(l).value])
  {
  }

  lemma TakerGetsCloser(s: State, t: nat)
    requires Can(s, TakeHost(t)) && WellFormed(s)
    ensures StepsLeft(Do(s, TakeHost(t)).tasks[t]) < StepsLeft(s.tasks[t])
  {
    TakeHostEffect(s, t);
  }

  lemma TaskGetsCloser(s: State, l: Label)
    requires Can(s, l) && WellFormed(s) && OwnStep(l)
    ensures StepsLeft(Do(s, l).tasks[Actor(l).value]) < StepsLeft(s.tasks[Actor(l).value])
  {
    hide StepsLeft, DoBegin, DoLand, DoCheckAgain;
    if l.CheckAgain? {
      CheckGetsCloser(s, l.t, StillStale(s, s.tasks[l.t]));
    } else if l.TakeHost? {
      TakerGetsCloser(s, l.t);
    } else if l.Begin? {
      BeginGetsCloser(s, l.t);
    } else if l.Land? {
      LandGetsCloser(s, l.t, l.answer, l.delay);
    } else if l.Finish? || l.Unwind? {
      EndGetsCloser(s, l);
    } else {
      WaiterGetsCloser(s, l);
    }
  }

  lemma WorkShrinks(s: State, l: Label)
    requires Can(s, l) && WellFormed(s) && OwnStep(l)
    ensures Work(Do(s, l)) < Work(s)
  {
    StepHasEffect(s, l);
    TaskGetsCloser(s, l);
    var t := Actor(l).value;
    var s' := Do(s, l);
    assert AllSteps(s'.tasks) == AllSteps(s.tasks)[t := StepsLeft(s'.tasks[t])];
    SumUpdate(AllSteps(s.tasks), t, StepsLeft(s'.tasks[t]));
  }

  /** Every sequence of the tasks' own steps is at most as long as the work left,
      so with no new requests nobody runs forever. */
  lemma {:induction false} OwnStepsAreBounded(s: State, ls: seq<Label>)
    requires Consistent(s) && Runs(s, ls)
    requires forall i | 0 <= i < |ls| :: OwnStep(ls[i])
    ensures |ls| + Work(After(s, ls)) <= Work(s)
    ensures Consistent(After(s, ls))
  {
    if ls != [] {
      var before := ls[..|ls| - 1];
      OwnStepsAreBounded(s, before);
      WorkShrinks(After(s, before), ls[|ls| - 1]);
      ConsistentKept(After(s, before), ls[|ls| - 1]);
    }
  }

  lemma {:induction false} RunsTogether(s: State, ls: seq<Label>, more: seq<Label>)
    requires Runs(s, ls) && Runs(After(s, ls), more)
    ensures Runs(s, ls + more) && After(s, ls + more) == After(After(s, ls), more)
  {
    if more == [] {
      assert ls + more == ls;
    } else {
      var n := |more| - 1;
      RunsTogether(s, ls, more[..n]);
      assert (ls + more)[..|ls + more| - 1] == ls + more[..n];
    }
  }

  predicate AllFinished(s: State) {
    forall t | 0 <= t < |s.tasks| :: s.tasks[t].phase.Finished?
  }

  lemma NoStep(s: State)
    ensures Runs(s, []) && After(s, []) == s
  {
  }

  lemma StepFirst(s: State, l: Label, rest: seq<Label>)
    requires Can(s, l) && Runs(Do(s, l), rest)
    ensures Runs(s, [l] + rest) && After(s, [l] + rest) == After(Do(s, l), rest)
  {
    OneMoreStep(s, [], l);
    assert [] + [l] == [l];
    RunsTogether(s, [l], rest);
  }

  lemma OneStepOn(s: State, t: nat) returns (l: Label)
    requires Consistent(s) && NoDuplicates(s) && Unfinished(s, t)
    ensures OwnStep(l) && Can(s, l)
    ensures Consistent(Do(s, l)) && NoDuplicates(Do(s, l)) && Work(Do(s, l)) < Work(s)
  {
    SomebodyMoves(s, t);
    l :| OwnStep(l) && Can(s, l);
    WorkShrinks(s, l);
    ConsistentKept(s, l);
    NoDuplicatesKept(s, l);
  }

  lemma {:induction false} TasksFinish(s: State) returns (more: seq<Label>)
    requires Consistent(s) && NoDuplicates(s)
    ensures Runs(s, more) && AllFinished(After(s, more))
    ensures forall i | 0 <= i < |more| :: OwnStep(more[i])
    decreases Work(s)
  {
    hide Protocol.Do, Protocol.Can;
    more := [];
    if t :| Unfinished(s, t) {
      var l := OneStepOn(s, t);
      var rest := TasksFinish(Do(s, l));
      StepFirst(s, l, rest);
      more := [l] + rest;
    } else {
      NoStep(s);
      forall t | 0 <= t < |s.tasks|
        ensures s.tasks[t].phase.Finished?
      {
        assert !Unfinished(s, t);
      }
    }
  }

  /** After any run in which no request found a host stale twice, the tasks can finish
      without any help (no timeout, no cancellation), in at most as many steps as
      they have before them; and whatever order they step in, they cannot take
      more. */
  lemma {:induction false} EverybodyFinishes(s: State, ls: seq<Label>)
    requires Initial(s) && Runs(s, ls) && StaleOnce(s, ls)
    ensures exists more :: && Runs(s, ls + more) && AllFinished(After(s, ls + more))
                           && |more| <= Work(After(s, ls))
                           && forall i | 0 <= i < |more| :: OwnStep(more[i])
  {
    ReachableConsistent(s, ls);
    ReachableNoDuplicates(s, ls);
    var more := TasksFinish(After(s, ls));
    OwnStepsAreBounded(After(s, ls), more);
    RunsTogether(s, ls, more);
  }

  // ----- a host stale twice -----

  /** A refresh with a host twice in its list is finished or still at its locks: it
      would have to hold one of them twice to be further. */
  lemma {:induction false} RepeatIsAtItsLocks(s: State, t: nat)
    requires HeldOnce(s) && Unfinished(s, t) && !Distinct(LockOrder(s.tasks[t]))
    ensures s.tasks[t].phase.HostWait?
  {
    hide OrderOf, Distinct;
    var order := LockOrder(s.tasks[t]);
    assert order[..|order|] == order;
  }

  lemma {:induction false} OwnStepsOfAWaiter(s: State, l: Label, t: nat)
    requires Can(s, l) && OwnStep(l) && Is(s, t) && s.tasks[t].phase.HostWait? && WellFormed(s)
    ensures Unfinished(Do(s, l), t) && SameRequest(s.tasks[t], Do(s, l).tasks[t])
  {
    hide OrderOf, DoBegin, DoLand, DoFinish, DoCheckAgain, Ended, HostLocksStep, SourceLocksStep, PermitsStep, EnvironmentStep;
    StepHasEffect(s, l);
  }

  /** By the tasks' own steps it never gets any further. */
  lemma {:induction false} RepeatNeverLeaves(s: State, more: seq<Label>, t: nat)
    requires Consistent(s) && HeldOnce(s) && Unfinished(s, t) && !Distinct(LockOrder(s.tasks[t]))
    requires Runs(s, more) && forall i | 0 <= i < |more| :: OwnStep(more[i])
    ensures Consistent(After(s, more)) && HeldOnce(After(s, more))
    ensures Unfinished(After(s, more), t) && After(s, more).tasks[t].phase.HostWait?
    ensures SameRequest(s.tasks[t], After(s, more).tasks[t])
  {
    hide Do, Can, OrderOf, HeldOnce, Consistent, Distinct;
    if more == [] {
      NoStep(s);
      RepeatIsAtItsLocks(s, t);
    } else {
      var before, l := more[..|more| - 1], more[|more| - 1];
      RepeatNeverLeaves(s, before, t);
      var middle := After(s, before);
      ConsistentParts(middle);
      OwnStepsOfAWaiter(middle, l, t);
      ConsistentKept(middle, l);
      HeldOnceKept(middle, l);
      RepeatIsAtItsLocks(Do(middle, l), t);
    }
  }

  lemma {:induction false} ConsistentParts(s: State)
    requires Consistent(s)
    ensures WellFormed(s)
  {
  }

  /** The tasks' own steps come to an end. */
  lemma {:induction false} RunsUntilStuck(s: State) returns (more: seq<Label>)
    requires Consistent(s)
    ensures Runs(s, more) && Stuck(After(s, more))
    ensures forall i | 0 <= i < |more| :: OwnStep(more[i])
    decreases Work(s)
  {
    hide Do, Can, Consistent;
    more := [];
    if l :| OwnStep(l) && Can(s, l) {
      ConsistentParts(s);
      WorkShrinks(s, l);
      ConsistentKept(s, l);
      var rest := RunsUntilStuck(Do(s, l));
      StepFirst(s, l, rest);
      more := [l] + rest;
    } else {
      NoStep(s);
    }
  }

  /** Why a host must not be stale twice in one request: from any reachable state,
      such a request stays at its locks whatever steps the tasks take, and they come
      to a state in which it waits for itself and nothing moves. The locks are taken
      one entry at a time, without dropping repeats. */
  lemma {:induction false} HostNamedTwiceBlocksItself(s: State, ls: seq<Label>, l: Label)
    requires Initial(s) && Runs(s, ls) && l.StartRefresh? && Can(After(s, ls), l)
    requires !Distinct(FoundStale(After(s, ls), l))
    ensures var asked := Do(After(s, ls), l);
            var t := |After(s, ls).tasks|;
            && (forall more | Runs(asked, more) && (forall i | 0 <= i < |more| :: OwnStep(more[i])) ::
                  Unfinished(After(asked, more), t) && After(asked, more).tasks[t].phase.HostWait?)
            && exists more :: && Runs(asked, more) && (forall i | 0 <= i < |more| :: OwnStep(more[i]))
                              && Stuck(After(asked, more)) && Unfinished(After(asked, more), t)
  {
    hide Do, Can, Runs, After, Consistent, HeldOnce, Stuck, Distinct, FoundStale;
    var asked := Do(After(s, ls), l);
    var t := |After(s, ls).tasks|;
    ReachableConsistent(s, ls);
    ReachableHeldOnce(s, ls);
    ConsistentKept(After(s, ls), l);
    HeldOnceKept(After(s, ls), l);
    NewRefresh(After(s, ls), l);
    forall more | Runs(asked, more) && (forall i | 0 <= i < |more| :: OwnStep(more[i]))
      ensures Unfinished(After(asked, more), t) && After(asked, more).tasks[t].phase.HostWait?
    {
      RepeatNeverLeaves(asked, more, t);
    }
    var more := RunsUntilStuck(asked);
  }

  lemma {:induction false} NewRefresh(s: State, l: Label)
    requires l.StartRefresh? && Can(s, l) && !Distinct(FoundStale(s, l))
    ensures Unfinished(Do(s, l), |s.tasks|) && !Distinct(LockOrder(Do(s, l).tasks[|s.tasks|]))
  {
    hide Distinct;
    SortKeepsRepeats(FoundStale(s, l));
  }

  /** Every unfinished refresh has each host once in the list it found stale. */
  predicate ListsOnce(s: State) {
    forall t | 0 <= t < |s.tasks| && !s.tasks[t].phase.Finished? && s.tasks[t].kind.Refresh? ::
      Distinct(s.tasks[t].kind.stale)
  }

  ghost predicate CanFinish(s: State) {
    exists more :: && Runs(s, more) && AllFinished(After(s, more))
                   && forall i | 0 <= i < |more| :: OwnStep(more[i])
  }

  lemma {:induction false} OrderOfRepeats(task: Task)
    ensures Ascending(LockOrder(task)) <==> Distinct(LockOrder(task))
    ensures Distinct(LockOrder(task)) <==> (task.kind.Refresh? ==> Distinct(task.kind.stale))
  {
    if task.kind.Refresh? {
      SortKeepsRepeats(task.kind.stale);
      if Distinct(task.kind.stale) {
        SortDistinct(task.kind.stale);
      }
    }
    if Ascending(LockOrder(task)) {
      forall i, j | 0 <= i < j < |LockOrder(task)|
        ensures LockOrder(task)[i] != LockOrder(task)[j]
      {
        BeforeIrreflexive(LockOrder(task)[i]);
      }
    }
  }

  /** After any run at all: the tasks can all finish by their own steps if and only
      if no unfinished refresh has a host twice in its list. */
  lemma {:induction false} TasksCanFinishIffListedOnce(s: State, ls: seq<Label>)
    requires Initial(s) && Runs(s, ls)
    ensures CanFinish(After(s, ls)) <==> ListsOnce(After(s, ls))
  {
    hide Do, Can, Runs, After, Consistent, HeldOnce, Distinct, Ascending, OrderOf;
    var now := After(s, ls);
    ReachableConsistent(s, ls);
    ReachableHeldOnce(s, ls);
    forall t | 0 <= t < |now.tasks|
      ensures Ascending(LockOrder(now.tasks[t])) <==> Distinct(LockOrder(now.tasks[t]))
      ensures Distinct(LockOrder(now.tasks[t])) <==> (now.tasks[t].kind.Refresh? ==> Distinct(now.tasks[t].kind.stale))
    {
      OrderOfRepeats(now.tasks[t]);
    }
    if ListsOnce(now) {
      var more := TasksFinish(now);
      assert CanFinish(now);
    }
    if CanFinish(now) {
      var more :| && Runs(now, more) && AllFinished(After(now, more))
                  && forall i | 0 <= i < |more| :: OwnStep(more[i]);
      forall t | 0 <= t < |now.tasks| && !now.tasks[t].phase.Finished? && now.tasks[t].kind.Refresh?
        ensures Distinct(now.tasks[t].kind.stale)
      {
        if !Distinct(now.tasks[t].kind.stale) {
          RepeatNeverLeaves(now, more, t);
        }
      }
    }
  }
}
