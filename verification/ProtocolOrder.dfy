/** What the log of a run says about the syncs of one source: they never overlap,
    and what an answer marked "coalesced" stands on
    (src/application/sync.rs:145-169, 277-311, 402-410). */
module ProtocolOrder {
  import opened Json
  import opened Entries
  import opened SyncApply
  import opened Protocol
  import opened ProtocolLocks

  /** The start of a gather of that source, or the cache write that ends one. */
  predicate SyncEvent(e: Event, id: string) {
    (e.GatherStarted? || e.Committed?) && e.sourceId == id
  }

  predicate CountEvent(e: Event, id: string) {
    e.Counted? && e.sourceId == id
  }

  /** How many plain full syncs of the source were counted. */
  function CountIn(log: seq<Event>, id: string): nat {
    if log == [] then 0
    else CountIn(log[..|log| - 1], id) + if CountEvent(log[|log| - 1], id) then 1 else 0
  }

  /** No gather of the source starts or commits after position `i`. */
  predicate Calm(log: seq<Event>, i: nat, until: nat, id: string) {
    forall k | i < k < until && k < |log| :: !SyncEvent(log[k], id)
  }

  predicate Uncounted(log: seq<Event>, i: nat, id: string) {
    forall k | i < k < |log| :: !CountEvent(log[k], id)
  }

  // ----- invariants -----

  predicate AwaitsLock(phase: Phase) {
    phase.CounterSeen? || phase.SourceWait? || phase.Granted?
  }

  /** What a task remembers is in the log. */
  predicate TaskTrace(task: Task, t: nat, log: seq<Event>) {
    var id := task.sourceId;
    && (AwaitsLock(task.phase) ==>
          && task.readAt < |log| && log[task.readAt] == CounterRead(t, id)
          && task.countSeen == CountIn(log[..task.readAt], id))
    && (task.phase.Granted? ==>
          && task.readAt < task.grantedAt < |log| && log[task.grantedAt] == LockGranted(t, id)
          && Uncounted(log, task.grantedAt, id))
    && (task.phase.Gathering? ==>
          && task.gatherAt < |log| && log[task.gatherAt].GatherStarted?
          && log[task.gatherAt].task == t && log[task.gatherAt].sourceId == id
          && Calm(log, task.gatherAt, |log|, id))
    && (task.phase == Landed(true) ==>
          && task.landedAt < |log| && log[task.landedAt].Committed?
          && log[task.landedAt].task == t && log[task.landedAt].sourceId == id
          && log[task.landedAt].plainFull == Coalescable(task))
  }

  /** A commit ends the gather that its task began, with no other gather or
      commit of the source in between; what is counted is a plain full sync that
      committed; what coalesces read the counter, then got the lock, and a sync
      was counted in between. */
  ghost predicate EventTrace(log: seq<Event>, j: nat)
    requires j < |log|
  {
    match log[j]
    case Committed(t, id, _, began, _, _, _, _) =>
      && began < j && log[began].GatherStarted?
      && log[began].task == t && log[began].sourceId == id
      && Calm(log, began, j, id)
    case Counted(t, id, landedAt) =>
      && landedAt < j && log[landedAt].Committed?
      && log[landedAt].task == t && log[landedAt].sourceId == id && log[landedAt].plainFull
    case Coalesced(t, id, readAt, grantedAt) =>
      && readAt < grantedAt < j
      && log[readAt] == CounterRead(t, id) && log[grantedAt] == LockGranted(t, id)
      && exists k | readAt < k < grantedAt :: CountEvent(log[k], id)
    case _ => true
  }

  ghost predicate Traced(s: State) {
    && (forall t | 0 <= t < |s.tasks| :: TaskTrace(s.tasks[t], t, s.log))
    && (forall j | 0 <= j < |s.log| :: EventTrace(s.log, j))
    && (forall id :: Counter(s, id) == CountIn(s.log, id))
  }

  // ----- appending to the log -----

  lemma TaskTraceAppend(task: Task, t: nat, log: seq<Event>, e: Event)
    requires TaskTrace(task, t, log)
    requires task.phase.Gathering? ==> !SyncEvent(e, task.sourceId)
    requires task.phase.Granted? ==> !CountEvent(e, task.sourceId)
    ensures TaskTrace(task, t, log + [e])
  {
    if AwaitsLock(task.phase) {
      assert (log + [e])[..task.readAt] == log[..task.readAt];
    }
  }

  lemma EventTraceAppend(log: seq<Event>, e: Event, j: nat)
    requires j < |log| && EventTrace(log, j)
    ensures EventTrace(log + [e], j)
  {
    if log[j].Coalesced? {
      var k :| log[j].readAt < k < log[j].grantedAt && CountEvent(log[k], log[j].sourceId);
      assert CountEvent((log + [e])[k], log[j].sourceId);
    }
  }

  lemma CountAppend(log: seq<Event>, e: Event, id: string)
    ensures CountIn(log + [e], id) == CountIn(log, id) + if CountEvent(e, id) then 1 else 0
  {
    assert (log + [e])[..|log|] == log;
  }

  /** Where a count grew, something was counted. */
  lemma {:induction false} CountGrew(log: seq<Event>, i: nat, j: nat, id: string)
    requires i <= j <= |log|
    ensures CountIn(log[..i], id) <= CountIn(log[..j], id)
    ensures CountIn(log[..i], id) != CountIn(log[..j], id) ==>
              exists k | i <= k < j :: CountEvent(log[k], id)
  {
    if i < j {
      assert log[..j][..j - 1] == log[..j - 1];
      CountGrew(log, i, j - 1, id);
    }
  }

  lemma {:induction false} CountSame(log: seq<Event>, i: nat, j: nat, id: string)
    requires i <= j <= |log|
    requires forall k | i <= k < j :: !CountEvent(log[k], id)
    ensures CountIn(log[..i], id) == CountIn(log[..j], id)
  {
    if i < j {
      assert log[..j][..j - 1] == log[..j - 1];
      CountSame(log, i, j - 1, id);
    }
  }

  // ----- steps that write no event -----

  predicate Silent(l: Label) {
    !l.Write? && !l.Enter? && !l.TakeSource? && !l.Begin? && !l.Land? && !l.Finish?
  }

  predicate SameMemory(a: Task, b: Task) {
    && a.readAt == b.readAt && a.countSeen == b.countSeen
    && a.grantedAt == b.grantedAt && a.gatherAt == b.gatherAt && a.landedAt == b.landedAt
  }

  /** The task enters none of the phases its trace speaks about. */
  predicate NothingNew(a: Task, b: Task) {
    && (AwaitsLock(b.phase) ==> AwaitsLock(a.phase))
    && (b.phase.Granted? ==> a.phase.Granted?)
    && (b.phase.Gathering? ==> a.phase.Gathering?)
    && (b.phase.Landed? ==> a.phase == b.phase)
  }

  predicate SilentStep(s: State, l: Label, s': State) {
    && s'.log == s.log && s'.counters == s.counters
    && match Actor(l)
       case Some(t) =>
         && Is(s, t) && Is(s', t)
         && SameMemory(s.tasks[t], s'.tasks[t]) && NothingNew(s.tasks[t], s'.tasks[t])
       case None => forall t | |s.tasks| <= t < |s'.tasks| :: s'.tasks[t].phase.HostWait? || s'.tasks[t].phase.Entering?
  }

  lemma RequestsAreSilent(s: State, l: Label)
    requires Can(s, l) && Silent(l) && Actor(l).None?
    ensures SilentStep(s, l, Do(s, l))
  {
  }

  lemma MovesAreSilent(s: State, l: Label)
    requires Can(s, l) && (l.TakeHost? || l.Settle? || l.TakePermit? || l.Queue?)
    ensures SilentStep(s, l, Do(s, l))
  {
    hide OrderOf;
  }

  lemma EndsAreSilent(s: State, l: Label, t: nat)
    requires Is(s, t) && Actor(l) == Some(t)
    ensures SilentStep(s, l, Ended(s, t))
    ensures SilentStep(s, l, Moved(WithoutSource(s, t), t, Unwinding(true)))
  {
    hide Released;
  }

  lemma CheckIsSilent(s: State, t: nat, still: seq<string>)
    requires Is(s, t) && s.tasks[t].phase.Recheck? && s.tasks[t].kind.Refresh?
    ensures SilentStep(s, CheckAgain(t), DoCheckAgain(s, t, still))
  {
    hide OrderOf;
  }

  lemma SilentKeepsTrace(s: State, l: Label, s': State)
    requires Traced(s) && TasksStep(s, l, s') && SilentStep(s, l, s')
    ensures Traced(s')
  {
    forall t | 0 <= t < |s'.tasks|
      ensures TaskTrace(s'.tasks[t], t, s'.log)
    {
      if t < |s.tasks| {
        assert TaskTrace(s.tasks[t], t, s.log);
        assert Actor(l) != Some(t) ==> s'.tasks[t] == s.tasks[t];
      }
    }
    forall id
      ensures Counter(s', id) == CountIn(s'.log, id)
    {
      assert Counter(s', id) == Counter(s, id);
    }
  }

  lemma SilentStepOf(s: State, l: Label)
    requires Can(s, l) && Silent(l)
    ensures SilentStep(s, l, Do(s, l))
  {
    hide SilentStep, DoCheckAgain, Ended, Moved, WithoutSource;
    if l.CheckAgain? {
      CheckIsSilent(s, l.t, StillStale(s, s.tasks[l.t]));
    } else if Actor(l).None? {
      RequestsAreSilent(s, l);
    } else if l.TakeHost? || l.Settle? || l.TakePermit? || l.Queue? {
      MovesAreSilent(s, l);
    } else {
      EndsAreSilent(s, l, l.t);
    }
  }

  lemma SilentStepsKeepTrace(s: State, l: Label)
    requires Can(s, l) && Silent(l) && WellFormed(s) && Traced(s)
    ensures Traced(Do(s, l))
  {
    hide Protocol.Do, Protocol.Can;
    StepHasEffect(s, l);
    SilentStepOf(s, l);
    SilentKeepsTrace(s, l, Do(s, l));
  }

  // ----- steps that write one event -----

  /** One event, by at most one task. NOBODY else relies on its absence. */
  lemma OneEventKeepsTrace(s: State, s': State, t: nat, e: Event)
    requires Traced(s) && s'.log == s.log + [e]
    requires |s'.tasks| == |s.tasks|
    requires forall u | 0 <= u < |s.tasks| && u != t :: s'.tasks[u] == s.tasks[u]
    requires t < |s.tasks| ==> TaskTrace(s'.tasks[t], t, s'.log)
    requires EventTrace(s'.log, |s.log|)
    requires forall id :: Counter(s', id) == Counter(s, id) + if CountEvent(e, id) then 1 else 0
    requires forall u | 0 <= u < |s.tasks| && u != t ::
               && (s.tasks[u].phase.Gathering? ==> !SyncEvent(e, s.tasks[u].sourceId))
               && (s.tasks[u].phase.Granted? ==> !CountEvent(e, s.tasks[u].sourceId))
    ensures Traced(s')
  {
    forall u | 0 <= u < |s'.tasks|
      ensures TaskTrace(s'.tasks[u], u, s'.log)
    {
      if u != t {
        TaskTraceAppend(s.tasks[u], u, s.log, e);
      }
    }
    forall j | 0 <= j < |s'.log|
      ensures EventTrace(s'.log, j)
    {
      if j < |s.log| {
        EventTraceAppend(s.log, e, j);
      }
    }
    forall id
      ensures Counter(s', id) == CountIn(s'.log, id)
    {
      CountAppend(s.log, e, id);
    }
  }

  lemma WriteKeepsTrace(s: State, l: Label)
    requires Can(s, l) && l.Write? && Traced(s)
    ensures Traced(Do(s, l))
  {
    var s' := Do(s, l);
    OneEventKeepsTrace(s, s', |s.tasks|, s'.log[|s.log|]);
  }

  lemma EnterKeepsTrace(s: State, t: nat)
    requires Can(s, Enter(t)) && Traced(s)
    ensures Traced(Do(s, Enter(t)))
  {
    var s' := Do(s, Enter(t));
    assert s'.log[..|s.log|] == s.log;
    OneEventKeepsTrace(s, s', t, CounterRead(t, s.tasks[t].sourceId));
  }

  lemma TakeSourceKeepsTrace(s: State, t: nat)
    requires Can(s, TakeSource(t)) && Traced(s)
    ensures Traced(Do(s, TakeSource(t)))
  {
    var s' := Do(s, TakeSource(t));
    TaskTraceAppend(s.tasks[t], t, s.log, LockGranted(t, s.tasks[t].sourceId));
    OneEventKeepsTrace(s, s', t, LockGranted(t, s.tasks[t].sourceId));
  }

  /** A source's lock has one holder, so nobody else is in its critical section. */
  lemma AloneInSource(s: State, t: nat)
    requires SourceLocksAgree(s) && Is(s, t) && HoldsSource(s.tasks[t].phase)
    ensures forall u | 0 <= u < |s.tasks| && u != t && HoldsSource(s.tasks[u].phase) ::
              s.tasks[u].sourceId != s.tasks[t].sourceId
  {
  }

  lemma CoalescedSawACount(s: State, t: nat)
    requires Traced(s) && Is(s, t) && s.tasks[t].phase.Granted?
    requires Counter(s, s.tasks[t].sourceId) != s.tasks[t].countSeen
    ensures exists k | s.tasks[t].readAt < k < s.tasks[t].grantedAt :: CountEvent(s.log[k], s.tasks[t].sourceId)
  {
    var task := s.tasks[t];
    assert TaskTrace(task, t, s.log);
    assert Counter(s, task.sourceId) == CountIn(s.log, task.sourceId);
    assert s.log[..|s.log|] == s.log;
    CountSame(s.log, task.grantedAt, |s.log|, task.sourceId);
    CountGrew(s.log, task.readAt, task.grantedAt, task.sourceId);
    var k :| task.readAt <= k < task.grantedAt && CountEvent(s.log[k], task.sourceId);
    assert k != task.readAt;
  }

  lemma CoalescingKeepsTrace(s: State, t: nat)
    requires Is(s, t) && s.tasks[t].phase.Granted? && SourceLocksAgree(s) && Traced(s)
    requires Coalescable(s.tasks[t]) && Counter(s, s.tasks[t].sourceId) != s.tasks[t].countSeen
    ensures Traced(DoBegin(s, t))
  {
    var task := s.tasks[t];
    var s' := DoBegin(s, t);
    CoalescedSawACount(s, t);
    var k :| task.readAt < k < task.grantedAt && CountEvent(s.log[k], task.sourceId);
    assert CountEvent(s'.log[k], task.sourceId);
    OneEventKeepsTrace(s, s', t, Coalesced(t, task.sourceId, task.readAt, task.grantedAt));
  }

  lemma GatheringKeepsTrace(s: State, t: nat)
    requires Is(s, t) && s.tasks[t].phase.Granted? && SourceLocksAgree(s) && Traced(s)
    requires !Coalescable(s.tasks[t]) || Counter(s, s.tasks[t].sourceId) == s.tasks[t].countSeen
    ensures Traced(DoBegin(s, t))
  {
    var s' := DoBegin(s, t);
    AloneInSource(s, t);
    OneEventKeepsTrace(s, s', t, s'.log[|s.log|]);
  }

  /** What a commit leaves in its task and in the log. */
  lemma CommitTraces(s: State, t: nat, e: Event, landed: Task)
    requires SourceLocksAgree(s) && Traced(s) && Is(s, t) && s.tasks[t].phase.Gathering?
    requires e.Committed? && e.task == t && e.sourceId == s.tasks[t].sourceId && e.began == s.tasks[t].gatherAt
    requires e.plainFull == Coalescable(landed)
    requires landed.sourceId == e.sourceId && landed.phase == Landed(true) && landed.landedAt == |s.log|
    ensures TaskTrace(landed, t, s.log + [e]) && EventTrace(s.log + [e], |s.log|)
  {
    assert TaskTrace(s.tasks[t], t, s.log);
  }

  lemma LandKeepsTrace(s: State, t: nat, answer: Option<Output>, delay: nat)
    requires Is(s, t) && s.tasks[t].phase.Gathering? && SourceLocksAgree(s) && Traced(s)
    ensures Traced(DoLand(s, t, answer, delay))
  {
    hide Apply, ScopeOf, Delivered, Lost, Stored;
    var s' := DoLand(s, t, answer, delay);
    if answer.Some? {
      CommitKeepsTrace(s, t, s', s'.log[|s.log|]);
    } else {
      QuietEndKeepsTrace(s, t, s');
    }
  }

  lemma CommitKeepsTrace(s: State, t: nat, s': State, e: Event)
    requires SourceLocksAgree(s) && Traced(s) && Is(s, t) && s.tasks[t].phase.Gathering?
    requires s'.log == s.log + [e] && s'.counters == s.counters && Is(s', t) && s'.tasks == s.tasks[t := s'.tasks[t]]
    requires e.Committed? && e.task == t && e.sourceId == s.tasks[t].sourceId && e.began == s.tasks[t].gatherAt
    requires e.plainFull == Coalescable(s'.tasks[t])
    requires s'.tasks[t].sourceId == e.sourceId && s'.tasks[t].phase == Landed(true) && s'.tasks[t].landedAt == |s.log|
    ensures Traced(s')
  {
    hide Traced, TaskTrace, EventTrace, SourceLocksAgree;
    CommitTraces(s, t, e, s'.tasks[t]);
    AloneInSource(s, t);
    OneEventKeepsTrace(s, s', t, e);
  }

  /** A task that leaves its critical section without an event. */
  lemma QuietEndKeepsTrace(s: State, t: nat, s': State)
    requires Traced(s) && Is(s, t) && Is(s', t)
    requires s'.log == s.log && s'.counters == s.counters && s'.tasks == s.tasks[t := s'.tasks[t]]
    requires !AwaitsLock(s'.tasks[t].phase) && !s'.tasks[t].phase.Gathering? && s'.tasks[t].phase != Landed(true)
    ensures Traced(s')
  {
    hide EventTrace;
    forall u | 0 <= u < |s'.tasks|
      ensures TaskTrace(s'.tasks[u], u, s'.log)
    {
      assert u != t ==> s'.tasks[u] == s.tasks[u];
    }
    assert forall id :: Counter(s', id) == Counter(s, id);
  }

  lemma FinishKeepsTrace(s: State, t: nat)
    requires Is(s, t) && s.tasks[t].phase.Landed? && SourceLocksAgree(s) && Traced(s)
    ensures Traced(DoFinish(s, t))
  {
    hide OrderOf;
    var s' := DoFinish(s, t);
    if Coalescable(s.tasks[t]) && s.tasks[t].phase.ok {
      CountKeepsTrace(s, t, s');
    } else {
      QuietEndKeepsTrace(s, t, s');
    }
  }

  lemma CountKeepsTrace(s: State, t: nat, s': State)
    requires SourceLocksAgree(s) && Traced(s) && Is(s, t) && s.tasks[t].phase == Landed(true) && Coalescable(s.tasks[t])
    requires Is(s', t) && s'.tasks == s.tasks[t := s'.tasks[t]] && (s'.tasks[t].phase.Finished? || s'.tasks[t].phase.Unwinding?)
    requires var id := s.tasks[t].sourceId;
             s'.log == s.log + [Counted(t, id, s.tasks[t].landedAt)] && s'.counters == s.counters[id := Counter(s, id) + 1]
    ensures Traced(s')
  {
    hide Traced;
    CountTraces(s, t);
    AloneInSource(s, t);
    OneEventKeepsTrace(s, s', t, Counted(t, s.tasks[t].sourceId, s.tasks[t].landedAt));
  }

  lemma CountTraces(s: State, t: nat)
    requires Traced(s) && Is(s, t) && s.tasks[t].phase == Landed(true) && Coalescable(s.tasks[t])
    ensures EventTrace(s.log + [Counted(t, s.tasks[t].sourceId, s.tasks[t].landedAt)], |s.log|)
  {
    assert TaskTrace(s.tasks[t], t, s.log);
  }

  lemma TraceKept(s: State, l: Label)
    requires Can(s, l) && WellFormed(s) && SourceLocksAgree(s) && Traced(s)
    ensures Traced(Do(s, l))
  {
    hide Traced, DoBegin, DoLand, DoFinish, DoCheckAgain, WellFormed, SourceLocksAgree, OrderOf;
    match l
    case Write(_, _) => WriteKeepsTrace(s, l);
    case Enter(t) => EnterKeepsTrace(s, t);
    case TakeSource(t) => TakeSourceKeepsTrace(s, t);
    case Begin(t) => BeginKeepsTrace(s, t);
    case Land(t, answer, delay) => LandKeepsTrace(s, t, answer, delay);
    case Finish(t) => FinishKeepsTrace(s, t);
    case _ => SilentStepsKeepTrace(s, l);
  }

  lemma BeginKeepsTrace(s: State, t: nat)
    requires Is(s, t) && s.tasks[t].phase.Granted? && SourceLocksAgree(s) && Traced(s)
    ensures Traced(DoBegin(s, t))
  {
    hide Traced, DoBegin, SourceLocksAgree;
    if Coalescable(s.tasks[t]) && Counter(s, s.tasks[t].sourceId) != s.tasks[t].countSeen {
      CoalescingKeepsTrace(s, t);
    } else {
      GatheringKeepsTrace(s, t);
    }
  }

  lemma {:induction false} ReachableTraced(s: State, ls: seq<Label>)
    requires Initial(s) && Runs(s, ls)
    ensures Traced(After(s, ls))
  {
    hide Protocol.Do, Protocol.Can;
    if ls == [] {
      InitialTraced(s);
    } else {
      var before := ls[..|ls| - 1];
      ReachableTraced(s, before);
      ReachableConsistent(s, before);
      TraceKept(After(s, before), ls[|ls| - 1]);
    }
  }

  lemma InitialTraced(s: State)
    requires Initial(s)
    ensures Traced(s) && After(s, []) == s
  {
  }

  // ----- results -----

  lemma CommitsInOrder(log: seq<Event>, i: nat, j: nat)
    requires i < j < |log| && EventTrace(log, i) && EventTrace(log, j)
    requires log[i].Committed? && log[j].Committed? && log[i].sourceId == log[j].sourceId
    ensures log[i].began < i < log[j].began < j
  {
    assert SyncEvent(log[i], log[i].sourceId);
  }

  /** Syncs of one source never overlap: of any two cache writes of a source by
      syncs, the gather behind the later one started after the earlier one was
      written. So the cache sees gathers in the order in which they started,
      whatever is cancelled, times out or fails in between. */
  lemma {:induction false} SyncsOfASourceNeverOverlap(s: State, ls: seq<Label>, i: nat, j: nat)
    requires Initial(s) && Runs(s, ls)
    requires i < j < |After(s, ls).log|
    requires After(s, ls).log[i].Committed? && After(s, ls).log[j].Committed?
    requires After(s, ls).log[i].sourceId == After(s, ls).log[j].sourceId
    ensures
      var log := After(s, ls).log;
      && log[i].began < i < log[j].began < j
      && log[log[i].began].GatherStarted? && log[log[i].began].task == log[i].task
      && log[log[j].began].GatherStarted? && log[log[j].began].task == log[j].task
  {
    hide Protocol.Do, Protocol.Can, Protocol.Runs, Protocol.After;
    ReachableTraced(s, ls);
    var log := After(s, ls).log;
    assert EventTrace(log, i) && EventTrace(log, j);
    CommitsInOrder(log, i, j);
  }

  /** A sync counted at `k` had committed, and was plain and full. */
  predicate CountsACommit(log: seq<Event>, k: nat, id: string) {
    && k < |log| && CountEvent(log[k], id) && log[k].landedAt < k
    && log[log[k].landedAt].Committed? && log[log[k].landedAt].plainFull
    && log[log[k].landedAt].sourceId == id && log[log[k].landedAt].task == log[k].task
  }

  lemma CoalescedAfterACount(s: State, j: nat)
    requires Traced(s) && j < |s.log| && s.log[j].Coalesced?
    ensures
      var id, r, g := s.log[j].sourceId, s.log[j].readAt, s.log[j].grantedAt;
      && r < g < j && s.log[r] == CounterRead(s.log[j].task, id) && s.log[g] == LockGranted(s.log[j].task, id)
      && exists k | r < k < g :: CountsACommit(s.log, k, id)
  {
    assert EventTrace(s.log, j);
    var k :| s.log[j].readAt < k < s.log[j].grantedAt && CountEvent(s.log[k], s.log[j].sourceId);
    assert EventTrace(s.log, k);
    assert CountsACommit(s.log, k, s.log[j].sourceId);
  }

  /** What an answer marked "coalesced" stands on: between the moment the request
      read the counter and the moment it got the source's lock, a plain full sync
      of that source, which had committed, was counted. Scoped syncs, refreshes,
      origin-refreshing syncs and failed ones are never counted. */
  lemma {:induction false} CoalescedStandsOnACompletedSync(s: State, ls: seq<Label>, j: nat)
    requires Initial(s) && Runs(s, ls)
    requires j < |After(s, ls).log| && After(s, ls).log[j].Coalesced?
    ensures
      var log := After(s, ls).log;
      var t, id, r, g := log[j].task, log[j].sourceId, log[j].readAt, log[j].grantedAt;
      && r < g < j && log[r] == CounterRead(t, id) && log[g] == LockGranted(t, id)
      && exists k | r < k < g :: CountsACommit(log, k, id)
  {
    hide Protocol.Do, Protocol.Can, Protocol.Runs, Protocol.After;
    ReachableTraced(s, ls);
    CoalescedAfterACount(After(s, ls), j);
  }
}
