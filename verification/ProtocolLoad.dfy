/** The load of on-demand reads is bounded by the TTL: two refreshes do not
    gather the same host within one TTL window, however many requests ask for it
    (src/application/refresh.rs:18-40, 203-240, 358-383). */
module ProtocolLoad {
  import opened Text
  import opened Json
  import opened Sources
  import opened Entries
  import opened SyncApply
  import opened Protocol
  import opened ProtocolLocks
  import opened ProtocolProgress

  /** A refresh wrote the host into the cache. */
  predicate Stores(e: Event, id: string, host: string) {
    e.Committed? && e.refresh && e.sourceId == id && host in e.stored
  }

  /** The host's record left the cache. */
  predicate Loses(e: Event, id: string, host: string) {
    (e.Committed? || e.Written?) && e.sourceId == id && host in e.lost
  }

  /** A refresh started to gather the host. */
  predicate Gathers(e: Event, id: string, host: string) {
    e.GatherStarted? && e.refresh && e.sourceId == id && host in e.asked
  }

  /** Written by a refresh at `i`, and there ever since. */
  predicate StoredSince(log: seq<Event>, i: nat, id: string, host: string) {
    i < |log| && Stores(log[i], id, host) && forall k | i < k < |log| :: !Loses(log[k], id, host)
  }

  // ----- invariants -----

  predicate CacheInThePast(s: State) {
    forall id | id in s.local && id in s.cache :: StampedBy(s.cache[id], s.now)
  }

  /** What a refresh wrote, and nothing removed, is stamped no earlier. */
  predicate StampKept(s: State, i: nat, id: string, host: string)
    requires i < |s.log| && s.log[i].Committed?
  {
    id in s.cache && host in s.cache[id].stamps && s.log[i].time <= s.cache[id].stamps[host]
  }

  ghost predicate StampsKept(s: State) {
    forall i: nat, id, host | id in s.local && StoredSince(s.log, i, id, host) :: StampKept(s, i, id, host)
  }

  /** Between the re-check and the gather. */
  predicate AboutToGather(task: Task) {
    task.kind.Refresh? && match task.phase
      case Checked => true
      case PermitWait(_) => true
      case Entering => true
      case CounterSeen => true
      case SourceWait(_) => true
      case Granted => true
      case _ => false
  }

  /** What the re-check found: every refreshed and kept host was a TTL old. */
  ghost predicate OldEnough(task: Task, log: seq<Event>) {
    forall i: nat, host | host in task.asked && StoredSince(log, i, task.sourceId, host) ::
      host in task.ttls && log[i].time + task.ttls[host] * TICKS <= task.checkedAt
  }

  predicate AsksForLocked(task: Task) {
    (AboutToGather(task) || (task.kind.Refresh? && task.phase.Gathering?)) ==>
      forall host | host in task.asked :: host in LockOrder(task)
  }

  ghost predicate TaskReady(s: State, task: Task) {
    && AsksForLocked(task)
    && (AboutToGather(task) ==> task.checkedAt <= s.now && (task.sourceId in s.local ==> OldEnough(task, s.log)))
  }

  ghost predicate TasksReady(s: State) {
    forall t | 0 <= t < |s.tasks| :: TaskReady(s, s.tasks[t])
  }

  /** A gather comes a TTL after any refresh whose work was still there. */
  predicate GatherSpaced(log: seq<Event>, i: nat, j: nat, id: string, host: string)
    requires i < j < |log| && log[i].Committed? && log[j].GatherStarted?
  {
    host in log[j].ttls && log[i].time + log[j].ttls[host] * TICKS <= log[j].time
  }

  ghost predicate GathersSpaced(s: State) {
    forall i: nat, j: nat, id, host | id in s.local && i < j < |s.log| && Gathers(s.log[j], id, host)
                            && StoredSince(s.log[..j], i, id, host) ::
      GatherSpaced(s.log, i, j, id, host)
  }

  ghost predicate LoadBounded(s: State) {
    CacheInThePast(s) && StampsKept(s) && TasksReady(s) && GathersSpaced(s)
  }

  // ----- appending to the log -----

  lemma StoredBefore(log: seq<Event>, e: Event, i: nat, id: string, host: string)
    requires i < |log|
    ensures StoredSince(log + [e], i, id, host) <==> StoredSince(log, i, id, host) && !Loses(e, id, host)
  {
    var log' := log + [e];
    if StoredSince(log, i, id, host) && !Loses(e, id, host) {
      assert forall k | i < k < |log'| :: log'[k] == if k < |log| then log[k] else e;
    }
    if StoredSince(log', i, id, host) {
      assert forall k | i < k < |log| :: log'[k] == log[k];
      assert log'[|log|] == e;
    }
  }

  lemma SpacedAppend(s: State, s': State, e: Event)
    requires GathersSpaced(s) && s'.local == s.local && s'.log == s.log + [e]
    requires forall i: nat, id, host | id in s.local && Gathers(e, id, host) && StoredSince(s.log, i, id, host) ::
               GatherSpaced(s'.log, i, |s.log|, id, host)
    ensures GathersSpaced(s')
  {
    forall i: nat, j: nat, id, host | id in s'.local && i < j < |s'.log| && Gathers(s'.log[j], id, host)
                            && StoredSince(s'.log[..j], i, id, host)
      ensures GatherSpaced(s'.log, i, j, id, host)
    {
      if j < |s.log| {
        assert s'.log[..j] == s.log[..j];
        assert GatherSpaced(s.log, i, j, id, host);
      } else {
        assert s'.log[..j] == s.log;
      }
    }
  }

  lemma OldEnoughAppend(task: Task, log: seq<Event>, e: Event)
    requires OldEnough(task, log)
    requires forall host | host in task.asked :: !Stores(e, task.sourceId, host)
    ensures OldEnough(task, log + [e])
  {
    forall i: nat, host | host in task.asked && StoredSince(log + [e], i, task.sourceId, host)
      ensures host in task.ttls && (log + [e])[i].time + task.ttls[host] * TICKS <= task.checkedAt
    {
      assert i < |log|;
      StoredBefore(log, e, i, task.sourceId, host);
    }
  }

  // ----- steps that neither check, gather nor write -----

  predicate Mild(e: Event) {
    !e.GatherStarted? && !e.Committed? && !e.Written?
  }

  predicate IdleStep(s: State, l: Label, s': State) {
    && s'.local == s.local && s.now <= s'.now && s'.cache == s.cache
    && (s'.log == s.log || (|s'.log| == |s.log| + 1 && s'.log == s.log + [s'.log[|s.log|]] && Mild(s'.log[|s.log|])))
    && match Actor(l)
       case Some(t) =>
         && Is(s, t) && Is(s', t)
         && s'.tasks[t].asked == s.tasks[t].asked && s'.tasks[t].ttls == s.tasks[t].ttls
         && s'.tasks[t].checkedAt == s.tasks[t].checkedAt
         && (AboutToGather(s'.tasks[t]) ==> AboutToGather(s.tasks[t]))
         && (s'.tasks[t].phase.Gathering? ==> s.tasks[t].phase.Gathering?)
       case None =>
         forall t | |s.tasks| <= t < |s'.tasks| :: !AboutToGather(s'.tasks[t]) && !s'.tasks[t].phase.Gathering?
  }

  lemma IdleKeepsReady(s: State, l: Label, s': State)
    requires TasksReady(s) && TasksStep(s, l, s') && IdleStep(s, l, s')
    ensures TasksReady(s')
  {
    forall t | 0 <= t < |s'.tasks|
      ensures TaskReady(s', s'.tasks[t])
    {
      if t < |s.tasks| {
        assert TaskReady(s, s.tasks[t]);
        assert Actor(l) != Some(t) ==> s'.tasks[t] == s.tasks[t];
        if AboutToGather(s'.tasks[t]) && s.tasks[t].sourceId in s.local && s'.log != s.log {
          OldEnoughAppend(s.tasks[t], s.log, s'.log[|s.log|]);
        }
      }
    }
  }

  lemma IdleKeepsLoad(s: State, l: Label, s': State)
    requires LoadBounded(s) && TasksStep(s, l, s') && IdleStep(s, l, s')
    ensures LoadBounded(s')
  {
    IdleKeepsReady(s, l, s');
    assert CacheInThePast(s');
    if s'.log != s.log {
      var e := s'.log[|s.log|];
      SpacedAppend(s, s', e);
      forall i: nat, id, host | id in s'.local && StoredSince(s'.log, i, id, host)
        ensures StampKept(s', i, id, host)
      {
        assert i < |s.log|;
        StoredBefore(s.log, e, i, id, host);
        assert StampKept(s, i, id, host);
      }
    } else {
      forall i: nat, id, host | id in s'.local && StoredSince(s'.log, i, id, host)
        ensures StampKept(s', i, id, host)
      {
        assert StampKept(s, i, id, host);
      }
    }
  }

  lemma RequestsAreIdle(s: State, l: Label)
    requires Can(s, l) && (l.Tick? || l.Resize? || l.StartRefresh? || l.StartSync?)
    ensures IdleStep(s, l, Do(s, l))
  {
  }

  lemma MovesAreIdle(s: State, l: Label)
    requires Can(s, l) && WellFormed(s) && (l.TakeHost? || l.Settle? || l.TakePermit? || l.Queue?)
    ensures IdleStep(s, l, Do(s, l))
  {
    hide OrderOf, Released;
  }

  lemma ReadsAreIdle(s: State, l: Label)
    requires Can(s, l) && (l.Enter? || l.TakeSource?)
    ensures IdleStep(s, l, Do(s, l))
  {
    hide OrderOf;
  }

  lemma FinishIsIdle(s: State, t: nat)
    requires Is(s, t) && s.tasks[t].phase.Landed?
    ensures IdleStep(s, Finish(t), DoFinish(s, t))
  {
    hide OrderOf;
  }

  lemma EndsAreIdle(s: State, l: Label, t: nat)
    requires Is(s, t) && Actor(l) == Some(t)
    ensures IdleStep(s, l, Ended(s, t))
    ensures IdleStep(s, l, Moved(WithoutSource(s, t), t, Unwinding(true)))
  {
    hide OrderOf, Released;
  }

  lemma EndsDo(s: State, l: Label)
    requires Can(s, l) && (l.Unwind? || l.TimeOut? || l.Cancel? || l.Finish?)
    ensures Is(s, l.t) && (l.Finish? ==> s.tasks[l.t].phase.Landed?)
    ensures Do(s, l) == if l.TimeOut? then Moved(WithoutSource(s, l.t), l.t, Unwinding(true))
                        else if l.Finish? then DoFinish(s, l.t) else Ended(s, l.t)
  {
    hide OrderOf, Ended, Moved, WithoutSource, DoFinish;
  }

  lemma FailureIsIdle(s: State, t: nat, delay: nat)
    requires Can(s, Land(t, None, delay))
    ensures IdleStep(s, Land(t, None, delay), DoLand(s, t, None, delay))
  {
    hide OrderOf;
  }

  lemma CoalescingIsIdle(s: State, t: nat)
    requires Is(s, t) && s.tasks[t].phase.Granted?
    requires Coalescable(s.tasks[t]) && Counter(s, s.tasks[t].sourceId) != s.tasks[t].countSeen
    ensures IdleStep(s, Begin(t), DoBegin(s, t))
  {
    hide OrderOf, Released;
  }

  // ----- the re-check -----

  /** A host found stale under the locks, which a refresh had written and nobody
      removed, is a TTL old. */
  lemma StaleIsOld(s: State, task: Task, still: seq<string>, host: string, i: nat)
    requires LoadBounded(s) && task.sourceId in s.local && task.kind.Refresh?
    requires still == StillStale(s, task) && host in still
    requires StoredSince(s.log, i, task.sourceId, host)
    ensures
      var ttls := TtlsOf(Cached(s.cache, task.sourceId), task.source, still, task.kind.fallback);
      host in ttls && s.log[i].time + ttls[host] * TICKS <= s.now
  {
    assert StampKept(s, i, task.sourceId, host);
    var e := s.cache[task.sourceId];
    assert StampedBy(e, s.now);
  }

  lemma CheckKeepsLoad(s: State, t: nat)
    requires Can(s, CheckAgain(t)) && LoadBounded(s)
    ensures LoadBounded(Do(s, CheckAgain(t)))
  {
    hide OrderOf, TtlsOf, StaleHosts, GathersSpaced, StampsKept, CacheInThePast, TaskReady, OldEnough;
    var task := s.tasks[t];
    var still := StillStale(s, task);
    var s' := DoCheckAgain(s, t, still);
    assert s'.log == s.log && s'.cache == s.cache && s'.now == s.now && s'.local == s.local;
    forall u | 0 <= u < |s'.tasks|
      ensures TaskReady(s', s'.tasks[u])
    {
      assert TaskReady(s, s.tasks[u]);
      if u == t {
        CheckedIsReady(s, t, still);
      } else {
        SameTaskReady(s, s', s.tasks[u]);
      }
    }
    SameLogKeeps(s, s');
  }

  lemma SameTaskReady(s: State, s': State, task: Task)
    requires TaskReady(s, task) && s'.log == s.log && s'.local == s.local && s'.now == s.now
    ensures TaskReady(s', task)
  {
    hide OldEnough, AsksForLocked;
  }

  lemma CheckedIsReady(s: State, t: nat, still: seq<string>)
    requires Is(s, t) && s.tasks[t].phase.Recheck? && s.tasks[t].kind.Refresh? && LoadBounded(s)
    requires still == StillStale(s, s.tasks[t])
    ensures TaskReady(DoCheckAgain(s, t, still), DoCheckAgain(s, t, still).tasks[t])
  {
    hide TtlsOf, StaleHosts, GathersSpaced, StampsKept, CacheInThePast;
    var task := s.tasks[t];
    var s' := DoCheckAgain(s, t, still);
    if still != [] && task.sourceId in s.local {
      forall i: nat, host | host in still && StoredSince(s.log, i, task.sourceId, host)
        ensures host in s'.tasks[t].ttls && s.log[i].time + s'.tasks[t].ttls[host] * TICKS <= s.now
      {
        StaleIsOld(s, task, still, host, i);
      }
    }
  }

  lemma SameLogKeeps(s: State, s': State)
    requires CacheInThePast(s) && StampsKept(s) && GathersSpaced(s)
    requires s'.log == s.log && s'.cache == s.cache && s'.local == s.local && s.now <= s'.now
    ensures CacheInThePast(s') && StampsKept(s') && GathersSpaced(s')
  {
    forall i: nat, id, host | id in s'.local && StoredSince(s'.log, i, id, host)
      ensures StampKept(s', i, id, host)
    {
      assert StampKept(s, i, id, host);
    }
  }

  // ----- the start of a gather -----

  lemma GatherKeepsLoad(s: State, t: nat)
    requires Can(s, Begin(t)) && WellFormed(s) && LoadBounded(s)
    requires !Coalescable(s.tasks[t]) || Counter(s, s.tasks[t].sourceId) == s.tasks[t].countSeen
    ensures LoadBounded(DoBegin(s, t))
  {
    var s' := DoBegin(s, t);
    var e := s'.log[|s.log|];
    assert s'.log == s.log + [e];
    forall i: nat, id, host | id in s.local && Gathers(e, id, host) && StoredSince(s.log, i, id, host)
      ensures GatherSpaced(s'.log, i, |s.log|, id, host)
    {
      assert TaskReady(s, s.tasks[t]) && AboutToGather(s.tasks[t]);
      assert s'.log[i] == s.log[i];
    }
    SpacedAppend(s, s', e);
    forall u | 0 <= u < |s'.tasks|
      ensures TaskReady(s', s'.tasks[u])
    {
      assert TaskReady(s, s.tasks[u]);
      if u != t && AboutToGather(s.tasks[u]) && s.tasks[u].sourceId in s.local {
        OldEnoughAppend(s.tasks[u], s.log, e);
      }
    }
    forall i: nat, id, host | id in s'.local && StoredSince(s'.log, i, id, host)
      ensures StampKept(s', i, id, host)
    {
      assert i < |s.log|;
      StoredBefore(s.log, e, i, id, host);
      assert StampKept(s, i, id, host);
    }
  }

  // ----- writing the cache -----

  /** The entry of one source changes: gathering times advance, what is lost is
      logged, and what the event stores is stamped with its time. */
  ghost predicate WriteStep(s: State, s': State, id: string, next: Option<Entry>, e: Event) {
    && s'.local == s.local && s.now <= s'.now
    && s'.cache == Stored(s.cache, id, next)
    && s'.log == s.log + [e] && !e.GatherStarted?
    && (id in s.local ==>
          && StampsAdvance(Cached(s.cache, id), next, s'.now)
          && (e.Committed? || e.Written?) && e.sourceId == id && e.lost == Lost(Cached(s.cache, id), next)
          && forall host | Stores(e, id, host) ::
               next.Some? && host in next.value.stamps && e.time <= next.value.stamps[host])
    && forall other, host | Stores(e, other, host) :: other == id
  }

  lemma WriteKeepsCache(s: State, s': State, id: string, next: Option<Entry>, e: Event)
    requires LoadBounded(s) && WriteStep(s, s', id, next, e)
    ensures CacheInThePast(s') && StampsKept(s') && GathersSpaced(s')
  {
    SpacedAppend(s, s', e);
    forall i: nat, at, host | at in s'.local && StoredSince(s'.log, i, at, host)
      ensures StampKept(s', i, at, host)
    {
      if i < |s.log| {
        StoredBefore(s.log, e, i, at, host);
        assert StampKept(s, i, at, host);
      }
    }
  }

  lemma OtherWriterKeepsLoad(s: State, l: Label)
    requires Can(s, l) && l.Write? && LoadBounded(s)
    ensures LoadBounded(Do(s, l))
  {
    var s' := Do(s, l);
    var e := Written(l.sourceId, Lost(Cached(s.cache, l.sourceId), l.next));
    WriteKeepsCache(s, s', l.sourceId, l.next, e);
    forall u | 0 <= u < |s'.tasks|
      ensures TaskReady(s', s'.tasks[u])
    {
      assert TaskReady(s, s.tasks[u]);
      if AboutToGather(s.tasks[u]) && s.tasks[u].sourceId in s.local {
        OldEnoughAppend(s.tasks[u], s.log, e);
      }
    }
  }

  /** While a refresh stores a host, nobody else is about to gather it: both would
      hold its lock. */
  lemma AloneWithHost(s: State, t: nat, u: nat, host: string)
    requires HostLocksAgree(s) && TasksReady(s) && Is(s, t) && Is(s, u) && t != u
    requires s.tasks[t].kind.Refresh? && s.tasks[t].phase.Gathering? && host in s.tasks[t].asked
    requires AboutToGather(s.tasks[u]) && host in s.tasks[u].asked
    ensures s.tasks[u].sourceId != s.tasks[t].sourceId
  {
    assert TaskReady(s, s.tasks[t]) && TaskReady(s, s.tasks[u]);
    var i :| 0 <= i < |LockOrder(s.tasks[t])| && LockOrder(s.tasks[t])[i] == host;
    var j :| 0 <= j < |LockOrder(s.tasks[u])| && LockOrder(s.tasks[u])[j] == host;
    assert Got(s.tasks[t]) == |LockOrder(s.tasks[t])| && Got(s.tasks[u]) == |LockOrder(s.tasks[u])|;
    assert s.hostLocks[Key(s.tasks[t], i)] == t;
    assert s.hostLocks[Key(s.tasks[u], j)] == u;
  }

  lemma LandIsAWrite(s: State, t: nat, out: Output, delay: nat)
    requires Can(s, Land(t, Some(out), delay)) && LoadBounded(s)
    ensures
      var s' := DoLand(s, t, Some(out), delay);
      var task := s.tasks[t];
      var next := Apply(Cached(s.cache, task.sourceId), task.source, ScopeOf(task),
                        Delivered(ScopeOf(task), out), s.now, s.now + delay);
      |s'.log| == |s.log| + 1 && WriteStep(s, s', task.sourceId, next, s'.log[|s.log|])
  {
    hide SyncApply.Apply;
    var task := s.tasks[t];
    var prev := Cached(s.cache, task.sourceId);
    if task.sourceId in s.local {
      if prev.Some? {
        assert StampedBy(prev.value, s.now);
      }
      LocalSyncAdvances(prev, task.source, ScopeOf(task), Delivered(ScopeOf(task), out), s.now, s.now + delay);
    }
  }

  lemma LandKeepsLoad(s: State, t: nat, out: Output, delay: nat)
    requires Can(s, Land(t, Some(out), delay)) && HostLocksAgree(s) && LoadBounded(s)
    ensures LoadBounded(DoLand(s, t, Some(out), delay))
  {
    hide SyncApply.Apply;
    var task := s.tasks[t];
    var s' := DoLand(s, t, Some(out), delay);
    var next := Apply(Cached(s.cache, task.sourceId), task.source, ScopeOf(task),
                      Delivered(ScopeOf(task), out), s.now, s.now + delay);
    var e := s'.log[|s.log|];
    LandIsAWrite(s, t, out, delay);
    WriteKeepsCache(s, s', task.sourceId, next, e);
    forall u | 0 <= u < |s'.tasks|
      ensures TaskReady(s', s'.tasks[u])
    {
      assert TaskReady(s, s.tasks[u]);
      if u != t && AboutToGather(s.tasks[u]) && s.tasks[u].sourceId in s.local {
        forall host | host in s.tasks[u].asked
          ensures !Stores(e, s.tasks[u].sourceId, host)
        {
          if Stores(e, s.tasks[u].sourceId, host) {
            AloneWithHost(s, t, u, host);
          }
        }
        OldEnoughAppend(s.tasks[u], s.log, e);
      }
    }
  }

  // ----- runs -----

  lemma MovesKeepLoad(s: State, l: Label)
    requires Can(s, l) && Consistent(s) && LoadBounded(s)
    requires !l.Write? && !l.CheckAgain? && !l.Land? && !l.Begin?
    ensures LoadBounded(Do(s, l))
  {
    hide Do, Can, IdleStep, LoadBounded, DoFinish, Ended, Moved, WithoutSource, HostLocksStep, SourceLocksStep, PermitsStep;
    StepHasEffect(s, l);
    if l.Tick? || l.Resize? || l.StartRefresh? || l.StartSync? {
      RequestsAreIdle(s, l);
    } else if l.Enter? || l.TakeSource? {
      ReadsAreIdle(s, l);
    } else if l.Finish? {
      EndsDo(s, l);
      FinishIsIdle(s, l.t);
    } else if l.Unwind? || l.TimeOut? || l.Cancel? {
      EndsDo(s, l);
      EndsAreIdle(s, l, l.t);
    } else {
      MovesAreIdle(s, l);
    }
    IdleKeepsLoad(s, l, Do(s, l));
  }

  lemma AnswersKeepLoad(s: State, t: nat, answer: Option<Output>, delay: nat)
    requires Can(s, Land(t, answer, delay)) && Consistent(s) && LoadBounded(s)
    ensures LoadBounded(Do(s, Land(t, answer, delay)))
  {
    hide SyncApply.Apply;
    if answer.Some? {
      LandKeepsLoad(s, t, answer.value, delay);
    } else {
      StepHasEffect(s, Land(t, None, delay));
      FailureIsIdle(s, t, delay);
      IdleKeepsLoad(s, Land(t, None, delay), DoLand(s, t, None, delay));
    }
  }

  lemma BeginKeepsLoad(s: State, t: nat)
    requires Can(s, Begin(t)) && Consistent(s) && LoadBounded(s)
    ensures LoadBounded(Do(s, Begin(t)))
  {
    if Coalescable(s.tasks[t]) && Counter(s, s.tasks[t].sourceId) != s.tasks[t].countSeen {
      StepHasEffect(s, Begin(t));
      CoalescingIsIdle(s, t);
      IdleKeepsLoad(s, Begin(t), DoBegin(s, t));
    } else {
      GatherKeepsLoad(s, t);
    }
  }

  lemma StepKeepsLoad(s: State, l: Label)
    requires Can(s, l) && Consistent(s) && LoadBounded(s)
    ensures LoadBounded(Do(s, l))
  {
    hide Protocol.Do, Protocol.Can;
    match l
    case Write(_, _) => OtherWriterKeepsLoad(s, l);
    case CheckAgain(t) => CheckKeepsLoad(s, t);
    case Land(t, answer, delay) => AnswersKeepLoad(s, t, answer, delay);
    case Begin(t) => BeginKeepsLoad(s, t);
    case _ => MovesKeepLoad(s, l);
  }

  lemma TaskStepsKeepLocal(s: State, t: nat)
    requires Is(s, t)
    ensures Ended(s, t).local == s.local && WithoutSource(s, t).local == s.local
    ensures s.tasks[t].phase.Granted? ==> DoBegin(s, t).local == s.local
    ensures s.tasks[t].phase.Landed? ==> DoFinish(s, t).local == s.local
  {
    hide OrderOf, Released;
  }

  lemma GatheringKeepsLocal(s: State, t: nat, still: seq<string>, answer: Option<Output>, delay: nat)
    requires Is(s, t)
    ensures s.tasks[t].kind.Refresh? ==> DoCheckAgain(s, t, still).local == s.local
    ensures s.tasks[t].phase.Gathering? ==> DoLand(s, t, answer, delay).local == s.local
  {
    hide OrderOf, TtlsOf, Apply, Delivered, Lost, Stored;
  }

  lemma StepKeepsLocal(s: State, l: Label)
    requires Can(s, l)
    ensures Do(s, l).local == s.local
  {
    hide OrderOf, StaleHosts, Ended, WithoutSource, DoBegin, DoFinish, DoCheckAgain, DoLand;
    if Actor(l).Some? && Is(s, l.t) {
      TaskStepsKeepLocal(s, l.t);
      GatheringKeepsLocal(s, l.t, if l.CheckAgain? then StillStale(s, s.tasks[l.t]) else [],
                          if l.Land? then l.answer else None, if l.Land? then l.delay else 0);
    }
  }

  lemma {:induction false} ReachableLoadBounded(s: State, ls: seq<Label>)
    requires Initial(s) && Runs(s, ls)
    ensures LoadBounded(After(s, ls)) && After(s, ls).local == s.local
  {
    hide Protocol.Do, Protocol.Can;
    if ls == [] {
      NoStep(s);
    } else {
      var before := ls[..|ls| - 1];
      ReachableLoadBounded(s, before);
      ReachableConsistent(s, before);
      StepKeepsLoad(After(s, before), ls[|ls| - 1]);
      StepKeepsLocal(After(s, before), ls[|ls| - 1]);
    }
  }

  /** The bound on the load of reads. On a source that gathers for itself, take a
      host that a refresh wrote at `i` and a later gather of it by a refresh at
      `j`, with the host never removed in between. Then the gather starts at
      least one TTL after the write, the TTL being the one the second refresh
      applied; whatever requests, full syncs, other writers, timeouts and
      cancellations come in between. */
  lemma {:induction false} RefreshLoadIsBoundedByTtl(s: State, ls: seq<Label>, i: nat, j: nat, id: string, host: string)
    requires Initial(s) && Runs(s, ls) && id in s.local
    requires i < j < |After(s, ls).log|
    requires Stores(After(s, ls).log[i], id, host) && Gathers(After(s, ls).log[j], id, host)
    requires forall k | i < k < j :: !Loses(After(s, ls).log[k], id, host)
    ensures
      var log := After(s, ls).log;
      host in log[j].ttls && log[i].time + log[j].ttls[host] * TICKS <= log[j].time
  {
    hide Protocol.Do, Protocol.Can, Protocol.Runs, Protocol.After;
    ReachableLoadBounded(s, ls);
    var now := After(s, ls);
    assert StoredSince(now.log[..j], i, id, host);
    assert GatherSpaced(now.log, i, j, id, host);
  }
}
