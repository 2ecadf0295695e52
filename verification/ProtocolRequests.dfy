/** Which requests may be answered from another sync, and which count: only plain
    full syncs that do not refresh their origin, told by what was asked for
    (src/application/sync.rs:277-311, 402-410). */
module ProtocolRequests {
  import opened Json
  import Datasets
  import opened SyncApply
  import opened Protocol
  import opened ProtocolLocks
  import opened ProtocolProgress

  /** A whole source, asked for by hand or by the scheduler, from the source itself. */
  predicate AskedForAll(task: Task) {
    task.kind == Plain(Full, false)
  }

  /** The event tells the truth about the request of its task. */
  predicate TellsOf(e: Event, tasks: seq<Task>) {
    match e
    case CounterRead(t, id) => t < |tasks| && tasks[t].sourceId == id
    case LockGranted(t, id) => t < |tasks| && tasks[t].sourceId == id
    case Coalesced(t, id, _, _) => t < |tasks| && tasks[t].sourceId == id && AskedForAll(tasks[t])
    case GatherStarted(t, id, _, refresh, _, _) =>
      t < |tasks| && tasks[t].sourceId == id && (refresh <==> tasks[t].kind.Refresh?)
    case Committed(t, id, _, _, refresh, plainFull, stored, _) =>
      && t < |tasks| && tasks[t].sourceId == id && (refresh <==> tasks[t].kind.Refresh?)
      && (plainFull <==> AskedForAll(tasks[t])) && (!refresh ==> stored == {})
    case Counted(t, id, _) => t < |tasks| && tasks[t].sourceId == id && AskedForAll(tasks[t])
    case Written(_, _) => true
  }

  predicate AllTellsOf(s: State) {
    forall j | 0 <= j < |s.log| :: TellsOf(s.log[j], s.tasks)
  }

  /** No request changes, and at most one event is added, a true one. */
  predicate TrueStep(s: State, s': State) {
    && |s.tasks| <= |s'.tasks| && (forall t | 0 <= t < |s.tasks| :: SameRequest(s.tasks[t], s'.tasks[t]))
    && (s'.log == s.log || (|s'.log| == |s.log| + 1 && s'.log[..|s.log|] == s.log && TellsOf(s'.log[|s.log|], s'.tasks)))
  }

  lemma {:induction false} TrueStepKeeps(s: State, s': State)
    requires AllTellsOf(s) && TrueStep(s, s')
    ensures AllTellsOf(s')
  {
    forall j | 0 <= j < |s'.log|
      ensures TellsOf(s'.log[j], s'.tasks)
    {
      if j < |s.log| {
        assert s'.log[j] == s.log[j];
      }
    }
  }

  lemma {:induction false} EnvironmentIsTrue(s: State, l: Label)
    requires Can(s, l) && Actor(l).None?
    ensures TrueStep(s, Do(s, l))
  {
    hide OrderOf, StaleHosts;
  }

  lemma {:induction false} WaitersAreTrue(s: State, l: Label)
    requires Can(s, l) && (l.TakeHost? || l.Settle? || l.TakePermit? || l.Enter? || l.Queue? || l.TakeSource?)
    ensures TrueStep(s, Do(s, l))
  {
    hide OrderOf;
  }

  lemma {:induction false} CheckIsTrue(s: State, t: nat, still: seq<string>)
    requires Is(s, t) && s.tasks[t].kind.Refresh?
    ensures TrueStep(s, DoCheckAgain(s, t, still))
  {
    hide OrderOf, TtlsOf;
  }

  lemma {:induction false} EndIsTrue(s: State, t: nat)
    requires Is(s, t)
    ensures TrueStep(s, Ended(s, t)) && TrueStep(s, Moved(WithoutSource(s, t), t, Unwinding(true)))
  {
    hide OrderOf, Released;
  }

  lemma {:induction false} BeginIsTrue(s: State, t: nat)
    requires Is(s, t) && s.tasks[t].phase.Granted?
    ensures TrueStep(s, DoBegin(s, t))
  {
    hide OrderOf, Released;
  }

  lemma {:induction false} LandIsTrue(s: State, t: nat, answer: Option<Output>, delay: nat)
    requires Is(s, t) && s.tasks[t].phase.Gathering?
    ensures TrueStep(s, DoLand(s, t, answer, delay))
  {
    hide OrderOf, Apply, Delivered, Lost, Stored;
  }

  lemma {:induction false} FinishIsTrue(s: State, t: nat)
    requires Is(s, t) && s.tasks[t].phase.Landed?
    ensures TrueStep(s, DoFinish(s, t))
  {
    hide OrderOf;
  }

  lemma {:induction false} StepIsTrue(s: State, l: Label)
    requires Can(s, l)
    ensures TrueStep(s, Do(s, l))
  {
    hide TrueStep, DoBegin, DoLand, DoFinish, DoCheckAgain, Ended, Moved, WithoutSource, OrderOf;
    match l
    case CheckAgain(t) => CheckIsTrue(s, t, StillStale(s, s.tasks[t]));
    case Begin(t) => BeginIsTrue(s, t);
    case Land(t, answer, delay) => LandIsTrue(s, t, answer, delay);
    case Finish(t) => FinishIsTrue(s, t);
    case Unwind(t) => EndIsTrue(s, t);
    case TimeOut(t) => EndIsTrue(s, t);
    case Cancel(t) => EndIsTrue(s, t);
    case _ =>
      if Actor(l).None? {
        EnvironmentIsTrue(s, l);
      } else {
        WaitersAreTrue(s, l);
      }
  }

  /** In every run: whoever is answered from another sync, and whatever counts for
      others, asked for the whole source, plainly; a cache write is marked as such a
      sync's exactly when it is one. */
  lemma {:induction false} LogTellsOfRequests(s: State, ls: seq<Label>)
    requires Initial(s) && Runs(s, ls)
    ensures AllTellsOf(After(s, ls))
  {
    hide Do, Can, TrueStep;
    if ls == [] {
      NoStep(s);
    } else {
      var before := After(s, ls[..|ls| - 1]);
      LogTellsOfRequests(s, ls[..|ls| - 1]);
      StepIsTrue(before, ls[|ls| - 1]);
      TrueStepKeeps(before, After(s, ls));
    }
  }

  /** Under the source lock a task is answered from the cache exactly when it asked for
      the whole source, plainly, and the counter moved since it read it; then it has
      finished, and the cache is as it was. Any other gathers. */
  lemma {:induction false} GrantedTaskCoalescesOrGathers(s: State, t: nat)
    requires Is(s, t) && s.tasks[t].phase.Granted?
    ensures Can(s, Begin(t))
    ensures var s' := Do(s, Begin(t));
            && |s'.log| == |s.log| + 1 && s'.cache == s.cache && s'.counters == s.counters
            && if AskedForAll(s.tasks[t]) && Counter(s, s.tasks[t].sourceId) != s.tasks[t].countSeen
               then s'.log[|s.log|].Coalesced? && s'.tasks[t].phase.Finished?
               else s'.log[|s.log|].GatherStarted? && s'.tasks[t].phase.Gathering?
  {
    hide OrderOf, Released;
  }

  /** A sync that ends moves its source's counter, by one, exactly when it asked for the
      whole source, plainly, and succeeded; no other source's counter moves. */
  lemma {:induction false} OnlyWholeSyncsCount(s: State, t: nat, id: string)
    requires Is(s, t) && s.tasks[t].phase.Landed?
    ensures Can(s, Finish(t))
    ensures Counter(Do(s, Finish(t)), id) == Counter(s, id) +
            if id == s.tasks[t].sourceId && AskedForAll(s.tasks[t]) && s.tasks[t].phase.ok then 1 else 0
  {
    hide OrderOf;
  }

  /** Nothing but the end of a sync moves a counter. */
  lemma {:induction false} NothingElseCounts(s: State, l: Label, id: string)
    requires Can(s, l) && !l.Finish?
    ensures Counter(Do(s, l), id) == Counter(s, id)
  {
    hide OrderOf, StaleHosts, TtlsOf, Apply, Delivered, Lost, Stored, Released;
  }

  /** What a sync writes is for what it asked for: a refresh for the hosts it found still
      stale, any other for what was requested. Only the dataset of a full sync lists the
      members of its groups as hosts. */
  lemma {:induction false} CommitAppliesTheRequest(s: State, t: nat, out: Output, delay: nat)
    requires Can(s, Land(t, Some(out), delay))
    ensures var task, s' := s.tasks[t], Do(s, Land(t, Some(out), delay));
            var scope := if task.kind.Refresh? then Hosts(task.asked) else task.kind.scope;
            var delivered := if scope.Full? then out.(dataset := Datasets.WithGroupMembers(out.dataset)) else out;
            && Cached(s'.cache, task.sourceId) ==
                 Apply(Cached(s.cache, task.sourceId), task.source, scope, delivered, s.now, s.now + delay)
            && s'.now == s.now + delay
            && forall other | other != task.sourceId :: Cached(s'.cache, other) == Cached(s.cache, other)
  {
    hide OrderOf, Apply, Lost;
  }

  /** Nothing but a sync that lands with an answer, or another writer, changes what the
      cache holds for a source. */
  lemma {:induction false} NothingElseWrites(s: State, l: Label, id: string)
    requires Can(s, l)
    requires l.Write? ==> l.sourceId != id
    requires l.Land? && l.answer.Some? ==> s.tasks[l.t].sourceId != id
    ensures Cached(Do(s, l).cache, id) == Cached(s.cache, id)
  {
    hide OrderOf, StaleHosts, TtlsOf, Apply, Delivered, Lost, Released;
  }
}
