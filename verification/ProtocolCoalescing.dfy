/** How fresh a coalesced answer is. The sync it stands on COMPLETED after the
    request read the counter. It need not have started after it, as a comment
    beside the code has it, nor even have written the cache after it: between the
    cache write and the counting a sync re-applies enrichment, and a request that
    reads the counter there is answered from data written before it. Both are
    settled exactly (src/application/sync.rs:165-169, 284, 320-323, 362-380,
    406-408). */
module ProtocolCoalescing {
  import opened Json
  import opened Datasets
  import opened Entries
  import opened SyncApply
  import opened Protocol
  import opened ProtocolLocks
  import opened ProtocolOrder
  import opened ProtocolProgress

  /** A plain full sync of the source has written the cache and is not counted. */
  predicate LandedUncounted(task: Task, id: string) {
    task.phase == Landed(true) && task.sourceId == id && Coalescable(task)
  }

  predicate NothingLanded(s: State, id: string) {
    forall u | 0 <= u < |s.tasks| :: !LandedUncounted(s.tasks[u], id)
  }

  /** Position `j` answers a request that read the counter at `r`. */
  predicate AnswersReadAt(log: seq<Event>, j: nat, t: nat, r: nat, id: string) {
    j < |log| && log[j].Coalesced? && log[j].task == t && log[j].sourceId == id && log[j].readAt == r
  }

  predicate PlainFullCommit(e: Event, id: string) {
    e.Committed? && e.sourceId == id && e.plainFull
  }

  /** Every coalesced answer to that reading has a plain full sync of the source
      written to the cache between the reading and the lock grant. */
  ghost predicate AnsweredFresh(log: seq<Event>, t: nat, r: nat, id: string) {
    forall j | 0 <= j < |log| && AnswersReadAt(log, j, t, r, id) ::
      exists c | r < c < log[j].grantedAt && c < |log| :: PlainFullCommit(log[c], id)
  }

  // ----- nothing landed at the reading: the write comes after it -----

  /** Whatever is landed or counted since position `r` was written since `r`. */
  predicate WrittenSince(s: State, r: nat, id: string) {
    && r <= |s.log|
    && (forall u | 0 <= u < |s.tasks| && LandedUncounted(s.tasks[u], id) :: r <= s.tasks[u].landedAt)
    && (forall k | r <= k < |s.log| && CountEvent(s.log[k], id) :: r <= s.log[k].landedAt)
  }

  lemma {:induction false} SilentKeepsWritten(s: State, l: Label, r: nat, id: string)
    requires Can(s, l) && Silent(l) && WellFormed(s) && WrittenSince(s, r, id)
    ensures WrittenSince(Do(s, l), r, id)
  {
    hide Do, Can, HostLocksStep, SourceLocksStep, PermitsStep, EnvironmentStep, TaskWellFormed, OrderOf;
    var s' := Do(s, l);
    StepHasEffect(s, l);
    SilentStepOf(s, l);
    forall u | 0 <= u < |s'.tasks| && LandedUncounted(s'.tasks[u], id)
      ensures r <= s'.tasks[u].landedAt
    {
      assert u < |s.tasks| && (Actor(l) != Some(u) ==> s'.tasks[u] == s.tasks[u]);
      assert LandedUncounted(s.tasks[u], id);
    }
  }

  lemma {:induction false} LandKeepsWritten(s: State, t: nat, answer: Option<Output>, delay: nat, r: nat, id: string)
    requires Can(s, Land(t, answer, delay)) && WrittenSince(s, r, id)
    ensures WrittenSince(DoLand(s, t, answer, delay), r, id)
  {
    hide SyncApply.Apply, Protocol.ScopeOf, Protocol.Delivered;
  }

  lemma {:induction false} BeginKeepsWritten(s: State, t: nat, r: nat, id: string)
    requires Is(s, t) && s.tasks[t].phase.Granted? && WrittenSince(s, r, id)
    ensures WrittenSince(DoBegin(s, t), r, id)
  {
    hide OrderOf, Released;
  }

  lemma {:induction false} FinishKeepsWritten(s: State, t: nat, r: nat, id: string)
    requires Can(s, Finish(t)) && WrittenSince(s, r, id)
    ensures WrittenSince(DoFinish(s, t), r, id)
  {
  }

  lemma {:induction false} OthersKeepWritten(s: State, l: Label, r: nat, id: string)
    requires Can(s, l) && (l.Write? || l.Enter? || l.TakeSource?) && WrittenSince(s, r, id)
    ensures WrittenSince(Do(s, l), r, id)
  {
    hide OrderOf, Released;
  }

  lemma {:induction false} StepKeepsWritten(s: State, l: Label, r: nat, id: string)
    requires Can(s, l) && WellFormed(s) && WrittenSince(s, r, id)
    ensures WrittenSince(Do(s, l), r, id)
  {
    hide WrittenSince, DoBegin, DoLand, DoFinish, DoCheckAgain, WellFormed, OrderOf;
    match l
    case Land(t, answer, delay) => LandKeepsWritten(s, t, answer, delay, r, id);
    case Begin(t) => BeginKeepsWritten(s, t, r, id);
    case Finish(t) => FinishKeepsWritten(s, t, r, id);
    case _ =>
      if Silent(l) {
        SilentKeepsWritten(s, l, r, id);
      } else {
        OthersKeepWritten(s, l, r, id);
      }
  }

  /** A state a run can reach. */
  ghost predicate Sound(s: State) {
    Consistent(s) && Traced(s)
  }

  lemma {:induction false} SoundKept(s: State, l: Label)
    requires Can(s, l) && Sound(s)
    ensures Sound(Do(s, l))
  {
    hide Protocol.Do, Protocol.Can;
    ConsistentKept(s, l);
    TraceKept(s, l);
  }

  lemma {:induction false} RunKeepsWritten(s: State, ls: seq<Label>, r: nat, id: string)
    requires Sound(s) && Runs(s, ls) && WrittenSince(s, r, id)
    ensures Sound(After(s, ls)) && WrittenSince(After(s, ls), r, id)
  {
    hide Protocol.Do, Protocol.Can;
    if ls == [] {
      NoStep(s);
    } else {
      var before := ls[..|ls| - 1];
      RunKeepsWritten(s, before, r, id);
      SoundKept(After(s, before), ls[|ls| - 1]);
      StepKeepsWritten(After(s, before), ls[|ls| - 1], r, id);
    }
  }

  lemma {:induction false} WrittenSinceIsFresh(s: State, t: nat, r: nat, id: string)
    requires Traced(s) && WrittenSince(s, r, id)
    ensures AnsweredFresh(s.log, t, r, id)
  {
    forall j | 0 <= j < |s.log| && AnswersReadAt(s.log, j, t, r, id)
      ensures exists c | r < c < s.log[j].grantedAt && c < |s.log| :: PlainFullCommit(s.log[c], id)
    {
      CoalescedAfterACount(s, j);
      var k :| r < k < s.log[j].grantedAt && CountsACommit(s.log, k, id);
      assert PlainFullCommit(s.log[s.log[k].landedAt], id);
    }
  }

  // ----- nothing under way at the reading: the gather starts after it -----

  /** A plain full sync of the source has begun to gather and is not counted. */
  predicate UnderWay(task: Task, id: string) {
    (task.phase.Gathering? || task.phase == Landed(true)) && task.sourceId == id && Coalescable(task)
  }

  predicate NothingUnderWay(s: State, id: string) {
    forall u | 0 <= u < |s.tasks| :: !UnderWay(s.tasks[u], id)
  }

  /** A plain full sync counted between the reading at `r` and the lock grant had
      started to gather after the reading. */
  predicate CountsALaterStart(log: seq<Event>, k: nat, r: nat, id: string) {
    CountsACommit(log, k, id) && r < log[log[k].landedAt].began
  }

  /** Every coalesced answer to that reading stands on a sync that started after it. */
  ghost predicate AnsweredByALaterStart(log: seq<Event>, t: nat, r: nat, id: string) {
    forall j | 0 <= j < |log| && AnswersReadAt(log, j, t, r, id) ::
      exists k | r < k < log[j].grantedAt && k < |log| :: CountsALaterStart(log, k, r, id)
  }

  /** The commit at that position, if there is one, ends a gather begun since `r`. */
  predicate BegunSince(log: seq<Event>, at: nat, r: nat) {
    at < |log| && log[at].Committed? && r <= log[at].began
  }

  /** Whatever is under way or counted since position `r` began since `r`. */
  predicate StartedSince(s: State, r: nat, id: string) {
    && r <= |s.log|
    && (forall u | 0 <= u < |s.tasks| && UnderWay(s.tasks[u], id) ::
          if s.tasks[u].phase.Gathering? then r <= s.tasks[u].gatherAt else BegunSince(s.log, s.tasks[u].landedAt, r))
    && (forall k | r <= k < |s.log| && CountEvent(s.log[k], id) :: BegunSince(s.log, s.log[k].landedAt, r))
  }

  lemma {:induction false} SilentKeepsStarted(s: State, l: Label, r: nat, id: string)
    requires Can(s, l) && Silent(l) && WellFormed(s) && StartedSince(s, r, id)
    ensures StartedSince(Do(s, l), r, id)
  {
    hide Do, Can, HostLocksStep, SourceLocksStep, PermitsStep, EnvironmentStep, TaskWellFormed, OrderOf;
    var s' := Do(s, l);
    StepHasEffect(s, l);
    SilentStepOf(s, l);
    forall u | 0 <= u < |s'.tasks| && UnderWay(s'.tasks[u], id)
      ensures if s'.tasks[u].phase.Gathering? then r <= s'.tasks[u].gatherAt else BegunSince(s'.log, s'.tasks[u].landedAt, r)
    {
      assert u < |s.tasks| && (Actor(l) != Some(u) ==> s'.tasks[u] == s.tasks[u]);
      assert UnderWay(s.tasks[u], id);
    }
  }

  /** One event, which counts nothing, by one task. */
  lemma {:induction false} EventKeepsStarted(s: State, s': State, t: nat, e: Event, r: nat, id: string)
    requires Is(s, t) && StartedSince(s, r, id)
    requires |s'.tasks| == |s.tasks| && forall u | 0 <= u < |s.tasks| && u != t :: s'.tasks[u] == s.tasks[u]
    requires s'.log == s.log + [e] && !e.Counted?
    requires UnderWay(s'.tasks[t], id) ==>
      if s'.tasks[t].phase.Gathering? then r <= s'.tasks[t].gatherAt else BegunSince(s'.log, s'.tasks[t].landedAt, r)
    ensures StartedSince(s', r, id)
  {
    forall k | r <= k < |s'.log| && CountEvent(s'.log[k], id)
      ensures BegunSince(s'.log, s'.log[k].landedAt, r)
    {
      assert k < |s.log| && BegunSince(s.log, s.log[k].landedAt, r);
    }
    forall u | 0 <= u < |s'.tasks| && u != t && UnderWay(s'.tasks[u], id)
      ensures if s'.tasks[u].phase.Gathering? then r <= s'.tasks[u].gatherAt else BegunSince(s'.log, s'.tasks[u].landedAt, r)
    {
      assert UnderWay(s.tasks[u], id);
    }
  }

  lemma {:induction false} LandKeepsStarted(s: State, t: nat, answer: Option<Output>, delay: nat, r: nat, id: string)
    requires Is(s, t) && s.tasks[t].phase.Gathering? && StartedSince(s, r, id)
    ensures StartedSince(DoLand(s, t, answer, delay), r, id)
  {
    hide Apply, ScopeOf, Delivered, Lost, Stored;
    var s' := DoLand(s, t, answer, delay);
    assert Coalescable(s.tasks[t]) && s.tasks[t].sourceId == id ==> UnderWay(s.tasks[t], id);
    if answer.Some? {
      EventKeepsStarted(s, s', t, s'.log[|s.log|], r, id);
    } else {
      assert forall u | 0 <= u < |s.tasks| && UnderWay(s'.tasks[u], id) :: UnderWay(s.tasks[u], id);
    }
  }

  lemma {:induction false} BeginKeepsStarted(s: State, t: nat, r: nat, id: string)
    requires Is(s, t) && s.tasks[t].phase.Granted? && StartedSince(s, r, id)
    ensures StartedSince(DoBegin(s, t), r, id)
  {
    hide OrderOf, Released, StartedSince;
    StartedInLog(s, r, id);
    var s' := DoBegin(s, t);
    EventKeepsStarted(s, s', t, s'.log[|s.log|], r, id);
  }

  lemma {:induction false} StartedInLog(s: State, r: nat, id: string)
    requires StartedSince(s, r, id)
    ensures r <= |s.log|
  {
  }

  lemma {:induction false} FinishKeepsStarted(s: State, t: nat, r: nat, id: string)
    requires Is(s, t) && s.tasks[t].phase.Landed? && StartedSince(s, r, id)
    ensures StartedSince(DoFinish(s, t), r, id)
  {
    assert s.tasks[t].phase.ok && Coalescable(s.tasks[t]) && s.tasks[t].sourceId == id ==> UnderWay(s.tasks[t], id);
  }

  lemma {:induction false} OthersKeepStarted(s: State, l: Label, r: nat, id: string)
    requires Can(s, l) && (l.Write? || l.Enter? || l.TakeSource?) && StartedSince(s, r, id)
    ensures StartedSince(Do(s, l), r, id)
  {
    hide OrderOf, Released;
  }

  lemma {:induction false} StepKeepsStarted(s: State, l: Label, r: nat, id: string)
    requires Can(s, l) && WellFormed(s) && StartedSince(s, r, id)
    ensures StartedSince(Do(s, l), r, id)
  {
    hide StartedSince, DoBegin, DoLand, DoFinish, DoCheckAgain, WellFormed, OrderOf;
    match l
    case Land(t, answer, delay) => LandKeepsStarted(s, t, answer, delay, r, id);
    case Begin(t) => BeginKeepsStarted(s, t, r, id);
    case Finish(t) => FinishKeepsStarted(s, t, r, id);
    case _ =>
      if Silent(l) {
        SilentKeepsStarted(s, l, r, id);
      } else {
        OthersKeepStarted(s, l, r, id);
      }
  }

  lemma {:induction false} RunKeepsStarted(s: State, ls: seq<Label>, r: nat, id: string)
    requires Sound(s) && Runs(s, ls) && StartedSince(s, r, id)
    ensures Sound(After(s, ls)) && StartedSince(After(s, ls), r, id)
  {
    hide Do, Can, Sound, StartedSince;
    if ls == [] {
      NoStep(s);
    } else {
      var before := ls[..|ls| - 1];
      RunKeepsStarted(s, before, r, id);
      SoundKept(After(s, before), ls[|ls| - 1]);
      SoundIsWellFormed(After(s, before));
      StepKeepsStarted(After(s, before), ls[|ls| - 1], r, id);
    }
  }

  lemma {:induction false} SoundIsWellFormed(s: State)
    requires Sound(s)
    ensures WellFormed(s)
  {
  }

  lemma {:induction false} StartedSinceIsLater(s: State, t: nat, r: nat, id: string)
    requires Traced(s) && StartedSince(s, r, id)
    ensures AnsweredByALaterStart(s.log, t, r, id)
  {
    forall j | 0 <= j < |s.log| && AnswersReadAt(s.log, j, t, r, id)
      ensures exists k | r < k < s.log[j].grantedAt && k < |s.log| :: CountsALaterStart(s.log, k, r, id)
    {
      CoalescedAfterACount(s, j);
      var k :| r < k < s.log[j].grantedAt && CountsACommit(s.log, k, id);
      var c := s.log[k].landedAt;
      assert EventTrace(s.log, c);
      assert s.log[s.log[c].began].GatherStarted? && s.log[r].CounterRead?;
      assert CountsALaterStart(s.log, k, r, id);
    }
  }

  // ----- something landed or under way at the reading: an answer from before it -----

  /** `t` read the counter at `r` and queues for the source that `u` holds, landed
      and not counted. Nothing was counted since. */
  predicate Poised(s: State, log: seq<Event>, r: nat, t: nat, u: nat, id: string) {
    && Is(s, t) && Is(s, u) && t != u
    && WantsSource(s.tasks[t], id) && Coalescable(s.tasks[t])
    && s.tasks[t].readAt == r && s.tasks[t].countSeen == Counter(s, id)
    && LandedUncounted(s.tasks[u], id)
    && s.log == log
  }

  /** Nobody with an index below `n` queues before `t`. */
  predicate AloneInLine(s: State, n: nat, t: nat, id: string) {
    forall v | 0 <= v < n && v < |s.tasks| && v != t :: !WantsSource(s.tasks[v], id)
  }

  lemma {:induction false} CancelOneWaiter(s: State, log: seq<Event>, r: nat, t: nat, u: nat, id: string, v: nat)
    requires Poised(s, log, r, t, u, id) && AloneInLine(s, v, t, id)
    requires Is(s, v) && v != t && WantsSource(s.tasks[v], id)
    ensures Can(s, Cancel(v))
    ensures
      var s' := Do(s, Cancel(v));
      && Poised(s', log, r, t, u, id) && AloneInLine(s', v + 1, t, id)
      && |s'.tasks| == |s.tasks|
  {
    hide OrderOf, Released;
  }

  lemma {:induction false} CancelWaiters(s: State, log: seq<Event>, r: nat, t: nat, u: nat, id: string, n: nat)
    returns (ls: seq<Label>)
    requires Sound(s) && Poised(s, log, r, t, u, id) && n <= |s.tasks|
    ensures Runs(s, ls) && Sound(After(s, ls))
    ensures |After(s, ls).tasks| == |s.tasks|
    ensures Poised(After(s, ls), log, r, t, u, id) && AloneInLine(After(s, ls), n, t, id)
  {
    hide Do, Can, Poised, Sound;
    if n == 0 {
      ls := [];
      NoStep(s);
    } else {
      ls := CancelWaiters(s, log, r, t, u, id, n - 1);
      var s' := After(s, ls);
      var v := n - 1;
      if v != t && WantsSource(s'.tasks[v], id) {
        CancelOneWaiter(s', log, r, t, u, id, v);
        SoundKept(s', Cancel(v));
        OneMoreStep(s, ls, Cancel(v));
        ls := ls + [Cancel(v)];
      }
    }
  }

  lemma {:induction false} ReadAndQueue(s: State, t: nat, u: nat, id: string)
    requires Is(s, t) && s.tasks[t].phase.Entering? && Coalescable(s.tasks[t]) && s.tasks[t].sourceId == id
    requires Is(s, u) && LandedUncounted(s.tasks[u], id)
    ensures Can(s, Enter(t)) && Can(Do(s, Enter(t)), Queue(t))
    ensures Poised(Do(Do(s, Enter(t)), Queue(t)), s.log + [CounterRead(t, id)], |s.log|, t, u, id)
  {
  }

  /** The connector answers with nothing, and the sync commits. */
  function NoHosts(): Output {
    Output(Dataset(map[], map[], []), None, [])
  }

  lemma {:induction false} ReadLandAndQueue(s: State, t: nat, u: nat, id: string)
    requires Is(s, t) && s.tasks[t].phase.Entering? && Coalescable(s.tasks[t]) && s.tasks[t].sourceId == id
    requires Is(s, u) && UnderWay(s.tasks[u], id) && s.tasks[u].phase.Gathering?
    ensures Can(s, Enter(t))
    ensures var read := Do(s, Enter(t)); var l := Land(u, Some(NoHosts()), 0);
      && Can(read, l) && Can(Do(read, l), Queue(t))
      && var landed := Do(read, l);
      && landed.log == s.log + [CounterRead(t, id), landed.log[|s.log| + 1]]
      && landed.log[|s.log| + 1].Committed? && landed.log[|s.log| + 1].began == s.tasks[u].gatherAt
      && landed.tasks[u].landedAt == |s.log| + 1
      && Do(landed, Queue(t)).tasks[u] == landed.tasks[u]
      && Poised(Do(landed, Queue(t)), landed.log, |s.log|, t, u, id)
  {
    hide OrderOf, Apply, Delivered, Lost, Stored;
  }

  lemma {:induction false} CountAndRelease(s: State, log: seq<Event>, r: nat, t: nat, u: nat, id: string)
    requires Consistent(s) && Poised(s, log, r, t, u, id) && AloneInLine(s, |s.tasks|, t, id)
    ensures Can(s, Finish(u))
    ensures
      var s' := Do(s, Finish(u));
      && Can(s', TakeSource(t))
      && s'.tasks[t] == s.tasks[t] && Counter(s', id) == s.tasks[t].countSeen + 1
      && s'.log == log + [Counted(u, id, s.tasks[u].landedAt)]
  {
    var s' := Do(s, Finish(u));
    assert s'.log == s.log + [Counted(u, id, s.tasks[u].landedAt)];
    assert forall v | 0 <= v < |s'.tasks| && WantsSource(s'.tasks[v], id) :: v == t;
  }

  lemma {:induction false} GrantAndAnswer(s: State, t: nat, id: string)
    requires Can(s, TakeSource(t)) && s.tasks[t].sourceId == id && Coalescable(s.tasks[t])
    requires Counter(s, id) != s.tasks[t].countSeen
    ensures Can(Do(s, TakeSource(t)), Begin(t))
    ensures Do(Do(s, TakeSource(t)), Begin(t)).log
         == s.log + [LockGranted(t, id), Coalesced(t, id, s.tasks[t].readAt, |s.log|)]
  {
    var s1 := Do(s, TakeSource(t));
    assert Do(s1, Begin(t)).log == s1.log + [Coalesced(t, id, s.tasks[t].readAt, |s.log|)];
  }

  lemma {:induction false} CanEnter(s: State, t: nat)
    requires Is(s, t) && s.tasks[t].phase.Entering?
    ensures Can(s, Enter(t))
  {
  }

  lemma {:induction false} PoisedTasks(s: State, log: seq<Event>, r: nat, t: nat, u: nat, id: string)
    requires Poised(s, log, r, t, u, id)
    ensures Is(s, t) && Is(s, u)
  {
  }

  /** The request reads the counter, the sync that holds the source lands if it had
      not, and the request comes first in line. */
  lemma {:induction false} QueueAlone(s: State, t: nat, u: nat, id: string)
    returns (ls: seq<Label>, log: seq<Event>)
    requires Sound(s)
    requires Is(s, t) && s.tasks[t].phase.Entering? && Coalescable(s.tasks[t]) && s.tasks[t].sourceId == id
    requires Is(s, u) && UnderWay(s.tasks[u], id)
    ensures Runs(s, ls) && Sound(After(s, ls)) && Poised(After(s, ls), log, |s.log|, t, u, id)
    ensures AloneInLine(After(s, ls), |After(s, ls).tasks|, t, id)
    ensures s.log + [CounterRead(t, id)] <= log
    ensures if LandedUncounted(s.tasks[u], id) then log == s.log + [CounterRead(t, id)]
            else |log| == |s.log| + 2 && log[|s.log| + 1].Committed? && log[|s.log| + 1].began == s.tasks[u].gatherAt
  {
    hide Do, Can, Runs, After, Sound, Poised;
    assert Can(s, Enter(t)) by {
      CanEnter(s, t);
    }
    var read := Do(s, Enter(t));
    var first: seq<Label> := [];
    var before := read;
    if LandedUncounted(s.tasks[u], id) {
      ReadAndQueue(s, t, u, id);
      log := s.log + [CounterRead(t, id)];
      SoundKept(s, Enter(t));
      NoStep(read);
    } else {
      var l := Land(u, Some(NoHosts()), 0);
      ReadLandAndQueue(s, t, u, id);
      before := Do(read, l);
      log := before.log;
      SoundKept(s, Enter(t));
      SoundKept(read, l);
      first := [l];
      NoStep(before);
      StepFirst(read, l, []);
      assert [l] + [] == [l];
    }
    SoundKept(before, Queue(t));
    var queued := Do(before, Queue(t));
    var cancels := CancelWaiters(queued, log, |s.log|, t, u, id, |queued.tasks|);
    StepFirst(before, Queue(t), cancels);
    RunsTogether(read, first, [Queue(t)] + cancels);
    StepFirst(s, Enter(t), first + ([Queue(t)] + cancels));
    ls := [Enter(t)] + (first + ([Queue(t)] + cancels));
  }

  /** The sync that had landed is counted, the request is next and answers. */
  lemma {:induction false} CountThenAnswer(s: State, log: seq<Event>, r: nat, t: nat, u: nat, id: string)
    requires Consistent(s) && Poised(s, log, r, t, u, id) && AloneInLine(s, |s.tasks|, t, id)
    ensures Runs(s, [Finish(u), TakeSource(t), Begin(t)])
    ensures After(s, [Finish(u), TakeSource(t), Begin(t)]).log
         == log + [Counted(u, id, s.tasks[u].landedAt), LockGranted(t, id), Coalesced(t, id, r, |log| + 1)]
  {
    hide Do, Can, Runs, After, Consistent;
    CountAndRelease(s, log, r, t, u, id);
    var counted := Do(s, Finish(u));
    GrantAndAnswer(counted, t, id);
    var granted := Do(counted, TakeSource(t));
    var answered := Do(granted, Begin(t));
    NoStep(answered);
    StepFirst(granted, Begin(t), []);
    assert [Begin(t)] + [] == [Begin(t)];
    StepFirst(counted, TakeSource(t), [Begin(t)]);
    assert [TakeSource(t)] + [Begin(t)] == [TakeSource(t), Begin(t)];
    StepFirst(s, Finish(u), [TakeSource(t), Begin(t)]);
    assert [Finish(u)] + [TakeSource(t), Begin(t)] == [Finish(u), TakeSource(t), Begin(t)];
  }

  /** The run in which `u` is counted after the reading and `t` answers from it. */
  lemma {:induction false} AnsweredByTheOther(s: State, t: nat, u: nat, id: string)
    returns (ls: seq<Label>, log: seq<Event>, landedAt: nat)
    requires Sound(s)
    requires Is(s, t) && s.tasks[t].phase.Entering? && Coalescable(s.tasks[t]) && s.tasks[t].sourceId == id
    requires Is(s, u) && UnderWay(s.tasks[u], id)
    ensures Runs(s, ls) && Sound(After(s, ls))
    ensures s.log + [CounterRead(t, id)] <= log
    ensures After(s, ls).log == log + [Counted(u, id, landedAt), LockGranted(t, id), Coalesced(t, id, |s.log|, |log| + 1)]
    ensures if LandedUncounted(s.tasks[u], id) then log == s.log + [CounterRead(t, id)]
            else |log| == |s.log| + 2 && log[|s.log| + 1].Committed? && log[|s.log| + 1].began == s.tasks[u].gatherAt
  {
    hide Do, Can, Runs, After, Consistent, Traced, Poised;
    var queue;
    queue, log := QueueAlone(s, t, u, id);
    var alone := After(s, queue);
    CountThenAnswer(alone, log, |s.log|, t, u, id);
    PoisedTasks(alone, log, |s.log|, t, u, id);
    landedAt := alone.tasks[u].landedAt;
    var rest := [Finish(u), TakeSource(t), Begin(t)];
    RunsTogether(s, queue, rest);
    SoundAfter(alone, rest);
    ls := queue + rest;
  }

  lemma {:induction false} SoundAfter(s: State, ls: seq<Label>)
    requires Sound(s) && Runs(s, ls)
    ensures Sound(After(s, ls))
  {
    hide Do, Can, Sound;
    if ls == [] {
      NoStep(s);
    } else {
      SoundAfter(s, ls[..|ls| - 1]);
      SoundKept(After(s, ls[..|ls| - 1]), ls[|ls| - 1]);
    }
  }

  /** From such a state the request can be answered without any sync writing the
      cache after it read the counter. */
  lemma {:induction false} StaleAnswer(s: State, t: nat, u: nat, id: string) returns (ls: seq<Label>)
    requires Sound(s)
    requires Is(s, t) && s.tasks[t].phase.Entering? && Coalescable(s.tasks[t]) && s.tasks[t].sourceId == id
    requires Is(s, u) && LandedUncounted(s.tasks[u], id)
    ensures Runs(s, ls) && !AnsweredFresh(After(s, ls).log, t, |s.log|, id)
  {
    hide Do, Can, Runs, After, Consistent, Traced;
    var r := |s.log|;
    var before, landedAt;
    ls, before, landedAt := AnsweredByTheOther(s, t, u, id);
    var log := After(s, ls).log;
    assert AnswersReadAt(log, r + 3, t, r, id);
    assert forall c | r < c < r + 2 :: c == r + 1 && !PlainFullCommit(log[c], id);
  }

  /** From a state in which a plain full sync of the source is under way, the request
      can be answered from that sync, which started before it read the counter. */
  lemma {:induction false} AnswerStartedBefore(s: State, t: nat, u: nat, id: string) returns (ls: seq<Label>)
    requires Sound(s)
    requires Is(s, t) && s.tasks[t].phase.Entering? && Coalescable(s.tasks[t]) && s.tasks[t].sourceId == id
    requires Is(s, u) && UnderWay(s.tasks[u], id)
    ensures Runs(s, ls) && !AnsweredByALaterStart(After(s, ls).log, t, |s.log|, id)
  {
    hide Do, Can, Runs, After, Consistent;
    var r := |s.log|;
    var before, landedAt;
    ls, before, landedAt := AnsweredByTheOther(s, t, u, id);
    var log := After(s, ls).log;
    var n := |before|;
    assert AnswersReadAt(log, n + 2, t, r, id);
    forall k: nat | r < k < n + 1 && k < |log|
      ensures !CountsALaterStart(log, k, r, id)
    {
      if k < n {
        assert log[k] == before[k];
      } else {
        assert log[k] == Counted(u, id, landedAt);
        if CountsACommit(log, k, id) {
          EarlierStart(After(s, ls), landedAt, r);
        }
      }
    }
  }

  /** The only commit since `r` ends a gather that was under way at `r`. */
  lemma {:induction false} EarlierStart(s: State, c: nat, r: nat)
    requires Traced(s) && c < |s.log| && s.log[c].Committed?
    requires r < c ==> s.log[c].began <= r
    requires r < |s.log| && s.log[r].CounterRead?
    ensures s.log[c].began <= r
  {
    assert EventTrace(s.log, c);
  }

  /** Exactly when a coalesced answer is sure to be newer than the request: a
      plain full sync about to read its counter will only ever be answered from
      a cache write made after that reading if and only if, at the reading, no
      plain full sync of the source has landed without having been counted. */
  lemma {:induction false} CoalescedIsFreshIffNothingLanded(s: State, t: nat, id: string)
    requires Sound(s)
    requires Is(s, t) && s.tasks[t].phase.Entering? && Coalescable(s.tasks[t]) && s.tasks[t].sourceId == id
    ensures (forall ls | Runs(s, ls) :: AnsweredFresh(After(s, ls).log, t, |s.log|, id)) <==> NothingLanded(s, id)
  {
    hide Protocol.Do, Protocol.Can, Protocol.Runs, Protocol.After;
    if NothingLanded(s, id) {
      assert WrittenSince(s, |s.log|, id);
      forall ls | Runs(s, ls)
        ensures AnsweredFresh(After(s, ls).log, t, |s.log|, id)
      {
        RunKeepsWritten(s, ls, |s.log|, id);
        WrittenSinceIsFresh(After(s, ls), t, |s.log|, id);
      }
    } else {
      var u :| 0 <= u < |s.tasks| && LandedUncounted(s.tasks[u], id);
      var ls := StaleAnswer(s, t, u, id);
    }
  }

  /** And exactly when it is sure to stand on a sync that STARTED after the request
      read the counter: if and only if, at the reading, no plain full sync of the
      source is gathering, or has landed without having been counted. */
  lemma {:induction false} CoalescedStartedLaterIffNothingUnderWay(s: State, t: nat, id: string)
    requires Sound(s)
    requires Is(s, t) && s.tasks[t].phase.Entering? && Coalescable(s.tasks[t]) && s.tasks[t].sourceId == id
    ensures (forall ls | Runs(s, ls) :: AnsweredByALaterStart(After(s, ls).log, t, |s.log|, id)) <==> NothingUnderWay(s, id)
  {
    hide Do, Can, Runs, After, AnsweredByALaterStart;
    if NothingUnderWay(s, id) {
      assert StartedSince(s, |s.log|, id);
      forall ls | Runs(s, ls)
        ensures AnsweredByALaterStart(After(s, ls).log, t, |s.log|, id)
      {
        RunKeepsStarted(s, ls, |s.log|, id);
        StartedSinceIsLater(After(s, ls), t, |s.log|, id);
      }
    } else {
      var u :| 0 <= u < |s.tasks| && UnderWay(s.tasks[u], id);
      var ls := AnswerStartedBefore(s, t, u, id);
    }
  }

  /** The states the condition is about are the ones runs reach. */
  lemma {:induction false} ReachableSound(s: State, ls: seq<Label>)
    requires Initial(s) && Runs(s, ls)
    ensures Sound(After(s, ls))
  {
    ReachableConsistent(s, ls);
    ReachableTraced(s, ls);
  }
}
