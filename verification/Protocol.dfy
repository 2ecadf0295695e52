/** On-demand refreshes and syncs as one transition system: any number of tasks,
    per-host locks, the permit pool, one lock and one counter per source, the
    cache and a clock (src/application/refresh.rs:164-383,
    src/application/sync.rs:145-411).

    A label names one step of one task (or of the environment) and carries what
    the step cannot compute: a connector's answer, the time that passes, a
    request. Given its label a step is deterministic, so a run is a list of
    labels. A step is what happens between two await points or between two
    operations on shared state; a task may be dropped before any of its steps.

    A waiter holds a ticket, drawn when it queues; a free lock or permit goes to
    the waiter with the smallest one. */
module Protocol {
  import opened Text
  import opened Json
  import opened Datasets
  import opened Sources
  import opened Entries
  import opened SyncApply
  import opened Sums
  import opened Limiter

  datatype Kind =
    // A read that refreshes the hosts it found stale. `fallback` replaces the
    // entry's own TTL where no override applies.
    | Refresh(stale: seq<string>, fallback: Option<nat>)
    // A sync, asked for by hand or by the scheduler.
    | Plain(scope: Scope, refreshOrigin: bool)

  datatype Phase =
    | HostWait(got: nat, ticket: nat)
    | Recheck
    | Checked
    | PermitWait(ticket: nat)
    | Entering
    | CounterSeen
    | SourceWait(ticket: nat)
    | Granted
    | Gathering
    | Landed(ok: bool)
    | Unwinding(permit: bool)
    | Finished

  /** A task, and what the run remembers of it: the hosts still stale at the
      re-check, the TTLs and the time of that check, the counter it read, and
      where in the log it read it, got the source lock, began to gather and
      committed. */
  datatype Task = Task(
    sourceId: string,
    source: Source,
    kind: Kind,
    phase: Phase,
    asked: seq<string>,
    ttls: map<string, nat>,
    checkedAt: nat,
    countSeen: nat,
    readAt: nat,
    grantedAt: nat,
    gatherAt: nat,
    landedAt: nat)

  datatype Event =
    | CounterRead(task: nat, sourceId: string)
    | LockGranted(task: nat, sourceId: string)
    | Coalesced(task: nat, sourceId: string, readAt: nat, grantedAt: nat)
    | GatherStarted(task: nat, sourceId: string, time: nat, refresh: bool, asked: seq<string>, ttls: map<string, nat>)
    | Committed(task: nat, sourceId: string, time: nat, began: nat, refresh: bool, plainFull: bool,
                stored: set<string>, lost: set<string>)
    | Counted(task: nat, sourceId: string, landedAt: nat)
    | Written(sourceId: string, lost: set<string>)

  /** `local` are the sources that gather for themselves and report no ages. */
  datatype State = State(
    local: set<string>,
    now: nat,
    tickets: nat,
    limits: Limits,
    peak: nat,
    hostLocks: map<(string, string), nat>,
    sourceLocks: map<string, nat>,
    counters: map<string, nat>,
    tasks: seq<Task>,
    cache: map<string, Entry>,
    log: seq<Event>)

  datatype Label =
    | Tick(delay: nat)
    | Resize(maxConcurrent: nat)
    | Write(sourceId: string, next: Option<Entry>)
    | StartRefresh(sourceId: string, source: Source, hosts: seq<string>, fallback: Option<nat>)
    | StartSync(sourceId: string, source: Source, scope: Scope, refreshOrigin: bool)
    | TakeHost(t: nat)
    | CheckAgain(t: nat)
    | Settle(t: nat)
    | TakePermit(t: nat)
    | Enter(t: nat)
    | Queue(t: nat)
    | TakeSource(t: nat)
    | Begin(t: nat)
    | Land(t: nat, answer: Option<Output>, delay: nat)
    | Finish(t: nat)
    | Unwind(t: nat)
    | TimeOut(t: nat)
    | Cancel(t: nat)

  // ----- what a task holds -----

  function OrderOf(kind: Kind): seq<string> {
    if kind.Refresh? then Sort(kind.stale) else []
  }

  /** The hosts a task locks, in the order it locks them. */
  function LockOrder(task: Task): seq<string> {
    OrderOf(task.kind)
  }

  /** How many of its host locks a task holds: a prefix of them, in order. */
  function Got(task: Task): (n: nat)
    ensures n <= |LockOrder(task)|
  {
    match task.phase
    case HostWait(got, _) => Limiter.Min(got, |LockOrder(task)|)
    case Finished => 0
    case _ => |LockOrder(task)|
  }

  function Key(task: Task, i: nat): (string, string)
    requires i < |LockOrder(task)|
  {
    (task.sourceId, LockOrder(task)[i])
  }

  predicate InSync(phase: Phase) {
    phase.Entering? || phase.CounterSeen? || phase.SourceWait? || HoldsSource(phase)
  }

  predicate HoldsSource(phase: Phase) {
    phase.Granted? || phase.Gathering? || phase.Landed?
  }

  predicate HoldsPermit(task: Task) {
    task.kind.Refresh? && (InSync(task.phase) || task.phase == Unwinding(true))
  }

  /** Only a plain full sync can stand in for another. */
  predicate Coalescable(task: Task) {
    task.kind.Plain? && task.kind.scope.Full? && !task.kind.refreshOrigin
  }

  function ScopeOf(task: Task): Scope {
    match task.kind
    case Refresh(_, _) => Hosts(task.asked)
    case Plain(scope, _) => scope
  }

  // ----- reading the cache -----

  function Cached(cache: map<string, Entry>, sourceId: string): Option<Entry> {
    if sourceId in cache then Some(cache[sourceId]) else None
  }

  function Stored(cache: map<string, Entry>, sourceId: string, next: Option<Entry>): map<string, Entry> {
    if next.Some? then cache[sourceId := next.value] else cache - {sourceId}
  }

  ghost function TtlOf(e: Entry, source: Source, host: string, fallback: Option<nat>): nat {
    EffectiveTtl(source, e.dataset, host, if fallback.Some? then fallback.value else e.ttl / TICKS)
  }

  /** The named hosts outside their TTL, or not in the cache at all
      (src/application/refresh.rs:358-383). */
  ghost function StaleHosts(entry: Option<Entry>, source: Source, hosts: seq<string>, fallback: Option<nat>,
                            now: nat): (r: seq<string>)
    ensures forall h :: h in r <==>
              h in hosts && (entry.None? || !IsHostFresh(entry.value, h, TtlOf(entry.value, source, h, fallback), now))
    ensures Distinct(hosts) ==> Distinct(r)
  {
    if entry.None? || hosts == [] then hosts
    else
      var n := |hosts| - 1;
      var earlier := StaleHosts(entry, source, hosts[..n], fallback, now);
      assert hosts == hosts[..n] + [hosts[n]];
      if IsHostFresh(entry.value, hosts[n], TtlOf(entry.value, source, hosts[n], fallback), now)
      then earlier else earlier + [hosts[n]]
  }

  ghost function TtlsOf(entry: Option<Entry>, source: Source, hosts: seq<string>, fallback: Option<nat>): map<string, nat> {
    if entry.None? then map[] else map h | h in hosts :: TtlOf(entry.value, source, h, fallback)
  }

  function Counter(s: State, sourceId: string): nat {
    if sourceId in s.counters then s.counters[sourceId] else 0
  }

  // ----- steps -----

  predicate Is(s: State, t: nat) {
    t < |s.tasks|
  }

  function Moved(s: State, t: nat, phase: Phase): State
    requires Is(s, t)
  {
    s.(tasks := s.tasks[t := s.tasks[t].(phase := phase)])
  }

  function Released(locks: map<(string, string), nat>, t: nat): map<(string, string), nat> {
    map k | k in locks && locks[k] != t :: locks[k]
  }

  /** The source lock back, if the task holds it. */
  function WithoutSource(s: State, t: nat): State
    requires Is(s, t)
  {
    if HoldsSource(s.tasks[t].phase) then s.(sourceLocks := s.sourceLocks - {s.tasks[t].sourceId}) else s
  }

  /** Everything a task holds given back. */
  function Ended(s: State, t: nat): State
    requires Is(s, t)
  {
    var freed := WithoutSource(s, t);
    Moved(freed.(hostLocks := Released(s.hostLocks, t),
                 limits := if HoldsPermit(s.tasks[t]) then s.limits.(free := s.limits.free + 1) else s.limits),
          t, Finished)
  }

  predicate WantsHost(task: Task, key: (string, string)) {
    task.phase.HostWait? && task.phase.got < |LockOrder(task)| && Key(task, task.phase.got) == key
  }

  predicate CanTakeHost(s: State, t: nat) {
    && Is(s, t) && s.tasks[t].phase.HostWait? && s.tasks[t].phase.got < |LockOrder(s.tasks[t])|
    && var key := Key(s.tasks[t], s.tasks[t].phase.got);
    && key !in s.hostLocks
    && forall u | 0 <= u < |s.tasks| && WantsHost(s.tasks[u], key) ::
         s.tasks[t].phase.ticket <= s.tasks[u].phase.ticket
  }

  predicate CanTakePermit(s: State, t: nat) {
    && Is(s, t) && s.tasks[t].phase.PermitWait? && s.limits.free > 0
    && forall u | 0 <= u < |s.tasks| && s.tasks[u].phase.PermitWait? ::
         s.tasks[t].phase.ticket <= s.tasks[u].phase.ticket
  }

  predicate WantsSource(task: Task, sourceId: string) {
    task.phase.SourceWait? && task.sourceId == sourceId
  }

  predicate CanTakeSource(s: State, t: nat) {
    && Is(s, t) && s.tasks[t].phase.SourceWait?
    && s.tasks[t].sourceId !in s.sourceLocks
    && forall u | 0 <= u < |s.tasks| && WantsSource(s.tasks[u], s.tasks[t].sourceId) ::
         s.tasks[t].phase.ticket <= s.tasks[u].phase.ticket
  }

  ghost predicate Can(s: State, l: Label) {
    match l
    case Tick(_) => true
    case Resize(_) => true
    // Every other writer of the cache: it may remove hosts, and on a local
    // source it does not turn a host's gathering time back.
    case Write(id, next) => id in s.local ==> StampsAdvance(Cached(s.cache, id), next, s.now)
    case StartRefresh(id, source, hosts, fallback) =>
      StaleHosts(Cached(s.cache, id), source, hosts, fallback, s.now) != []
    case StartSync(_, _, _, _) => true
    case TakeHost(t) => CanTakeHost(s, t)
    case CheckAgain(t) => Is(s, t) && s.tasks[t].phase.Recheck? && s.tasks[t].kind.Refresh?
    case Settle(t) => Is(s, t) && s.tasks[t].phase.Checked?
    case TakePermit(t) => CanTakePermit(s, t)
    case Enter(t) => Is(s, t) && s.tasks[t].phase.Entering?
    case Queue(t) => Is(s, t) && s.tasks[t].phase.CounterSeen?
    case TakeSource(t) => CanTakeSource(s, t)
    case Begin(t) => Is(s, t) && s.tasks[t].phase.Granted?
    case Land(t, answer, _) =>
      && Is(s, t) && s.tasks[t].phase.Gathering?
      && (answer.Some? && s.tasks[t].sourceId in s.local ==> answer.value.ages.None?)
    case Finish(t) => Is(s, t) && s.tasks[t].phase.Landed?
    case Unwind(t) => Is(s, t) && s.tasks[t].phase.Unwinding?
    case TimeOut(t) => Is(s, t) && s.tasks[t].kind.Refresh? && InSync(s.tasks[t].phase)
    case Cancel(t) => Is(s, t) && !s.tasks[t].phase.Finished?
  }

  function NewTask(sourceId: string, source: Source, kind: Kind, phase: Phase): Task {
    Task(sourceId, source, kind, phase, [], map[], 0, 0, 0, 0, 0, 0)
  }

  ghost function StillStale(s: State, task: Task): seq<string>
    requires task.kind.Refresh?
  {
    StaleHosts(Cached(s.cache, task.sourceId), task.source, task.kind.stale, task.kind.fallback, s.now)
  }

  /** Nothing left to do, or these hosts to gather. */
  ghost function DoCheckAgain(s: State, t: nat, still: seq<string>): State
    requires Is(s, t) && s.tasks[t].kind.Refresh?
  {
    var task := s.tasks[t];
    if still == [] then Moved(s, t, Unwinding(false))
    else
      s.(tasks := s.tasks[t := task.(phase := Checked, asked := still, checkedAt := s.now,
                                     ttls := TtlsOf(Cached(s.cache, task.sourceId), task.source, still,
                                                    task.kind.fallback))])
  }

  /** Under the source lock: a queued plain full sync that finds the counter
      moved answers from the cache, anything else gathers. */
  function DoBegin(s: State, t: nat): State
    requires Is(s, t) && s.tasks[t].phase.Granted?
  {
    var task := s.tasks[t];
    if Coalescable(task) && Counter(s, task.sourceId) != task.countSeen then
      var ended := Ended(s, t);
      ended.(log := s.log + [Coalesced(t, task.sourceId, task.readAt, task.grantedAt)])
    else
      s.(tasks := s.tasks[t := task.(phase := Gathering, gatherAt := |s.log|)],
         log := s.log + [GatherStarted(t, task.sourceId, s.now, task.kind.Refresh?, task.asked, task.ttls)])
  }

  /** The gathered dataset as it reaches the cache. */
  function Delivered(scope: Scope, out: Output): Output {
    if scope.Full? then out.(dataset := WithGroupMembers(out.dataset)) else out
  }

  function DoLand(s: State, t: nat, answer: Option<Output>, delay: nat): State
    requires Is(s, t) && s.tasks[t].phase.Gathering?
  {
    var task := s.tasks[t];
    match answer
    case None => Moved(s, t, Landed(false)).(now := s.now + delay)
    case Some(out) =>
      var prev := Cached(s.cache, task.sourceId);
      var next := Apply(prev, task.source, ScopeOf(task), Delivered(ScopeOf(task), out), s.now, s.now + delay);
      var stored := if task.kind.Refresh? then set h | h in task.asked && h in out.dataset.hostvars else {};
      s.(now := s.now + delay,
         cache := Stored(s.cache, task.sourceId, next),
         tasks := s.tasks[t := task.(phase := Landed(true), landedAt := |s.log|)],
         log := s.log + [Committed(t, task.sourceId, s.now + delay, task.gatherAt, task.kind.Refresh?,
                                   Coalescable(task), stored, Lost(prev, next))])
  }

  /** A sync's end. A plain full sync that succeeded is counted, still under the
      lock. */
  function DoFinish(s: State, t: nat): State
    requires Is(s, t) && s.tasks[t].phase.Landed?
  {
    var task := s.tasks[t];
    var freed := WithoutSource(s, t);
    var counted := if Coalescable(task) && task.phase.ok
      then freed.(counters := s.counters[task.sourceId := Counter(s, task.sourceId) + 1],
                  log := s.log + [Counted(t, task.sourceId, task.landedAt)])
      else freed;
    Moved(counted, t, if task.kind.Refresh? then Unwinding(true) else Finished)
  }

  ghost function Do(s: State, l: Label): State
    requires Can(s, l)
  {
    match l
    case Tick(delay) => s.(now := s.now + delay)
    case Resize(n) => s.(limits := Resized(s.limits, n), peak := Limiter.Max(s.peak, AtLeastOne(n)))
    case Write(id, next) =>
      s.(cache := Stored(s.cache, id, next), log := s.log + [Written(id, Lost(Cached(s.cache, id), next))])
    case StartRefresh(id, source, hosts, fallback) =>
      var stale := StaleHosts(Cached(s.cache, id), source, hosts, fallback, s.now);
      s.(tasks := s.tasks + [NewTask(id, source, Refresh(stale, fallback), HostWait(0, s.tickets))],
         tickets := s.tickets + 1)
    case StartSync(id, source, scope, refreshOrigin) =>
      s.(tasks := s.tasks + [NewTask(id, source, Plain(scope, refreshOrigin), Entering)])
    case TakeHost(t) =>
      var task := s.tasks[t];
      var got := task.phase.got + 1;
      Moved(s.(hostLocks := s.hostLocks[Key(task, task.phase.got) := t], tickets := s.tickets + 1), t,
            if got < |LockOrder(task)| then HostWait(got, s.tickets) else Recheck)
    case CheckAgain(t) => DoCheckAgain(s, t, StillStale(s, s.tasks[t]))
    case Settle(t) =>
      Moved(s.(limits := Settled(s.limits), tickets := s.tickets + 1), t, PermitWait(s.tickets))
    case TakePermit(t) => Moved(s.(limits := s.limits.(free := s.limits.free - 1)), t, Entering)
    case Enter(t) =>
      s.(tasks := s.tasks[t := s.tasks[t].(phase := CounterSeen, readAt := |s.log|,
                                          countSeen := Counter(s, s.tasks[t].sourceId))],
         log := s.log + [CounterRead(t, s.tasks[t].sourceId)])
    case Queue(t) => Moved(s.(tickets := s.tickets + 1), t, SourceWait(s.tickets))
    case TakeSource(t) =>
      s.(sourceLocks := s.sourceLocks[s.tasks[t].sourceId := t],
         tasks := s.tasks[t := s.tasks[t].(phase := Granted, grantedAt := |s.log|)],
         log := s.log + [LockGranted(t, s.tasks[t].sourceId)])
    case Begin(t) => DoBegin(s, t)
    case Land(t, answer, delay) => DoLand(s, t, answer, delay)
    case Finish(t) => DoFinish(s, t)
    case Unwind(t) => Ended(s, t)
    case TimeOut(t) => Moved(WithoutSource(s, t), t, Unwinding(true))
    case Cancel(t) => Ended(s, t)
  }

  // ----- runs -----

  predicate Initial(s: State) {
    && s.limits == FullPool(s.peak) && s.peak >= 1
    && s.tickets == 0 && s.hostLocks == map[] && s.sourceLocks == map[] && s.counters == map[]
    && s.tasks == [] && s.log == []
    // The cache may hold entries restored from disk.
    && forall id | id in s.cache :: StampedBy(s.cache[id], s.now)
  }

  /** The state a list of labels leads to; a label that cannot happen is skipped. */
  ghost function After(s: State, ls: seq<Label>): State {
    if ls == [] then s
    else
      var before := After(s, ls[..|ls| - 1]);
      var l := ls[|ls| - 1];
      if Can(before, l) then Do(before, l) else before
  }

  /** The labels form a run: each one can happen where it stands. */
  ghost predicate Runs(s: State, ls: seq<Label>) {
    ls != [] ==> Runs(s, ls[..|ls| - 1]) && Can(After(s, ls[..|ls| - 1]), ls[|ls| - 1])
  }

  lemma OneMoreStep(s: State, ls: seq<Label>, l: Label)
    requires Runs(s, ls) && Can(After(s, ls), l)
    ensures Runs(s, ls + [l]) && After(s, ls + [l]) == Do(After(s, ls), l)
  {
    assert (ls + [l])[..|ls|] == ls;
  }
}
