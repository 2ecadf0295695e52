/** Staleness and the load of reads in terms of the configuration: a host's own TTL
    before all, then the strictest of its groups', then the default
    (src/application/refresh.rs:172-177, 203-240, 358-383,
    src/domain/source.rs:645-702). */
module ProtocolStaleness {
  import opened Text
  import opened Json
  import opened Datasets
  import opened Sources
  import opened Entries
  import opened SyncApply
  import opened Limiter
  import opened Protocol
  import opened ProtocolLocks
  import opened ProtocolProgress
  import opened ProtocolLoad

  /** A requested host of a cached source is stale exactly when it has no stamp, or one
      that is as old as the TTL the configuration puts on it; with a TTL of zero always. */
  lemma {:induction false} StaleByConfiguration(e: Entry, source: Source, hosts: seq<string>, fallback: Option<nat>, now: nat,
                                                host: string, ttl: nat)
    requires ConfiguredTtl(source, e.dataset, host, if fallback.Some? then fallback.value else e.ttl / TICKS, ttl)
    ensures host in StaleHosts(Some(e), source, hosts, fallback, now) <==>
            host in hosts && (host in e.stamps ==> e.stamps[host] + ttl * TICKS <= now || ttl == 0)
  {
    EffectiveIsConfigured(source, e.dataset, host, if fallback.Some? then fallback.value else e.ttl / TICKS, ttl);
  }

  lemma {:induction false} StaleCount(e: Entry, source: Source, hosts: seq<string>, fallback: Option<nat>, now: nat, host: string)
    ensures multiset(StaleHosts(Some(e), source, hosts, fallback, now))[host] ==
            if IsHostFresh(e, host, TtlOf(e, source, host, fallback), now) then 0 else multiset(hosts)[host]
  {
    hide TtlOf, IsHostFresh;
    if hosts != [] {
      var n := |hosts| - 1;
      StaleCount(e, source, hosts[..n], fallback, now, host);
      assert hosts == hosts[..n] + [hosts[n]];
    }
  }

  /** Of a source that is not cached every requested host is stale; of another, a stale
      host stands in the list as often as in the request. */
  lemma {:induction false} StaleAsRequested(entry: Option<Entry>, source: Source, hosts: seq<string>, fallback: Option<nat>,
                                            now: nat, host: string)
    ensures entry == None ==> StaleHosts(entry, source, hosts, fallback, now) == hosts
    ensures host in StaleHosts(entry, source, hosts, fallback, now) ==>
            multiset(StaleHosts(entry, source, hosts, fallback, now))[host] == multiset(hosts)[host]
  {
    hide TtlOf, IsHostFresh;
    if entry.Some? {
      StaleCount(entry.value, source, hosts, fallback, now, host);
    }
  }

  // ----- where a gather's TTLs come from -----

  /** In that state the task's re-check found these hosts stale, with these TTLs. */
  ghost predicate CheckedIn(c: State, t: nat, request: Task, asked: seq<string>, ttls: map<string, nat>) {
    && Is(c, t) && SameRequest(c.tasks[t], request) && request.kind.Refresh?
    && asked == StaleHosts(Cached(c.cache, request.sourceId), request.source, request.kind.stale, request.kind.fallback, c.now)
    && ttls == TtlsOf(Cached(c.cache, request.sourceId), request.source, asked, request.kind.fallback)
  }

  /** Some earlier re-check of the run is that one. */
  ghost predicate Checked(s: State, ls: seq<Label>, t: nat, request: Task, asked: seq<string>, ttls: map<string, nat>) {
    exists m | 0 <= m < |ls| && ls[m] == CheckAgain(t) :: CheckedIn(After(s, ls[..m]), t, request, asked, ttls)
  }

  ghost predicate GatherChecked(s: State, ls: seq<Label>, e: Event) {
    e.GatherStarted? && e.refresh ==>
      && Is(After(s, ls), e.task) && After(s, ls).tasks[e.task].sourceId == e.sourceId
      && Checked(s, ls, e.task, After(s, ls).tasks[e.task], e.asked, e.ttls)
  }

  ghost predicate AllChecked(s: State, ls: seq<Label>) {
    var now := After(s, ls);
    && (forall t | 0 <= t < |now.tasks| && AboutToGather(now.tasks[t]) ::
          Checked(s, ls, t, now.tasks[t], now.tasks[t].asked, now.tasks[t].ttls))
    && (forall j | 0 <= j < |now.log| :: GatherChecked(s, ls, now.log[j]))
  }

  lemma {:induction false} CheckedStays(s: State, ls: seq<Label>, l: Label, t: nat, request: Task, later: Task,
                                        asked: seq<string>, ttls: map<string, nat>)
    requires Checked(s, ls, t, request, asked, ttls) && SameRequest(request, later)
    ensures Checked(s, ls + [l], t, later, asked, ttls)
  {
    hide After;
    var m :| 0 <= m < |ls| && ls[m] == CheckAgain(t) && CheckedIn(After(s, ls[..m]), t, request, asked, ttls);
    assert (ls + [l])[..m] == ls[..m];
    assert CheckedIn(After(s, (ls + [l])[..m]), t, later, asked, ttls);
  }

  /** Nobody comes nearer to a gather, and none starts. */
  predicate KeepsBasis(s: State, s': State) {
    && |s.tasks| <= |s'.tasks| && (forall t | 0 <= t < |s.tasks| :: SameRequest(s.tasks[t], s'.tasks[t]))
    && (forall t | 0 <= t < |s'.tasks| && AboutToGather(s'.tasks[t]) ::
          t < |s.tasks| && AboutToGather(s.tasks[t])
          && s'.tasks[t].asked == s.tasks[t].asked && s'.tasks[t].ttls == s.tasks[t].ttls)
    && (s'.log == s.log || (|s'.log| == |s.log| + 1 && s'.log[..|s.log|] == s.log && !s'.log[|s.log|].GatherStarted?))
  }

  lemma {:induction false} EnvironmentKeepsBasis(s: State, l: Label)
    requires Can(s, l) && Actor(l).None?
    ensures KeepsBasis(s, Do(s, l))
  {
    hide OrderOf, StaleHosts;
  }

  lemma {:induction false} WaitersKeepBasis(s: State, l: Label)
    requires Can(s, l) && WellFormed(s)
    requires l.TakeHost? || l.Settle? || l.TakePermit? || l.Enter? || l.Queue? || l.TakeSource?
    ensures KeepsBasis(s, Do(s, l))
  {
    hide OrderOf;
  }

  lemma {:induction false} EndKeepsBasis(s: State, t: nat)
    requires Is(s, t)
    ensures KeepsBasis(s, Ended(s, t)) && KeepsBasis(s, Moved(WithoutSource(s, t), t, Unwinding(true)))
  {
    hide OrderOf, Released;
  }

  lemma {:induction false} LandKeepsBasis(s: State, t: nat, answer: Option<Output>, delay: nat)
    requires Is(s, t) && s.tasks[t].phase.Gathering?
    ensures KeepsBasis(s, DoLand(s, t, answer, delay))
  {
    hide OrderOf, Apply, Delivered, Lost, Stored;
  }

  lemma {:induction false} FinishKeepsBasis(s: State, t: nat)
    requires Is(s, t) && s.tasks[t].phase.Landed?
    ensures KeepsBasis(s, DoFinish(s, t))
  {
    hide OrderOf;
  }

  lemma {:induction false} StepKeepsBasis(s: State, l: Label)
    requires Can(s, l) && WellFormed(s) && !l.CheckAgain? && !l.Begin?
    ensures KeepsBasis(s, Do(s, l))
  {
    hide KeepsBasis, DoLand, DoFinish, Ended, Moved, WithoutSource, OrderOf, WellFormed;
    match l
    case Land(t, answer, delay) => LandKeepsBasis(s, t, answer, delay);
    case Finish(t) => FinishKeepsBasis(s, t);
    case Unwind(t) => EndKeepsBasis(s, t);
    case TimeOut(t) => EndKeepsBasis(s, t);
    case Cancel(t) => EndKeepsBasis(s, t);
    case _ =>
      if Actor(l).None? {
        EnvironmentKeepsBasis(s, l);
      } else {
        WaitersKeepBasis(s, l);
      }
  }

  lemma {:induction false} BasisKeepsChecked(s: State, ls: seq<Label>, l: Label)
    requires AllChecked(s, ls) && KeepsBasis(After(s, ls), After(s, ls + [l]))
    ensures AllChecked(s, ls + [l])
  {
    hide After, Checked;
    var was, now := After(s, ls), After(s, ls + [l]);
    forall t | 0 <= t < |now.tasks| && AboutToGather(now.tasks[t])
      ensures Checked(s, ls + [l], t, now.tasks[t], now.tasks[t].asked, now.tasks[t].ttls)
    {
      CheckedStays(s, ls, l, t, was.tasks[t], now.tasks[t], was.tasks[t].asked, was.tasks[t].ttls);
    }
    forall j | 0 <= j < |now.log|
      ensures GatherChecked(s, ls + [l], now.log[j])
    {
      if now.log[j].GatherStarted? && now.log[j].refresh {
        var e := now.log[j];
        assert e == was.log[j] && GatherChecked(s, ls, was.log[j]);
        CheckedStays(s, ls, l, e.task, was.tasks[e.task], now.tasks[e.task], e.asked, e.ttls);
      }
    }
  }

  /** One task, `t`, changes; the log as it was, or with one event of its gather. */
  lemma {:induction false} OneTaskKeepsChecked(s: State, ls: seq<Label>, l: Label, t: nat)
    requires AllChecked(s, ls)
    requires var was, now := After(s, ls), After(s, ls + [l]);
             && Is(was, t) && Is(now, t) && now.tasks == was.tasks[t := now.tasks[t]] && SameRequest(was.tasks[t], now.tasks[t])
             && (AboutToGather(now.tasks[t]) ==>
                   Checked(s, ls + [l], t, now.tasks[t], now.tasks[t].asked, now.tasks[t].ttls))
             && (now.log == was.log
                 || (|now.log| == |was.log| + 1 && now.log[..|was.log|] == was.log && GatherChecked(s, ls + [l], now.log[|was.log|])))
    ensures AllChecked(s, ls + [l])
  {
    hide After, Checked;
    var was, now := After(s, ls), After(s, ls + [l]);
    forall u | 0 <= u < |now.tasks| && AboutToGather(now.tasks[u])
      ensures Checked(s, ls + [l], u, now.tasks[u], now.tasks[u].asked, now.tasks[u].ttls)
    {
      if u != t {
        CheckedStays(s, ls, l, u, was.tasks[u], now.tasks[u], was.tasks[u].asked, was.tasks[u].ttls);
      }
    }
    forall j | 0 <= j < |now.log|
      ensures GatherChecked(s, ls + [l], now.log[j])
    {
      if j < |was.log| && now.log[j].GatherStarted? && now.log[j].refresh {
        var e := now.log[j];
        assert e == was.log[j] && GatherChecked(s, ls, was.log[j]);
        CheckedStays(s, ls, l, e.task, was.tasks[e.task], now.tasks[e.task], e.asked, e.ttls);
      }
    }
  }

  lemma {:induction false} CheckRecords(s: State, t: nat)
    requires Can(s, CheckAgain(t))
    ensures var s' := Do(s, CheckAgain(t));
            && Is(s, t) && s'.log == s.log && s'.tasks == s.tasks[t := s'.tasks[t]] && SameRequest(s.tasks[t], s'.tasks[t])
            && (AboutToGather(s'.tasks[t]) ==> CheckedIn(s, t, s'.tasks[t], s'.tasks[t].asked, s'.tasks[t].ttls))
  {
    hide OrderOf, StaleHosts, TtlsOf;
  }

  lemma {:induction false} BeginRecords(s: State, t: nat)
    requires Is(s, t) && s.tasks[t].phase.Granted?
    ensures var s' := DoBegin(s, t);
            && s'.tasks == s.tasks[t := s'.tasks[t]] && SameRequest(s.tasks[t], s'.tasks[t]) && !AboutToGather(s'.tasks[t])
            && |s'.log| == |s.log| + 1 && s'.log[..|s.log|] == s.log
            && (s'.log[|s.log|].GatherStarted? ==>
                  && s'.log[|s.log|].task == t && s'.log[|s.log|].sourceId == s.tasks[t].sourceId
                  && (s'.log[|s.log|].refresh <==> s.tasks[t].kind.Refresh?)
                  && s'.log[|s.log|].asked == s.tasks[t].asked && s'.log[|s.log|].ttls == s.tasks[t].ttls)
  {
    hide OrderOf, Released;
  }

  lemma {:induction false} StepKeepsChecked(s: State, ls: seq<Label>, l: Label)
    requires Runs(s, ls) && Can(After(s, ls), l) && WellFormed(After(s, ls)) && AllChecked(s, ls)
    ensures AllChecked(s, ls + [l])
  {
    hide Do, Can, Runs, After, AllChecked, WellFormed, KeepsBasis, Checked, DoBegin;
    var was := After(s, ls);
    OneMoreStep(s, ls, l);
    match l
    case CheckAgain(t) =>
      CheckRecords(was, t);
      var now := After(s, ls + [l]);
      if AboutToGather(now.tasks[t]) {
        CheckedHere(s, ls, l, t, now.tasks[t]);
      }
      OneTaskKeepsChecked(s, ls, l, t);
    case Begin(t) =>
      BeginDoes(was, t);
      BeginRecords(was, t);
      var now := After(s, ls + [l]);
      var e := now.log[|was.log|];
      if e.GatherStarted? && e.refresh {
        assert AboutToGather(was.tasks[t]);
        TaskIsChecked(s, ls, t);
        CheckedStays(s, ls, l, t, was.tasks[t], now.tasks[t], e.asked, e.ttls);
      }
      OneTaskKeepsChecked(s, ls, l, t);
    case _ =>
      StepKeepsBasis(was, l);
      BasisKeepsChecked(s, ls, l);
  }

  lemma {:induction false} TaskIsChecked(s: State, ls: seq<Label>, t: nat)
    requires AllChecked(s, ls) && Is(After(s, ls), t) && AboutToGather(After(s, ls).tasks[t])
    ensures var task := After(s, ls).tasks[t]; Checked(s, ls, t, task, task.asked, task.ttls)
  {
  }

  lemma {:induction false} BeginDoes(s: State, t: nat)
    requires Can(s, Begin(t))
    ensures Is(s, t) && s.tasks[t].phase.Granted? && Do(s, Begin(t)) == DoBegin(s, t)
  {
    hide DoBegin;
  }

  lemma {:induction false} CheckedHere(s: State, ls: seq<Label>, l: Label, t: nat, task: Task)
    requires l == CheckAgain(t) && CheckedIn(After(s, ls), t, task, task.asked, task.ttls)
    ensures Checked(s, ls + [l], t, task, task.asked, task.ttls)
  {
    hide After;
    assert (ls + [l])[..|ls|] == ls;
    assert CheckedIn(After(s, (ls + [l])[..|ls|]), t, task, task.asked, task.ttls);
  }

  lemma {:induction false} ReachableChecked(s: State, ls: seq<Label>)
    requires Initial(s) && Runs(s, ls)
    ensures AllChecked(s, ls)
  {
    hide Do, Can, Consistent;
    if ls == [] {
      NothingChecked(s);
    } else {
      var before, l := ls[..|ls| - 1], ls[|ls| - 1];
      ReachableChecked(s, before);
      ReachableConsistent(s, before);
      ConsistentParts(After(s, before));
      StepKeepsChecked(s, before, l);
      assert ls == before + [l];
    }
  }

  lemma {:induction false} NothingChecked(s: State)
    requires Initial(s)
    ensures AllChecked(s, [])
  {
  }

  // ----- the load of reads -----

  /** A TTL in force for the host when the task re-checked it: the configuration of
      the task's source, on what was cached then. */
  ghost predicate TtlInForce(c: State, task: Task, host: string, ttl: nat)
    requires task.kind.Refresh?
  {
    var entry := Cached(c.cache, task.sourceId);
    && entry.Some?
    && ConfiguredTtl(task.source, entry.value.dataset, host,
                     if task.kind.fallback.Some? then task.kind.fallback.value else entry.value.ttl / TICKS, ttl)
  }

  lemma {:induction false} LoggedTtlIsConfigured(c: State, t: nat, task: Task, asked: seq<string>, ttls: map<string, nat>, host: string)
    requires CheckedIn(c, t, task, asked, ttls) && host in ttls
    ensures TtlInForce(c, task, host, ttls[host])
  {
    hide StaleHosts;
    var entry := Cached(c.cache, task.sourceId).value;
    EffectiveIsConfigured(task.source, entry.dataset, host,
                          if task.kind.fallback.Some? then task.kind.fallback.value else entry.ttl / TICKS, ttls[host]);
  }

  /** The bound on the load of reads, in the configuration's terms: a refresh's gather
      of a host that an earlier refresh stored, and nobody removed, starts at least one
      TTL after that store. The TTL is the one the gathering task's source puts on the
      host, on what was cached when the task re-checked it under its locks; with an
      override of its own, that one. */
  lemma {:induction false} RefreshLoadIsBoundedByConfiguration(s: State, ls: seq<Label>, i: nat, j: nat, id: string, host: string)
    requires Initial(s) && Runs(s, ls) && id in s.local
    requires i < j < |After(s, ls).log|
    requires Stores(After(s, ls).log[i], id, host) && Gathers(After(s, ls).log[j], id, host)
    requires forall k | i < k < j :: !Loses(After(s, ls).log[k], id, host)
    ensures
      var now := After(s, ls);
      var t := now.log[j].task;
      && Is(now, t) && now.tasks[t].sourceId == id && now.tasks[t].kind.Refresh?
      && (exists m, ttl: nat | 0 <= m < |ls| && ls[m] == CheckAgain(t) && TtlInForce(After(s, ls[..m]), now.tasks[t], host, ttl) ::
            now.log[i].time + ttl * TICKS <= now.log[j].time)
      && (host in now.tasks[t].source.hostTtls ==>
            now.log[i].time + now.tasks[t].source.hostTtls[host] * TICKS <= now.log[j].time)
  {
    hide Do, Can, Runs, After, TtlsOf, StaleHosts;
    var now := After(s, ls);
    RefreshLoadIsBoundedByTtl(s, ls, i, j, id, host);
    ReachableChecked(s, ls);
    var e := now.log[j];
    assert GatherChecked(s, ls, e);
    var task := now.tasks[e.task];
    var m :| 0 <= m < |ls| && ls[m] == CheckAgain(e.task) && CheckedIn(After(s, ls[..m]), e.task, task, e.asked, e.ttls);
    LoggedTtlIsConfigured(After(s, ls[..m]), e.task, task, e.asked, e.ttls, host);
    assert TtlInForce(After(s, ls[..m]), task, host, e.ttls[host]);
  }
}
