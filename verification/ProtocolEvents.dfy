/** What the log says happened is what happened: gathers that start, hosts that are
    stored and hosts that are lost, step by step (src/application/refresh.rs:203-240,
    src/application/sync.rs:277-410). The load bound speaks of these events. */
module ProtocolEvents {
  import opened Json
  import opened SyncApply
  import opened Protocol
  import opened ProtocolLoad

  /** The cache knows when it got the host. */
  predicate Dated(s: State, id: string, host: string) {
    id in s.cache && host in s.cache[id].stamps
  }

  /** The event that the step added to the log, if any. */
  function Added(s: State, s': State): Option<Event> {
    if |s.log| < |s'.log| then Some(s'.log[|s.log|]) else None
  }

  /** The log is only ever added to, one event at a time. */
  predicate Continues(s: State, s': State) {
    s'.log == if Added(s, s').Some? then s.log + [Added(s, s').value] else s.log
  }

  /** The step neither starts a gather nor changes the cache. */
  predicate Quiet(s: State, s': State) {
    && s'.cache == s.cache && Continues(s, s')
    && match Added(s, s')
       case None => true
       case Some(e) => e.CounterRead? || e.LockGranted? || e.Coalesced? || e.Counted?
  }

  predicate Eventful(l: Label) {
    l.Begin? || l.Write? || (l.Land? && l.answer.Some?)
  }

  lemma {:induction false} EnvironmentIsQuiet(s: State, l: Label)
    requires Can(s, l) && (l.Tick? || l.Resize? || l.StartRefresh? || l.StartSync?)
    ensures Quiet(s, Do(s, l))
  {
    hide OrderOf, StaleHosts;
  }

  lemma {:induction false} TakersAreQuiet(s: State, l: Label)
    requires Can(s, l) && (l.TakeHost? || l.Settle? || l.TakePermit? || l.Enter? || l.Queue? || l.TakeSource?)
    ensures Quiet(s, Do(s, l))
  {
    hide OrderOf;
  }

  lemma {:induction false} EndersAreQuiet(s: State, l: Label)
    requires Can(s, l) && (l.Unwind? || l.TimeOut? || l.Cancel?)
    ensures Quiet(s, Do(s, l))
  {
    hide OrderOf, Released;
  }

  lemma {:induction false} CheckIsQuiet(s: State, t: nat, still: seq<string>)
    requires Is(s, t) && s.tasks[t].kind.Refresh?
    ensures Quiet(s, DoCheckAgain(s, t, still))
  {
    hide OrderOf, TtlsOf;
  }

  lemma {:induction false} FinishIsQuiet(s: State, l: Label)
    requires Can(s, l) && (l.Finish? || (l.Land? && l.answer.None?))
    ensures Quiet(s, Do(s, l))
  {
    hide OrderOf, Apply;
  }

  lemma {:induction false} OtherStepsAreQuiet(s: State, l: Label)
    requires Can(s, l) && !Eventful(l)
    ensures Quiet(s, Do(s, l))
  {
    hide Quiet, DoCheckAgain, DoBegin, DoLand, DoFinish, Ended, Moved, OrderOf;
    if l.Tick? || l.Resize? || l.StartRefresh? || l.StartSync? {
      EnvironmentIsQuiet(s, l);
    } else if l.TakeHost? || l.Settle? || l.TakePermit? || l.Enter? || l.Queue? || l.TakeSource? {
      TakersAreQuiet(s, l);
    } else if l.CheckAgain? {
      var still := StillStale(s, s.tasks[l.t]);
      CheckIsQuiet(s, l.t, still);
    } else if l.Finish? || l.Land? {
      FinishIsQuiet(s, l);
    } else {
      EndersAreQuiet(s, l);
    }
  }

  /** A gather of the host by a refresh is logged exactly when one starts: when a refresh
      that found it still stale under its locks gets its turn on the source. */
  lemma {:induction false} GathersAreLogged(s: State, l: Label, id: string, host: string)
    requires Can(s, l)
    ensures var s' := Do(s, l);
            && Continues(s, s')
            && (Added(s, s').Some? && Gathers(Added(s, s').value, id, host) <==>
                  l.Begin? && s.tasks[l.t].kind.Refresh? && s.tasks[l.t].sourceId == id && host in s.tasks[l.t].asked)
            && (Added(s, s').Some? && Gathers(Added(s, s').value, id, host) ==>
                  Added(s, s').value.time == s'.now == s.now && Added(s, s').value.task == l.t)
  {
    hide OrderOf, StaleHosts, TtlsOf, Apply, Delivered, Lost, Stored, Released;
    if !Eventful(l) {
      OtherStepsAreQuiet(s, l);
    }
  }

  /** A store of the host by a refresh is logged exactly when one happens: when a gather
      of it lands with an answer for it. */
  lemma {:induction false} StoresAreLogged(s: State, l: Label, id: string, host: string)
    requires Can(s, l)
    ensures var s' := Do(s, l);
            && (Added(s, s').Some? && Stores(Added(s, s').value, id, host) <==>
                  && l.Land? && s.tasks[l.t].kind.Refresh? && s.tasks[l.t].sourceId == id
                  && l.answer.Some? && host in s.tasks[l.t].asked && host in l.answer.value.dataset.hostvars)
            && (Added(s, s').Some? && Stores(Added(s, s').value, id, host) ==>
                  Added(s, s').value.time == s'.now && Added(s, s').value.task == l.t)
  {
    hide OrderOf, StaleHosts, TtlsOf, Apply, Delivered, Lost, Stored, Released;
    if !Eventful(l) {
      OtherStepsAreQuiet(s, l);
    }
  }

  /** The loss of a host is logged exactly when one happens: when the cache knew when it
      got the host, and no longer does. */
  lemma {:induction false} LossesAreLogged(s: State, l: Label, id: string, host: string)
    requires Can(s, l)
    ensures var s' := Do(s, l);
            Added(s, s').Some? && Loses(Added(s, s').value, id, host) <==> Dated(s, id, host) && !Dated(s', id, host)
  {
    hide OrderOf, StaleHosts, TtlsOf, Apply, Delivered, Released;
    if !Eventful(l) {
      OtherStepsAreQuiet(s, l);
    }
  }
}
