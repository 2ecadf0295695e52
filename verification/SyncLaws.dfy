/** What a sync's write leaves in the cache, for every scope and mode, told by what was
    there and what the connector answered (src/application/sync.rs:640-861). */
module SyncLaws {
  import opened Json
  import opened Datasets
  import opened Sources
  import opened Entries
  import opened EntryLaws
  import opened Retention
  import opened SyncApply

  // ----- the whole source, replaced -----

  /** A host the gather could not reach, that was here before. */
  predicate Missed(e: Entry, out: Output, host: string) {
    host in out.unreachable && host !in out.dataset.hostvars && host in e.dataset.hostvars
  }

  lemma {:induction false} RestoringKeepsTheRest(e: Entry, rs: seq<Retained>, now: nat)
    ensures var after := RestoreAll(e, rs, now);
            after.fetchedAt == e.fetchedAt && after.ttl == e.ttl && after.complete == e.complete
  {
    if rs != [] {
      RestoringKeepsTheRest(e, rs[..|rs| - 1], now);
    }
  }

  /** After a replacing sync the hosts are the gathered ones and those it missed. The
      gathered ones are as gathered; a missed one has the variables it had, every group
      it was in, and a stamp that is the old one but for less than a second and the time
      in between. Groups are described as gathered. The entry is complete. */
  lemma {:induction false} ReplaceSyncKeepsWhomItMissed(e: Entry, source: Source, out: Output, capture: nat, now: nat, host: string)
    requires source.syncMode == Replace && capture <= now
    ensures var next := Apply(Some(e), source, Full, out, capture, now);
            && next.Some?
            && var after := next.value;
            && after.complete
            && (host in after.dataset.hostvars <==> host in out.dataset.hostvars || Missed(e, out, host))
            && (host in out.dataset.hostvars ==> after.dataset.hostvars[host] == out.dataset.hostvars[host])
            && (Missed(e, out, host) ==> after.dataset.hostvars[host] == e.dataset.hostvars[host])
            && (forall name :: MemberOf(after.dataset.groups, name, host) <==>
                  MemberOf(out.dataset.groups, name, host) || (Missed(e, out, host) && MemberOf(e.dataset.groups, name, host)))
            && (forall name | name in out.dataset.groups ::
                  && name in after.dataset.groups
                  && after.dataset.groups[name].children == out.dataset.groups[name].children
                  && after.dataset.groups[name].vars == out.dataset.groups[name].vars)
            && (Missed(e, out, host) && host in e.stamps && e.stamps[host] <= capture ==>
                  && host in after.stamps
                  && e.stamps[host] <= after.stamps[host] < e.stamps[host] + TICKS + (now - capture)
                  && after.stamps[host] <= now)
            && (Missed(e, out, host) && host !in e.stamps ==> host in after.stamps && after.stamps[host] == now)
            && (out.ages.None? ==> after.fetchedAt == now && (host in after.stamps <==> host in after.dataset.hostvars))
            && (out.ages.None? && host in out.dataset.hostvars ==> after.stamps[host] == now)
            && (out.ages.Some? && !Missed(e, out, host) ==>
                  if host in out.ages.value.hostAges && Representable(out.ages.value.hostAges[host], now)
                  then host in after.stamps && after.stamps[host] + out.ages.value.hostAges[host] * TICKS == now
                  else host !in after.stamps)
  {
    hide ReplaceKeeping, RestoreAll, Captured, PutBack;
    WhatReplacingDoes(e, source, out, capture, now);
    ReplacementHolds(e, out.dataset, out.unreachable, source.ttlSeconds, out.ages, capture, now);
    WhatIsPutBack(e, source, out, capture, now, host);
    if Missed(e, out, host) && host in e.stamps && e.stamps[host] <= capture {
      BackdatingDrift(e.stamps[host], capture, now);
    }
  }

  /** The write is the replacement with everyone missed put back, whether there are
      any or not. */
  lemma {:induction false} WhatReplacingDoes(e: Entry, source: Source, out: Output, capture: nat, now: nat)
    requires source.syncMode == Replace
    ensures var next := Apply(Some(e), source, Full, out, capture, now);
            var kept := ReplaceKeeping(e, out.dataset, out.unreachable, source.ttlSeconds, out.ages, capture, now);
            && next.Some? && next.value.dataset == kept.dataset && next.value.stamps == kept.stamps
            && next.value.complete && next.value.fetchedAt == Replacement(out.dataset, source.ttlSeconds, out.ages, now).fetchedAt
  {
    var base := Replacement(out.dataset, source.ttlSeconds, out.ages, now);
    RestoringKeepsTheRest(base, Captured(e, out.dataset, out.unreachable, capture), now);
  }

  lemma {:induction false} WhatIsPutBack(e: Entry, source: Source, out: Output, capture: nat, now: nat, host: string)
    requires var base := Replacement(out.dataset, source.ttlSeconds, out.ages, now);
             PutBack(base, e, Kept(e, out.dataset, out.unreachable),
                     ReplaceKeeping(e, out.dataset, out.unreachable, source.ttlSeconds, out.ages, capture, now), capture, now)
    ensures var after := ReplaceKeeping(e, out.dataset, out.unreachable, source.ttlSeconds, out.ages, capture, now);
            && (host in after.dataset.hostvars <==> host in out.dataset.hostvars || Missed(e, out, host))
            && (host in out.dataset.hostvars ==> after.dataset.hostvars[host] == out.dataset.hostvars[host])
            && (Missed(e, out, host) ==>
                  && after.dataset.hostvars[host] == e.dataset.hostvars[host]
                  && host in after.stamps && after.stamps[host] == Backdated(now, AgeAt(e, host, capture)))
            && (forall name :: MemberOf(after.dataset.groups, name, host) <==>
                  MemberOf(out.dataset.groups, name, host) || (Missed(e, out, host) && MemberOf(e.dataset.groups, name, host)))
            && (forall name | name in out.dataset.groups ::
                  && name in after.dataset.groups
                  && after.dataset.groups[name].children == out.dataset.groups[name].children
                  && after.dataset.groups[name].vars == out.dataset.groups[name].vars)
            && (!Missed(e, out, host) ==>
                  SameStamp(after, Replacement(out.dataset, source.ttlSeconds, out.ages, now), host))
  {
    hide ReplaceKeeping;
    assert host in Kept(e, out.dataset, out.unreachable) <==> Missed(e, out, host);
  }

  /** One replacing sync: its source, its answer, and when the old state was read and
      the new one written. */
  datatype Sync = Sync(source: Source, out: Output, capture: nat, now: nat)

  function Synced(e: Entry, syncs: seq<Sync>): Option<Entry> {
    if syncs == [] then Some(e)
    else
      var s := syncs[|syncs| - 1];
      Apply(Synced(e, syncs[..|syncs| - 1]), s.source, Full, s.out, s.capture, s.now)
  }

  predicate InTime(start: nat, syncs: seq<Sync>) {
    && (forall i | 0 <= i < |syncs| :: start <= syncs[i].capture <= syncs[i].now)
    && (forall i, j | 0 <= i < j < |syncs| :: syncs[i].now <= syncs[j].capture)
  }

  function Waits(syncs: seq<Sync>): nat
    requires forall i | 0 <= i < |syncs| :: syncs[i].capture <= syncs[i].now
  {
    if syncs == [] then 0
    else Waits(syncs[..|syncs| - 1]) + (syncs[|syncs| - 1].now - syncs[|syncs| - 1].capture)
  }

  /** However many replacing syncs in a row miss a host, it stays in the cache, with its
      variables and groups; its recorded age never exceeds the true one and falls short
      by less than a second per sync and the time each took to write. */
  lemma {:induction false} MissedSyncsDriftIsBounded(e: Entry, host: string, syncs: seq<Sync>)
    requires host in e.stamps && host in e.dataset.hostvars && InTime(e.stamps[host], syncs)
    requires forall i | 0 <= i < |syncs| ::
               && syncs[i].source.syncMode == Replace
               && host in syncs[i].out.unreachable && host !in syncs[i].out.dataset.hostvars
    ensures var next := Synced(e, syncs);
            && next.Some?
            && var after := next.value;
            && host in after.stamps && host in after.dataset.hostvars
            && after.dataset.hostvars[host] == e.dataset.hostvars[host]
            && e.stamps[host] <= after.stamps[host] <= e.stamps[host] + |syncs| * TICKS + Waits(syncs)
            && (syncs != [] ==> after.stamps[host] < e.stamps[host] + |syncs| * TICKS + Waits(syncs))
            && (syncs != [] ==> after.stamps[host] <= syncs[|syncs| - 1].now)
            && forall name :: MemberOf(e.dataset.groups, name, host) ==> MemberOf(after.dataset.groups, name, host)
  {
    hide Apply;
    if syncs != [] {
      var earlier, s := syncs[..|syncs| - 1], syncs[|syncs| - 1];
      MissedSyncsDriftIsBounded(e, host, earlier);
      if earlier != [] {
        assert earlier[|earlier| - 1].now <= s.capture;
      }
      ReplaceSyncKeepsWhomItMissed(Synced(e, earlier).value, s.source, s.out, s.capture, s.now, host);
    }
  }

  // ----- the whole source, merged or new -----

  /** A merging sync patches in what came: gathered hosts as gathered and stamped now,
      hosts to remove gone from everywhere, any other as it was, groups that came in
      place of the old ones. The entry is complete and dated now. */
  lemma {:induction false} MergeSyncPatches(e: Entry, source: Source, out: Output, capture: nat, now: nat, host: string)
    requires source.syncMode == Merge
    ensures var next := Apply(Some(e), source, Full, out, capture, now);
            && next.Some?
            && var after := next.value;
            && after.complete && after.fetchedAt == now
            && if host in out.dataset.removeHosts then Forgotten(after, host)
               else
                 && (host in after.dataset.hostvars <==> host in e.dataset.hostvars || host in out.dataset.hostvars)
                 && (host in out.dataset.hostvars ==>
                       && after.dataset.hostvars[host] == out.dataset.hostvars[host]
                       && host in after.stamps && after.stamps[host] == now)
                 && (host !in out.dataset.hostvars && host in e.dataset.hostvars ==>
                       after.dataset.hostvars[host] == e.dataset.hostvars[host] && SameStamp(after, e, host))
                 && forall name :: MemberOf(after.dataset.groups, name, host) <==>
                      if name in out.dataset.groups then MemberOf(out.dataset.groups, name, host)
                      else MemberOf(e.dataset.groups, name, host)
  {
    MergePatches(e, out.dataset, true, now, host);
  }

  /** A sync that finds the cache empty: the gathered dataset as it is, every host stamped
      now, and so even if ages were reported where the sync is of a group, or is a full one
      that merges or missed a host; only a sync of the whole source makes a
      complete entry, and one that was told of no requested host makes none. */
  lemma {:induction false} FirstSyncWrites(source: Source, scope: Scope, out: Output, capture: nat, now: nat, host: string, later: nat)
    requires out.ages.None? || scope.Group? || (scope.Full? && (source.syncMode == Merge || out.unreachable != []))
    ensures var next := Apply(None, source, scope, out, capture, now);
            && (next.None? <==> scope.Hosts? && forall h | h in scope.hosts :: h !in out.dataset.hostvars)
            && (next.Some? ==>
                  && next.value.dataset.groups == out.dataset.groups
                  && next.value.dataset.hostvars.Keys == out.dataset.hostvars.Keys
                  && (host in out.dataset.hostvars ==> next.value.dataset.hostvars[host] == out.dataset.hostvars[host])
                  && (host in next.value.stamps <==> host in out.dataset.hostvars)
                  && (host in next.value.stamps ==> next.value.stamps[host] == now)
                  && next.value.fetchedAt == now
                  && (next.value.complete <==> scope.Full?)
                  && (IsFresh(next.value, later) ==> scope.Full?))
  {
    hide Answered, UpdateHosts, Backdated;
    assert Backdated(now, 0) == now by {
      NoAge(now);
    }
    if scope.Hosts? {
      var answered := Answered(scope.hosts, out);
      UpdatedHosts(New(out.dataset, source.ttlSeconds, now), answered, out, now);
      UpdatingKeepsTheRest(New(out.dataset, source.ttlSeconds, now), answered, out, now);
      NobodyAnswered(scope.hosts, out);
    }
  }

  lemma {:induction false} NoAge(now: nat)
    ensures Backdated(now, 0) == now
  {
  }

  lemma {:induction false} NobodyAnswered(hosts: seq<string>, out: Output)
    ensures Answered(hosts, out) == [] <==> forall h | h in hosts :: h !in out.dataset.hostvars
  {
    if Answered(hosts, out) != [] {
      assert Answered(hosts, out)[0] in Answered(hosts, out);
    }
  }

  /** A whole replacement that missed nobody does not depend on what was there. */
  lemma {:induction false} CompleteReplacementForgets(prev: Option<Entry>, e: Entry, source: Source, out: Output, capture: nat, now: nat)
    requires source.syncMode == Replace && out.unreachable == []
    ensures Apply(prev, source, Full, out, capture, now) == Apply(Some(e), source, Full, out, capture, now)
  {
  }

  /** It holds what was gathered, and each host dated by the age reported for it, or now if
      no ages are. */
  lemma {:induction false} CompleteReplacementIsDated(prev: Option<Entry>, source: Source, out: Output, capture: nat, now: nat,
                                                      host: string)
    requires source.syncMode == Replace && out.unreachable == []
    ensures var next := Apply(prev, source, Full, out, capture, now);
            && next.Some? && next.value.dataset == out.dataset && next.value.complete
            && match out.ages
               case None =>
                 && (host in next.value.stamps <==> host in out.dataset.hostvars)
                 && (host in next.value.stamps ==> next.value.stamps[host] == now)
                 && next.value.fetchedAt == now
               case Some(ages) =>
                 && (host in next.value.stamps <==> host in ages.hostAges && Representable(ages.hostAges[host], now))
                 && (host in next.value.stamps ==> next.value.stamps[host] + ages.hostAges[host] * TICKS == now)
                 && next.value.fetchedAt + (if Representable(ages.datasetAge, now) then ages.datasetAge * TICKS else 0) == now
  {
  }

  /** A host that a sync of hosts was answered for is stamped with the age reported for
      it, where the clock can represent that, and now otherwise. */
  lemma {:induction false} AnsweredHostsAreDated(prev: Option<Entry>, source: Source, hosts: seq<string>, out: Output, capture: nat,
                                                 now: nat, host: string)
    requires host in hosts && host in out.dataset.hostvars
    ensures var next := Apply(prev, source, Hosts(hosts), out, capture, now);
            && next.Some? && host in next.value.stamps
            && if out.ages.Some? && host in out.ages.value.hostAges && Representable(out.ages.value.hostAges[host], now)
               then next.value.stamps[host] + out.ages.value.hostAges[host] * TICKS == now
               else next.value.stamps[host] == now
  {
    hide Answered, UpdateHosts, PlaceHosts, MergeGroupVarFields;
    NobodyAnswered(hosts, out);
    var answered := Answered(hosts, out);
    match prev
    case Some(e) => HostScopeTouchesOnlyAnswered(e, source, hosts, out, now);
    case None => UpdatedHosts(New(out.dataset, source.ttlSeconds, now), answered, out, now);
  }

  lemma {:induction false} UpdatingKeepsTheRest(e: Entry, answered: seq<string>, out: Output, now: nat)
    requires forall h | h in answered :: h in out.dataset.hostvars
    ensures var after := UpdateHosts(e, answered, out, now);
            && after.dataset.groups == e.dataset.groups && after.fetchedAt == e.fetchedAt
            && after.ttl == e.ttl && after.complete == e.complete
  {
    if answered != [] {
      UpdatingKeepsTheRest(e, answered[..|answered| - 1], out, now);
    }
  }

  lemma {:induction false} PlacingKeepsTheRest(e: Entry, answered: seq<string>, out: Output)
    ensures var after := PlaceHosts(e, answered, out);
            after.fetchedAt == e.fetchedAt && after.ttl == e.ttl && after.complete == e.complete
  {
    if answered != [] {
      PlacingKeepsTheRest(e, answered[..|answered| - 1], out);
    }
  }

  // ----- a part of the source -----

  /** A sync of a part never changes how old or how complete the whole is. */
  lemma {:induction false} PartialSyncsDateNothing(e: Entry, source: Source, scope: Scope, out: Output, capture: nat, now: nat)
    requires !scope.Full?
    ensures var next := Apply(Some(e), source, scope, out, capture, now);
            next.Some? && next.value.fetchedAt == e.fetchedAt && next.value.complete == e.complete
  {
    if scope.Hosts? {
      var answered := Answered(scope.hosts, out);
      UpdatingKeepsTheRest(e, answered, out, now);
      PlacingKeepsTheRest(UpdateHosts(e, answered, out, now), answered, out);
    }
  }

  /** Every write leaves the source's TTL behind; only a sync of hosts that was told of
      none writes nothing, and a whole replacement with reported ages may be stale from
      the start. */
  lemma {:induction false} WritesLeaveTheTtl(prev: Option<Entry>, source: Source, scope: Scope, out: Output, capture: nat, now: nat)
    ensures var next := Apply(prev, source, scope, out, capture, now);
            if scope.Hosts? && (forall h | h in scope.hosts :: h !in out.dataset.hostvars) then next == prev
            else
              && next.Some?
              && next.value.ttl ==
                   if scope.Full? && source.syncMode == Replace && out.unreachable == []
                      && out.ages.Some? && !Representable(out.ages.value.datasetAge, now) then 0
                   else source.ttlSeconds * TICKS
  {
    if scope.Hosts? {
      var answered := Answered(scope.hosts, out);
      NobodyAnswered(scope.hosts, out);
      UpdatingKeepsTheRest(New(out.dataset, source.ttlSeconds, now), answered, out, now);
    }
  }

  /** A group's sync is the update of that group. */
  lemma {:induction false} GroupSyncTouchesMembersOnly(e: Entry, source: Source, name: string, out: Output, capture: nat, now: nat, host: string)
    ensures var next := Apply(Some(e), source, Scope.Group(name), out, capture, now);
            && next.Some?
            && var after := next.value;
            && (forall n :: MemberOf(after.dataset.groups, n, host) <==> MemberOf(e.dataset.groups, n, host))
            && if MemberOf(e.dataset.groups, name, host) && host in out.dataset.hostvars then
                 && host in after.dataset.hostvars && after.dataset.hostvars[host] == out.dataset.hostvars[host]
                 && host in after.stamps && after.stamps[host] == now
               else SameHost(after, e, host)
  {
    GroupUpdateTouchesMembersOnly(e, name, out.dataset, now, host);
  }

  /** The value of a group's variable, if it has it. */
  function GroupVar(groups: map<string, Group>, name: string, key: string): Option<Json> {
    if name in groups && groups[name].vars.Some? && key in groups[name].vars.value
    then Some(groups[name].vars.value[key]) else None
  }

  /** The connector lists an answered host in that group and gives it that variable. */
  predicate ClaimsVar(hosts: seq<string>, out: Output, name: string, key: string) {
    && GroupVar(out.dataset.groups, name, key).Some?
    && exists h | h in hosts :: h in out.dataset.hostvars && h in out.dataset.groups[name].hosts
  }

  /** A sync of hosts changes the variables of groups only if the source says so, and
      then only those the connector gives to groups in which it places an answered
      host. */
  lemma {:induction false} HostSyncGroupVars(e: Entry, source: Source, hosts: seq<string>, out: Output, capture: nat, now: nat,
                                             name: string, key: string)
    ensures var after := Apply(Some(e), source, Hosts(hosts), out, capture, now).value;
            GroupVar(after.dataset.groups, name, key) ==
              if source.hostSyncUpdatesGroupVars && ClaimsVar(hosts, out, name, key)
              then GroupVar(out.dataset.groups, name, key) else GroupVar(e.dataset.groups, name, key)
  {
    var answered := Answered(hosts, out);
    var updated := UpdateHosts(e, answered, out, now);
    UpdatingKeepsTheRest(e, answered, out, now);
    PlacingKeepsVars(updated, answered, out, name, key);
    if answered != [] {
      assert answered[0] in answered;
      ClaimedVars(PlaceHosts(updated, answered, out), hosts, out, name, key);
    }
  }

  lemma {:induction false} ClaimedGroups(hosts: seq<string>, out: Output, name: string)
    ensures var claimed := ClaimedGroupVars(Answered(hosts, out), out).groups;
            && (name in claimed <==>
                  && name in out.dataset.groups && out.dataset.groups[name].vars.Some?
                  && exists h | h in hosts :: h in out.dataset.hostvars && h in out.dataset.groups[name].hosts)
            && (name in claimed ==> claimed[name].vars == out.dataset.groups[name].vars)
  {
    if name in out.dataset.groups {
      if h :| h in hosts && h in out.dataset.hostvars && h in out.dataset.groups[name].hosts {
        assert h in Answered(hosts, out) && name in GroupsOf(out.dataset.groups, h);
      }
    }
  }

  lemma {:induction false} ClaimedVars(e: Entry, hosts: seq<string>, out: Output, name: string, key: string)
    ensures GroupVar(MergeGroupVarFields(e, ClaimedGroupVars(Answered(hosts, out), out)).dataset.groups, name, key) ==
            if ClaimsVar(hosts, out, name, key) then GroupVar(out.dataset.groups, name, key)
            else GroupVar(e.dataset.groups, name, key)
  {
    hide ClaimedGroupVars, MergeGroupVarFields, Answered;
    ClaimedGroups(hosts, out, name);
    OneGroupDescribed(e, ClaimedGroupVars(Answered(hosts, out), out), name);
  }

  lemma {:induction false} PlacingKeepsVars(e: Entry, answered: seq<string>, out: Output, name: string, key: string)
    ensures GroupVar(PlaceHosts(e, answered, out).dataset.groups, name, key) == GroupVar(e.dataset.groups, name, key)
  {
    if answered != [] {
      PlacingKeepsVars(e, answered[..|answered| - 1], out, name, key);
    }
  }

  /** The dataset as delivered to the cache lists every host that a group of it names;
      one that was named nowhere else has no variables. */
  lemma {:induction false} GroupMembersBecomeHosts(d: Dataset, host: string)
    ensures var full := WithGroupMembers(d);
            && full.groups == d.groups && full.removeHosts == d.removeHosts
            && (host in full.hostvars <==> host in d.hostvars || exists name :: MemberOf(d.groups, name, host))
            && (host in full.hostvars ==> full.hostvars[host] == if host in d.hostvars then d.hostvars[host] else map[])
  {
    if host in WithGroupMembers(d).hostvars && host !in d.hostvars {
      var name, h :| name in d.groups && h in d.groups[name].hosts && h == host;
      assert MemberOf(d.groups, name, host);
    }
    if name :| MemberOf(d.groups, name, host) {
      assert name in d.groups && host in d.groups[name].hosts;
    }
  }
}
